/** Days since 1970-01-01 to civil dates and back: two independently written era-based
    computations, and the Gregorian calendar they have to agree with. */
module Calendar {
  import opened Common

  datatype Date = Date(year: int, month: int, day: int)

  /** Division as the machine does it: towards zero. */
  function TruncDiv(a: int, b: int): int
    requires b > 0
  {
    if a >= 0 then a / b else -(-a / b)
  }

  // ----- The calendar -----

  predicate Leap(year: int) {
    year % 4 == 0 && (year % 100 != 0 || year % 400 == 0)
  }

  function DaysInMonth(year: int, month: int): (n: int)
    ensures 28 <= n <= 31
  {
    if month == 2 then (if Leap(year) then 29 else 28)
    else if month == 4 || month == 6 || month == 9 || month == 11 then 30
    else 31
  }

  predicate ValidDate(date: Date) {
    1 <= date.month <= 12 && 1 <= date.day <= DaysInMonth(date.year, date.month)
  }

  function NextDay(date: Date): (r: Date)
    requires ValidDate(date)
    ensures ValidDate(r)
  {
    if date.day < DaysInMonth(date.year, date.month) then date.(day := date.day + 1)
    else if date.month < 12 then Date(date.year, date.month + 1, 1)
    else Date(date.year + 1, 1, 1)
  }

  // ----- The two computations -----

  const ERA: int := 146_097
  const EPOCH: int := 719_468

  /** Days of the era before its `yoe`-th year, years counted from March. */
  function YearStart(yoe: int): int {
    365 * yoe + yoe / 4 - yoe / 100
  }

  /** Days of the year before its `mp`-th month, months counted from March. */
  function MonthStart(mp: int): int {
    (153 * mp + 2) / 5
  }

  function EraOf(z: int): int {
    TruncDiv(if z >= 0 then z else z - 146_096, ERA)
  }

  function YearOfEra(doe: int): int {
    (doe - doe / 1_460 + doe / 36_524 - doe / 146_096) / 365
  }

  function MonthOfYear(doy: int): int {
    (5 * doy + 2) / 153
  }

  function DateIn(era: int, yoe: int, mp: int, day: int): Date {
    var m := if mp < 10 then mp + 3 else mp - 9;
    Date(yoe + era * 400 + (if m <= 2 then 1 else 0), m, day)
  }

  function DateInYear(era: int, yoe: int, doy: int): Date {
    var mp := MonthOfYear(doy);
    DateIn(era, yoe, mp, doy - MonthStart(mp) + 1)
  }

  function DateInEra(era: int, doe: int): Date {
    var yoe := YearOfEra(doe);
    DateInYear(era, yoe, doe - YearStart(yoe))
  }

  function CivilFromDays(days: int): Date {
    var z := days + EPOCH;
    var era := EraOf(z);
    DateInEra(era, z - era * ERA)
  }

  function EraOfYear(year: int): int {
    TruncDiv(if year >= 0 then year else year - 399, 400)
  }

  function FromMarch(month: int): int {
    if month > 2 then month - 3 else month + 9
  }

  function DaysFromCivil(date: Date): Option<int> {
    if !(1 <= date.month <= 12) || !(1 <= date.day <= 31) then None
    else
      var year := if date.month <= 2 then date.year - 1 else date.year;
      var era := EraOfYear(year);
      var yoe := year - era * 400;
      var doy := MonthStart(FromMarch(date.month)) + date.day - 1;
      var doe := YearStart(yoe) + doy;
      Some(era * ERA + doe - EPOCH)
  }

  // ----- Eras, years and months as intervals -----

  lemma EraIsFloor(era: int, doe: int)
    requires 0 <= doe < ERA
    ensures EraOf(era * ERA + doe) == era
  {
  }

  lemma EraOfYearIsFloor(era: int, yoe: int)
    requires 0 <= yoe < 400
    ensures EraOfYear(era * 400 + yoe) == era
  {
  }

  /** A year ends where the next begins; the era's last year has the extra leap day. */
  function YearEnd(yoe: int): int {
    if yoe == 399 then ERA else YearStart(yoe + 1)
  }

  predicate LongYear(c: int, q: int, r: int) {
    r == 3 && (q < 24 || c == 3)
  }

  lemma CenturyOf(c: int, rest: int)
    requires 0 <= c < 4 && 0 <= rest < (if c == 3 then 36_525 else 36_524)
    ensures var doe := 36_524 * c + rest; doe / 36_524 - doe / 146_096 == c
  {
  }

  lemma YearStartAt(c: int, q: int, r: int)
    requires 0 <= c < 4 && 0 <= q < 25 && 0 <= r < 4
    ensures YearStart(100 * c + 4 * q + r) == 36_524 * c + 1_461 * q + 365 * r
  {
    assert (100 * c + 4 * q + r) / 4 == 25 * c + q;
    assert (100 * c + 4 * q + r) / 100 == c;
  }

  /** Day `t` of year `r` of the `q`-th four-year run of the `c`-th century. */
  lemma YearOfEraAt(c: int, q: int, r: int, t: int)
    requires 0 <= c < 4 && 0 <= q < 25 && 0 <= r < 4 && 0 <= t < (if LongYear(c, q, r) then 366 else 365)
    ensures YearOfEra(36_524 * c + 1_461 * q + 365 * r + t) == 100 * c + 4 * q + r
  {
    var doe := 36_524 * c + 1_461 * q + 365 * r + t;
    var carry := if 24 * c + q + 365 * r + t >= 1_460 then 1 else 0;
    CenturyOf(c, 1_461 * q + 365 * r + t);
    assert doe / 1_460 == 25 * c + q + carry;
    assert doe - doe / 1_460 + c == 365 * (100 * c + 4 * q + r) + (t - carry);
  }

  /** Every day of an era is such a day. */
  lemma SplitEra(doe: int) returns (c: int, q: int, r: int, t: int)
    requires 0 <= doe < ERA
    ensures 0 <= c < 4 && 0 <= q < 25 && 0 <= r < 4 && 0 <= t < (if LongYear(c, q, r) then 366 else 365)
    ensures doe == 36_524 * c + 1_461 * q + 365 * r + t
  {
    c := if doe / 36_524 > 3 then 3 else doe / 36_524;
    var inCentury := doe - 36_524 * c;
    q := inCentury / 1_461;
    var inRun := inCentury - 1_461 * q;
    r := if inRun / 365 > 3 then 3 else inRun / 365;
    t := inRun - 365 * r;
  }

  lemma NextYearStart(c: int, q: int, r: int)
    requires 0 <= c < 4 && 0 <= q < 25 && 0 <= r < 4
    ensures YearEnd(100 * c + 4 * q + r) == 36_524 * c + 1_461 * q + 365 * r + (if LongYear(c, q, r) then 366 else 365)
  {
    if r < 3 { YearStartAt(c, q, r + 1); }
    else if q < 24 { YearStartAt(c, q + 1, 0); }
    else if c < 3 { YearStartAt(c + 1, 0, 0); }
  }

  lemma YearOfEraInRange(doe: int)
    requires 0 <= doe < ERA
    ensures var yoe := YearOfEra(doe); 0 <= yoe < 400 && YearStart(yoe) <= doe < YearEnd(yoe)
  {
    var c, q, r, t := SplitEra(doe);
    YearOfEraAt(c, q, r, t);
    YearStartAt(c, q, r);
    NextYearStart(c, q, r);
  }

  lemma YearsAreOrdered(a: int, b: int)
    requires 0 <= a < b < 400
    ensures YearEnd(a) <= YearStart(b)
  {
  }

  lemma YearOfEraIsExact(doe: int, yoe: int)
    requires 0 <= doe < ERA && 0 <= yoe < 400 && YearStart(yoe) <= doe < YearEnd(yoe)
    ensures YearOfEra(doe) == yoe
  {
    YearOfEraInRange(doe);
    var y := YearOfEra(doe);
    if y < yoe { YearsAreOrdered(y, yoe); } else if yoe < y { YearsAreOrdered(yoe, y); }
  }

  lemma LeapAt(era: int, c: int, q: int, r: int)
    requires 0 <= c < 4 && 0 <= q < 25 && 0 <= r < 4
    ensures Leap(era * 400 + 100 * c + 4 * q + r + 1) <==> LongYear(c, q, r)
  {
    var y := era * 400 + 100 * c + 4 * q + r + 1;
    if r < 3 {
      assert y == 4 * (100 * era + 25 * c + q) + (r + 1);
    } else if q < 24 {
      assert y == 4 * (100 * era + 25 * c + q + 1);
      assert y == 100 * (4 * era + c) + 4 * (q + 1);
    } else {
      LeapCentury(era, c);
    }
  }

  lemma LeapCentury(era: int, c: int)
    requires 0 <= c < 4
    ensures Leap(era * 400 + 100 * c + 100) <==> c == 3
  {
    var y := era * 400 + 100 * c + 100;
    assert y == 4 * (100 * era + 25 * c + 25);
    assert y == 100 * (4 * era + c + 1);
    if c == 3 { assert y == 400 * (era + 1); } else { assert y == 400 * era + (100 * c + 100); }
  }

  /** A March-based year has 366 days exactly when the year it ends in is leap. */
  lemma YearLength(era: int, yoe: int)
    requires 0 <= yoe < 400
    ensures YearEnd(yoe) - YearStart(yoe) == (if Leap(era * 400 + yoe + 1) then 366 else 365)
  {
    var c, q, r := yoe / 100, yoe % 100 / 4, yoe % 4;
    assert yoe == 100 * c + 4 * q + r;
    YearStartAt(c, q, r);
    NextYearStart(c, q, r);
    LeapAt(era, c, q, r);
  }

  lemma MonthIsExact(doy: int)
    requires 0 <= doy < 366
    ensures var mp := MonthOfYear(doy); 0 <= mp < 12 && MonthStart(mp) <= doy && (mp < 11 ==> doy < MonthStart(mp + 1))
  {
  }

  /** The months from March have the lengths of the calendar; February takes the rest. */
  lemma MonthLength(year: int, mp: int)
    requires 0 <= mp < 11
    ensures MonthStart(mp + 1) == MonthStart(mp) + DaysInMonth(year, if mp < 10 then mp + 3 else mp - 9)
    ensures MonthStart(11) == 337
  {
  }

  lemma MonthIsUnique(mp: int, day: int)
    requires 0 <= mp < 12 && 1 <= day && MonthStart(mp) + day <= (if mp < 11 then MonthStart(mp + 1) else 366)
    ensures MonthOfYear(MonthStart(mp) + day - 1) == mp
  {
  }

  // ----- Both computations in terms of the intervals -----

  /** Era, year of era and day of year as one number. */
  ghost function Packed(era: int, yoe: int, doy: int): int {
    era * ERA + (YearStart(yoe) + doy) - EPOCH
  }

  ghost predicate InYear(yoe: int, doy: int) {
    0 <= yoe < 400 && 0 <= doy < YearEnd(yoe) - YearStart(yoe)
  }

  lemma Unpack(days: int) returns (era: int, yoe: int, doy: int)
    ensures InYear(yoe, doy) && days == Packed(era, yoe, doy)
  {
    era := (days + EPOCH) / ERA;
    var doe := days + EPOCH - era * ERA;
    YearOfEraInRange(doe);
    yoe := YearOfEra(doe);
    doy := doe - YearStart(yoe);
  }

  lemma InEra(yoe: int, doy: int)
    requires InYear(yoe, doy)
    ensures 0 <= YearStart(yoe) + doy < ERA
  {
    if yoe < 399 { YearsAreOrdered(yoe, 399); }
  }

  lemma CivilUnpacks(era: int, yoe: int, doy: int)
    requires InYear(yoe, doy)
    ensures CivilFromDays(Packed(era, yoe, doy)) == DateInYear(era, yoe, doy)
  {
    var doe := YearStart(yoe) + doy;
    InEra(yoe, doy);
    EraIsFloor(era, doe);
    YearOfEraIsExact(doe, yoe);
    assert DateInEra(era, doe) == DateInYear(era, yoe, doy);
  }

  lemma DateInMonth(era: int, yoe: int, mp: int, day: int)
    requires 0 <= mp < 12
    ensures var date := DateIn(era, yoe, mp, day);
            && 1 <= date.month <= 12 && FromMarch(date.month) == mp && date.day == day
            && date.year == era * 400 + yoe + (if date.month <= 2 then 1 else 0)
            && (date.month == 2 <==> mp == 11)
  {
  }

  /** Which dates an era, a year and a month from March stand for. */
  lemma DaysPack(era: int, yoe: int, mp: int, day: int)
    requires 0 <= yoe < 400 && 0 <= mp < 12 && 1 <= day <= 31
    ensures DaysFromCivil(DateIn(era, yoe, mp, day)) == Some(Packed(era, yoe, MonthStart(mp) + day - 1))
  {
    DateInMonth(era, yoe, mp, day);
    EraOfYearIsFloor(era, yoe);
  }

  lemma MonthEnds(era: int, yoe: int, mp: int, day: int)
    requires 0 <= yoe < 400 && 0 <= mp < 12
    ensures var date := DateIn(era, yoe, mp, day);
            MonthStart(mp) + DaysInMonth(date.year, date.month)
              == (if mp < 11 then MonthStart(mp + 1) else YearEnd(yoe) - YearStart(yoe))
  {
    if mp < 11 {
      MonthLength(DateIn(era, yoe, mp, day).year, mp);
    } else {
      FebruaryEnds(era, yoe);
    }
  }

  lemma FebruaryEnds(era: int, yoe: int)
    requires 0 <= yoe < 400
    ensures MonthStart(11) + DaysInMonth(era * 400 + yoe + 1, 2) == YearEnd(yoe) - YearStart(yoe)
  {
    YearLength(era, yoe);
    MonthLength(0, 0);
  }

  lemma MonthsWithin(mp: int)
    requires 0 <= mp < 12
    ensures 0 <= MonthStart(mp) <= 337
  {
  }

  lemma DateInYearIsValid(era: int, yoe: int, doy: int)
    requires InYear(yoe, doy)
    ensures ValidDate(DateInYear(era, yoe, doy))
    ensures DaysFromCivil(DateInYear(era, yoe, doy)) == Some(Packed(era, yoe, doy))
  {
    YearLength(era, yoe);
    MonthIsExact(doy);
    var mp := MonthOfYear(doy);
    var day := doy - MonthStart(mp) + 1;
    MonthEnds(era, yoe, mp, day);
    DateInMonth(era, yoe, mp, day);
    DaysPack(era, yoe, mp, day);
  }

  lemma ValidIsInYear(date: Date) returns (era: int, yoe: int, mp: int)
    requires ValidDate(date)
    ensures 0 <= yoe < 400 && 0 <= mp < 12 && date == DateIn(era, yoe, mp, date.day)
    ensures InYear(yoe, MonthStart(mp) + date.day - 1) && DateInYear(era, yoe, MonthStart(mp) + date.day - 1) == date
  {
    var year := if date.month <= 2 then date.year - 1 else date.year;
    era, yoe, mp := year / 400, year % 400, FromMarch(date.month);
    YearLength(era, yoe);
    MonthsWithin(mp);
    MonthEnds(era, yoe, mp, date.day);
    if mp < 11 { MonthsWithin(mp + 1); }
    MonthIsUnique(mp, date.day);
  }

  // ----- The laws -----

  /** Every day has a valid civil date, and the date leads back to the day. */
  lemma DayRoundTrip(days: int)
    ensures ValidDate(CivilFromDays(days)) && DaysFromCivil(CivilFromDays(days)) == Some(days)
  {
    var era, yoe, doy := Unpack(days);
    CivilUnpacks(era, yoe, doy);
    DateInYearIsValid(era, yoe, doy);
  }

  lemma ValidDateReturns(date: Date) returns (days: int)
    requires ValidDate(date)
    ensures DaysFromCivil(date) == Some(days) && CivilFromDays(days) == date
  {
    var era, yoe, mp := ValidIsInYear(date);
    var doy := MonthStart(mp) + date.day - 1;
    DaysPack(era, yoe, mp, date.day);
    CivilUnpacks(era, yoe, doy);
    days := Packed(era, yoe, doy);
  }

  /** A date comes back from its day number exactly when the calendar has it; the check
      before the computation also lets through days like 31 February. */
  lemma DateRoundTrip(date: Date)
    ensures DaysFromCivil(date).Some? <==> 1 <= date.month <= 12 && 1 <= date.day <= 31
    ensures DaysFromCivil(date).Some? ==>
      (CivilFromDays(DaysFromCivil(date).value) == date <==> date.day <= DaysInMonth(date.year, date.month))
  {
    if ValidDate(date) {
      var _ := ValidDateReturns(date);
    } else if DaysFromCivil(date).Some? {
      DayRoundTrip(DaysFromCivil(date).value);
    }
  }

  /** A day past the end of its month counts on into the following month. */
  lemma DaysCountOn(date: Date, k: nat)
    requires 1 <= date.month <= 12 && 1 <= date.day && date.day + k <= 31
    ensures DaysFromCivil(date).Some?
    ensures DaysFromCivil(date.(day := date.day + k)) == Some(DaysFromCivil(date).value + k)
  {
  }

  lemma NextDayCounts(date: Date)
    requires ValidDate(date)
    ensures DaysFromCivil(date).Some? && DaysFromCivil(NextDay(date)) == Some(DaysFromCivil(date).value + 1)
  {
    if date.day < DaysInMonth(date.year, date.month) {
      DaysCountOn(date, 1);
    } else {
      var era, yoe, mp := ValidIsInYear(date);
      MonthEnds(era, yoe, mp, date.day);
      DaysPack(era, yoe, mp, date.day);
      NextMonth(date, era, yoe, mp);
    }
  }

  lemma NextMonth(date: Date, era: int, yoe: int, mp: int)
    requires ValidDate(date) && date.day == DaysInMonth(date.year, date.month)
    requires 0 <= yoe < 400 && 0 <= mp < 12 && date == DateIn(era, yoe, mp, date.day)
    ensures var doy := if mp < 11 then MonthStart(mp + 1) else YearEnd(yoe) - YearStart(yoe);
            DaysFromCivil(NextDay(date)) == Some(Packed(era, yoe, doy))
  {
    if mp < 11 {
      assert NextDay(date) == DateIn(era, yoe, mp + 1, 1);
      DaysPack(era, yoe, mp + 1, 1);
    } else if yoe < 399 {
      assert NextDay(date) == DateIn(era, yoe + 1, 0, 1);
      DaysPack(era, yoe + 1, 0, 1);
    } else {
      assert NextDay(date) == DateIn(era + 1, 0, 0, 1);
      DaysPack(era + 1, 0, 0, 1);
    }
  }

  lemma EpochDay()
    ensures CivilFromDays(0) == Date(1970, 1, 1)
  {
  }

  /** Day 0 is 1970-01-01 and each further day is the next one of the calendar: this
      fixes the date of every day, before and after the epoch. */
  lemma DaysFollowCalendar(days: int)
    ensures CivilFromDays(0) == Date(1970, 1, 1)
    ensures ValidDate(CivilFromDays(days)) && CivilFromDays(days + 1) == NextDay(CivilFromDays(days))
  {
    EpochDay();
    DayRoundTrip(days);
    NextDayCounts(CivilFromDays(days));
    DateRoundTrip(NextDay(CivilFromDays(days)));
  }
}
