/** Dates in certificates: a civil date from a Unix time by one algorithm, and
    the Unix time of a written date by its inverse, across the UTCTime and
    GeneralizedTime split of section 4.1.2.5 of RFC 5280. */
module DerTime {
  import opened Basics
  import opened Der

  const TAG_UTC_TIME := 0x17
  const TAG_GENERALIZED_TIME := 0x18
  const ZULU := 0x5A
  const ZERO := 0x30

  /** The first second of the year 10000. */
  const YEAR_10000 := 253_402_300_800

  datatype Civil = Civil(year: nat, month: nat, day: nat, hour: nat, minute: nat, second: nat)

  // ── From a Unix time ───────────────────────────────────────────────────

  /** Days since 1 March of year 0. */
  const EPOCH_DAYS := 719_468
  const ERA := 146_097

  function YearOfEra(doe: nat): int { (doe - doe / 1460 + doe / 36_524 - doe / 146_096) / 365 }

  /** Days of an era before one of its years. */
  function YearStart(yoe: int): int { 365 * yoe + yoe / 4 - yoe / 100 }

  /** Every day of an era lies in the year it is counted to. */
  lemma YearHolds(doe: nat)
    requires doe < ERA
    ensures 0 <= YearOfEra(doe) < 400
    ensures 0 <= doe - YearStart(YearOfEra(doe)) <= 365
  {
    YearNotTooLate(doe);
    YearNotTooEarly(doe);
  }

  lemma YearNotTooLate(doe: nat)
    requires doe < ERA
    ensures 0 <= YearOfEra(doe) < 400 && YearStart(YearOfEra(doe)) <= doe
  {
    LeapYearsCounted(doe, YearOfEra(doe));
    CenturiesCounted(doe, YearOfEra(doe));
  }

  lemma LeapYearsCounted(doe: nat, yoe: int)
    requires doe < ERA && yoe == YearOfEra(doe)
    ensures 0 <= yoe && yoe / 4 <= doe / 1460
  {
    assert doe / 36_524 <= doe / 1460;
    assert 365 * yoe <= doe;
  }

  lemma CenturiesCounted(doe: nat, yoe: int)
    requires doe < ERA && yoe == YearOfEra(doe)
    ensures doe / 36_524 - doe / 146_096 <= yoe / 100 && yoe < 400
  {
    var b := doe / 36_524;
    assert 0 <= b <= 4;
    assert doe == ERA - 1 <==> doe / 146_096 == 1;
    assert doe - doe / 1460 >= 36_499 * b;
  }

  lemma YearNotTooEarly(doe: nat)
    requires doe < ERA
    ensures doe <= YearStart(YearOfEra(doe)) + 365
  {
  }

  function DayOfYear(doe: nat): (d: nat)
    requires doe < ERA
    ensures d <= 365
  {
    YearHolds(doe);
    doe - YearStart(YearOfEra(doe))
  }

  function MonthOf(doy: nat): nat { (5 * doy + 2) / 153 }
  function MonthStart(mp: nat): nat { (153 * mp + 2) / 5 }

  /** Every day of a year lies in the month it is counted to. */
  lemma MonthHolds(doy: nat)
    requires doy <= 365
    ensures MonthOf(doy) < 12
    ensures MonthStart(MonthOf(doy)) <= doy <= MonthStart(MonthOf(doy)) + 30
  {
  }

  /** `civil_from_unix`. */
  function CivilFromUnix(t: U64): Civil {
    var z := t / 86_400 + EPOCH_DAYS;
    var secs := t % 86_400;
    var era := z / ERA;
    var doe := z % ERA;
    YearHolds(doe);
    var y := YearOfEra(doe) + 400 * era;
    var doy := DayOfYear(doe);
    MonthHolds(doy);
    var mp := MonthOf(doy);
    var d := doy - MonthStart(mp) + 1;
    var m := if mp < 10 then mp + 3 else mp - 9;
    Civil(if m <= 2 then y + 1 else y, m, d, secs / 3600, secs / 60 % 60, secs % 60)
  }

  // ── Back to it ─────────────────────────────────────────────────────────

  /** The inverse `der_time` computes. A date before 1970 has none. */
  function UnixFromCivil(c: Civil): Option<nat> {
    if c.year == 0 && c.month <= 2 then None
    else
      var y := if c.month <= 2 then c.year - 1 else c.year;
      var era := y / 400;
      var yoe := y - era * 400;
      var mp := (c.month + 9) % 12;
      var doy := MonthStart(mp) + c.day - 1;
      var doe := YearStart(yoe) + doy;
      var days := era * ERA + doe - EPOCH_DAYS;
      if days < 0 then None else
      var s: int := days * 86_400 + c.hour * 3600 + c.minute * 60 + c.second;
      if s < 0 then None else Some(s)
  }

  predicate IsCivil(c: Civil) {
    1 <= c.month <= 12 && 1 <= c.day <= 31 && c.hour <= 23 && c.minute <= 59 && c.second <= 59
  }

  lemma CivilIsInRange(t: U64)
    ensures IsCivil(CivilFromUnix(t))
  {
    var doe := (t / 86_400 + EPOCH_DAYS) % ERA;
    YearHolds(doe);
    MonthHolds(DayOfYear(doe));
  }

  /** Whatever the second, its civil date leads back to it. */
  lemma CivilThereAndBack(t: U64)
    ensures UnixFromCivil(CivilFromUnix(t)) == Some(t)
  {
    hide YearOfEra, YearStart, DayOfYear, MonthOf, MonthStart, CivilFromUnix;
    var z := t / 86_400 + EPOCH_DAYS;
    var era, doe := z / ERA, z % ERA;
    YearHolds(doe);
    CountedFromMarch(t, era, doe);
    OfEra(YearOfEra(doe), era);
    assert z == era * ERA + doe;
    SecondsOfDay(t);
  }

  /** A civil date and its place in the year that begins in March. */
  lemma CountedFromMarch(t: U64, era: nat, doe: nat)
    requires era == (t / 86_400 + EPOCH_DAYS) / ERA && doe == (t / 86_400 + EPOCH_DAYS) % ERA
    ensures var c := CivilFromUnix(t);
            && c.month >= 1 && c.day >= 1
            && (if c.month <= 2 then c.year - 1 else c.year) == YearOfEra(doe) + 400 * era
            && YearStart(YearOfEra(doe)) + (MonthStart((c.month + 9) % 12) + c.day - 1) == doe
            && c.hour == t % 86_400 / 3600 && c.minute == t % 86_400 / 60 % 60 && c.second == t % 86_400 % 60
  {
    hide YearOfEra, YearStart, MonthOf, MonthStart;
    YearHolds(doe);
    MonthHolds(DayOfYear(doe));
  }

  lemma OfEra(yoe: nat, era: nat)
    requires yoe < 400
    ensures (yoe + 400 * era) / 400 == era
  {
  }

  lemma SecondsOfDay(t: nat)
    ensures var s := t % 86_400; t / 86_400 * 86_400 + s / 3600 * 3600 + s / 60 % 60 * 60 + s % 60 == t
  {
    var s := t % 86_400;
    assert s / 60 / 60 == s / 3600;
  }

  /** Years keep their place: 1970 to 9999 for the seconds before 10000. */
  lemma YearBounds(t: U64)
    ensures 1970 <= CivilFromUnix(t).year
    ensures t < YEAR_10000 <==> CivilFromUnix(t).year <= 9999
  {
    CivilIsInRange(t);
    CivilThereAndBack(t);
    YearByDays(CivilFromUnix(t), t);
  }

  /** The year a second falls in, from how many days lie before it. */
  lemma YearByDays(c: Civil, t: nat)
    requires IsCivil(c) && UnixFromCivil(c) == Some(t)
    ensures 1970 <= c.year
    ensures t < YEAR_10000 <==> c.year <= 9999
  {
    var y := if c.month <= 2 then c.year - 1 else c.year;
    var doy := MonthStart((c.month + 9) % 12) + c.day - 1;
    DaysOfDate(c, t, y, doy);
    MonthPlace(c.month, c.day);
    if c.month <= 2 { LateInYear(y, doy, t / 86_400); } else { EarlyInYear(y, doy, t / 86_400); }
    DaysOfSeconds(t);
  }

  lemma MonthPlace(month: nat, day: nat)
    requires 1 <= month <= 12 && 1 <= day <= 31
    ensures var doy := MonthStart((month + 9) % 12) + day - 1;
            if month <= 2 then 306 <= doy <= 367 else 0 <= doy <= 305
  {
  }

  lemma DaysOfSeconds(t: nat)
    ensures t < YEAR_10000 <==> t / 86_400 < YEAR_10000 / 86_400
  {
  }

  lemma DaysOfDate(c: Civil, t: nat, y: nat, doy: nat)
    requires IsCivil(c) && UnixFromCivil(c) == Some(t)
    requires y == (if c.month <= 2 then c.year - 1 else c.year) && doy == MonthStart((c.month + 9) % 12) + c.day - 1
    ensures t / 86_400 == DaysBefore(y) + doy - EPOCH_DAYS
  {
    assert y - y / 400 * 400 == y % 400;
  }

  /** January and February, counted with the year before. */
  lemma LateInYear(y: nat, doy: nat, days: nat)
    requires 306 <= doy <= 367 && days == DaysBefore(y) + doy - EPOCH_DAYS
    ensures 1969 <= y && (days < YEAR_10000 / 86_400 <==> y <= 9998)
  {
    if y < 1969 { YearsGrow(y, 1968); }
    if y <= 9998 { YearsGrow(y, 9998); } else { YearsGrow(9999, y); }
  }

  lemma EarlyInYear(y: nat, doy: nat, days: nat)
    requires doy <= 305 && days == DaysBefore(y) + doy - EPOCH_DAYS
    ensures 1970 <= y && (days < YEAR_10000 / 86_400 <==> y <= 9999)
  {
    if y < 1970 { YearsGrow(y, 1969); }
    if y <= 9999 { YearsGrow(y, 9999); } else { YearsGrow(10000, y); }
  }

  /** Days before 1 March of a year. */
  function DaysBefore(y: nat): int { y / 400 * ERA + YearStart(y % 400) }

  lemma YearDays(y: nat)
    ensures 365 <= DaysBefore(y + 1) - DaysBefore(y) <= 366
  {
    var r := y % 400;
    if r == 399 {
      assert (y + 1) / 400 == y / 400 + 1 && (y + 1) % 400 == 0;
    } else {
      assert (y + 1) / 400 == y / 400 && (y + 1) % 400 == r + 1;
      YearStartStep(r);
    }
  }

  lemma YearStartStep(r: nat)
    ensures 365 <= YearStart(r + 1) - YearStart(r) <= 366
  {
    assert (r + 1) / 100 > r / 100 ==> (r + 1) % 100 == 0 && (r + 1) % 4 == 0;
  }

  lemma {:induction false} YearsGrow(y: nat, z: nat)
    requires y <= z
    ensures DaysBefore(y) + 365 * (z - y) <= DaysBefore(z)
    decreases z - y
  {
    if y < z {
      YearDays(y);
      YearsGrow(y + 1, z);
    }
  }

  // ── The calendar ───────────────────────────────────────────────────────

  predicate IsLeap(y: nat) { y % 4 == 0 && (y % 100 != 0 || y % 400 == 0) }

  function DaysInMonth(y: nat, m: nat): nat
    requires 1 <= m <= 12
  {
    if m == 2 then (if IsLeap(y) then 29 else 28)
    else if m == 4 || m == 6 || m == 9 || m == 11 then 30
    else 31
  }

  /** A date of the Gregorian calendar. */
  predicate IsDate(c: Civil) {
    IsCivil(c) && c.day <= DaysInMonth(c.year, c.month)
  }

  /** Where a year of an era ends: the last has its leap day. */
  function YearEnd(yoe: nat): int { if yoe == 399 then ERA else YearStart(yoe + 1) }

  lemma YearLength(yoe: nat)
    requires yoe < 400
    ensures YearEnd(yoe) - YearStart(yoe) == if IsLeap(yoe + 1) then 366 else 365
  {
    if yoe < 399 { YearStartStep(yoe); }
  }

  /** A day is counted to the year it lies in. */
  lemma YearIsExact(doe: nat)
    requires doe < ERA
    ensures doe < YearEnd(YearOfEra(doe))
  {
    var yoe := YearOfEra(doe);
    YearHolds(doe);
    if yoe < 399 {
      CenturiesAhead(doe, yoe);
    }
  }

  lemma CenturiesAhead(doe: nat, yoe: nat)
    requires doe < ERA && yoe == YearOfEra(doe) && yoe < 399
    ensures doe < YearStart(yoe + 1)
  {
    var n := doe - doe / 1460 + doe / 36_524 - doe / 146_096;
    assert n < 365 * (yoe + 1);
    assert doe < ERA - 1;
    var b := doe / 36_524;
    assert 0 <= b <= 3;
    var r := doe - 36_524 * b;
    assert 0 <= r < 36_524;
    var a := doe / 1460;
    var k := r / 1461;
    InCentury(r, b, a, k, yoe);
  }

  lemma InCentury(r: nat, b: nat, a: nat, k: nat, yoe: nat)
    requires b <= 3 && r < 36_524 && k == r / 1461 && a == (36_524 * b + r) / 1460
    requires 36_524 * b + r - a + b < 365 * (yoe + 1)
    ensures 36_524 * b + r < YearStart(yoe + 1)
  {
  }

  lemma MonthIsExact(doy: nat)
    requires doy <= 365
    ensures MonthOf(doy) < 11 ==> doy < MonthStart(MonthOf(doy) + 1)
  {
  }

  /** Length of the months counted from March, but the last. */
  lemma MonthLength(mp: nat)
    requires mp < 11
    ensures MonthStart(mp + 1) - MonthStart(mp) == DaysInMonth(0, if mp < 10 then mp + 3 else mp - 9)
  {
  }

  lemma LeapRepeats(yoe: nat, era: nat)
    ensures IsLeap(yoe + 400 * era) == IsLeap(yoe)
  {
    var y := yoe + 400 * era;
    assert y == yoe + 4 * (100 * era) && y % 4 == yoe % 4;
    assert y == yoe + 100 * (4 * era) && y % 100 == yoe % 100;
    assert y % 400 == yoe % 400;
  }

  /** The civil date of a second is one the calendar has. */
  lemma CivilIsDate(t: U64)
    ensures IsDate(CivilFromUnix(t))
  {
    var z := t / 86_400 + EPOCH_DAYS;
    var era, doe := z / ERA, z % ERA;
    YearHolds(doe);
    YearIsExact(doe);
    var yoe, doy := YearOfEra(doe), DayOfYear(doe);
    MonthHolds(doy);
    MonthIsExact(doy);
    CivilIsInRange(t);
    YearLength(yoe);
    LeapRepeats(yoe + 1, era);
    if MonthOf(doy) < 11 { MonthLength(MonthOf(doy)); }
  }

  /** The day after. */
  function Tomorrow(c: Civil): Civil
    requires IsDate(c)
  {
    if c.day < DaysInMonth(c.year, c.month) then c.(day := c.day + 1)
    else if c.month < 12 then c.(day := 1, month := c.month + 1)
    else c.(day := 1, month := 1, year := c.year + 1)
  }

  /** Days from 1 March of year 0 to a date. */
  function DayNumber(c: Civil): int
    requires c.month <= 2 ==> c.year >= 1
  {
    DaysBefore(if c.month <= 2 then c.year - 1 else c.year) + MonthStart((c.month + 9) % 12) + c.day - 1
  }

  lemma YearGap(y: nat)
    ensures DaysBefore(y + 1) - DaysBefore(y) == if IsLeap(y + 1) then 366 else 365
  {
    YearLength(y % 400);
    LeapRepeats(y % 400 + 1, y / 400);
    if y % 400 == 399 {
      assert (y + 1) / 400 == y / 400 + 1 && (y + 1) % 400 == 0;
    } else {
      assert (y + 1) / 400 == y / 400 && (y + 1) % 400 == y % 400 + 1;
    }
  }

  /** Day numbers go up by one from day to day. */
  lemma TomorrowIsNext(c: Civil)
    requires IsDate(c) && c.year >= 1
    ensures DayNumber(Tomorrow(c)) == DayNumber(c) + 1
  {
    if c.day == DaysInMonth(c.year, c.month) {
      if c.month == 2 {
        FebruaryEnds(c);
      } else {
        MonthEnds(c);
      }
    }
  }

  lemma FebruaryEnds(c: Civil)
    requires IsDate(c) && c.year >= 1 && c.month == 2 && c.day == DaysInMonth(c.year, 2)
    ensures DayNumber(c.(day := 1, month := 3)) == DayNumber(c) + 1
  {
    YearGap(c.year - 1);
  }

  lemma MonthEnds(c: Civil)
    requires IsDate(c) && c.year >= 1 && c.month != 2 && c.day == DaysInMonth(c.year, c.month)
    ensures DayNumber(Tomorrow(c)) == DayNumber(c) + 1
  {
    hide DaysBefore, MonthStart;
    var mp := (c.month + 9) % 12;
    MonthLength(mp);
    assert c.month == if mp < 10 then mp + 3 else mp - 9;
    assert (Tomorrow(c).month + 9) % 12 == mp + 1;
  }

  /** The year counted from March that a date lies in. */
  function MarchYear(c: Civil): nat
    requires c.year >= 1
  {
    if c.month <= 2 then c.year - 1 else c.year
  }

  function DayInYear(c: Civil): int { MonthStart((c.month + 9) % 12) + c.day - 1 }

  lemma SameMarchYear(c: Civil, d: Civil)
    requires IsDate(c) && IsDate(d) && c.year >= 1 && d.year >= 1 && DayNumber(c) == DayNumber(d)
    ensures MarchYear(c) == MarchYear(d) && DayInYear(c) == DayInYear(d)
  {
    InYear(c);
    InYear(d);
    YearsApart(MarchYear(c), MarchYear(d));
    YearsApart(MarchYear(d), MarchYear(c));
    assert DayNumber(c) == DaysBefore(MarchYear(c)) + DayInYear(c);
    assert DayNumber(d) == DaysBefore(MarchYear(d)) + DayInYear(d);
  }

  /** Different days have different numbers. */
  lemma DayNumberIsUnique(c: Civil, d: Civil)
    requires IsDate(c) && IsDate(d) && c.year >= 1 && d.year >= 1 && DayNumber(c) == DayNumber(d)
    ensures c.year == d.year && c.month == d.month && c.day == d.day
  {
    SameMarchYear(c, d);
    InYear(c);
    InYear(d);
    SameMonth(c, d);
  }

  lemma SameMonth(c: Civil, d: Civil)
    requires 1 <= c.month <= 12 && 1 <= d.month <= 12 && 1 <= c.day && 1 <= d.day && c.year >= 1 && d.year >= 1
    requires MarchYear(c) == MarchYear(d) && DayInYear(c) == DayInYear(d)
    requires var mp := (c.month + 9) % 12; mp < 11 ==> c.day <= MonthStart(mp + 1) - MonthStart(mp)
    requires var mp := (d.month + 9) % 12; mp < 11 ==> d.day <= MonthStart(mp + 1) - MonthStart(mp)
    ensures c.year == d.year && c.month == d.month && c.day == d.day
  {
    DayInYearIsUnique((c.month + 9) % 12, c.day, (d.month + 9) % 12, d.day);
  }

  lemma DayInYearIsUnique(mc: nat, dc: nat, md: nat, dd: nat)
    requires mc < 12 && md < 12 && 1 <= dc && 1 <= dd
    requires mc < 11 ==> dc <= MonthStart(mc + 1) - MonthStart(mc)
    requires md < 11 ==> dd <= MonthStart(md + 1) - MonthStart(md)
    ensures MonthStart(mc) + dc == MonthStart(md) + dd ==> mc == md && dc == dd
  {
  }

  lemma InYear(c: Civil)
    requires IsDate(c) && c.year >= 1
    ensures DaysBefore(MarchYear(c)) <= DayNumber(c) < DaysBefore(MarchYear(c) + 1)
    ensures var mp := (c.month + 9) % 12; mp < 11 ==> c.day <= MonthStart(mp + 1) - MonthStart(mp)
  {
    YearGap(MarchYear(c));
    var mp := (c.month + 9) % 12;
    if mp < 11 { MonthLength(mp); }
  }

  lemma YearsApart(y: nat, x: nat)
    ensures y < x ==> DaysBefore(y + 1) <= DaysBefore(x)
  {
    if y < x { YearsGrow(y + 1, x); }
  }

  /** The civil date moves to the calendar's next day every 86400 seconds. */
  lemma CivilFollowsCalendar(t: U64)
    requires t + 86_400 <= U64_MAX
    ensures IsDate(CivilFromUnix(t)) && CivilFromUnix(t + 86_400) == Tomorrow(CivilFromUnix(t))
  {
    DatedAndNumbered(t);
    DatedAndNumbered(t + 86_400);
    assert (t + 86_400) / 86_400 == t / 86_400 + 1;
    SameClock(t);
    NextDate(CivilFromUnix(t), CivilFromUnix(t + 86_400));
  }

  lemma StartsIn1970()
    ensures CivilFromUnix(0) == Civil(1970, 1, 1, 0, 0, 0)
  {
    FirstDay();
    hide YearOfEra, DayOfYear, MonthOf, MonthStart;
    assert EPOCH_DAYS / ERA == 4 && EPOCH_DAYS % ERA == 135_080;
  }

  /** 1 January 1970, counted from March: day 306 of year 369 of its era. */
  lemma FirstDay()
    ensures YearOfEra(135_080) == 369 && DayOfYear(135_080) == 306
    ensures MonthOf(306) == 10 && MonthStart(10) == 306
  {
    assert 135_080 / 1460 == 92 && 135_080 / 36_524 == 3 && 135_080 / 146_096 == 0;
  }

  lemma DatedAndNumbered(t: U64)
    ensures var c := CivilFromUnix(t); IsDate(c) && c.year >= 1 && DayNumber(c) == t / 86_400 + EPOCH_DAYS
  {
    CivilIsDate(t);
    YearBounds(t);
    DayNumberOf(t);
  }

  lemma SameClock(t: U64)
    requires t + 86_400 <= U64_MAX
    ensures var c, d := CivilFromUnix(t), CivilFromUnix(t + 86_400);
            c.hour == d.hour && c.minute == d.minute && c.second == d.second
  {
    assert (t + 86_400) % 86_400 == t % 86_400;
  }

  lemma NextDate(c: Civil, d: Civil)
    requires IsDate(c) && IsDate(d) && c.year >= 1 && d.year >= 1 && DayNumber(d) == DayNumber(c) + 1
    requires c.hour == d.hour && c.minute == d.minute && c.second == d.second
    ensures d == Tomorrow(c)
  {
    TomorrowIsNext(c);
    DayNumberIsUnique(Tomorrow(c), d);
  }

  lemma DayInYearIsNat(month: nat, day: nat)
    requires 1 <= month <= 12 && 1 <= day
    ensures MonthStart((month + 9) % 12) + day - 1 >= 0
  {
  }

  lemma DayNumberOf(t: U64)
    requires CivilFromUnix(t).year >= 1970
    ensures DayNumber(CivilFromUnix(t)) == t / 86_400 + EPOCH_DAYS
  {
    hide CivilFromUnix, UnixFromCivil, DaysBefore, MonthStart;
    var c := CivilFromUnix(t);
    CivilIsInRange(t);
    CivilThereAndBack(t);
    var y := if c.month <= 2 then c.year - 1 else c.year;
    DayInYearIsNat(c.month, c.day);
    DaysOfDate(c, t, y, MonthStart((c.month + 9) % 12) + c.day - 1);
  }

  // ── As text ────────────────────────────────────────────────────────────

  function Two(n: nat): Bytes { [ZERO + n / 10 % 10, ZERO + n % 10] }

  /** The digits of a date after its year. */
  function AfterYear(c: Civil): Bytes {
    Two(c.month) + Two(c.day) + Two(c.hour) + Two(c.minute) + Two(c.second) + [ZULU]
  }

  /** `Writer::time`: UTCTime before 2050, GeneralizedTime from then on. */
  function TimeTree(t: U64): Tree {
    var c := CivilFromUnix(t);
    if c.year < 2050 then Primitive(TAG_UTC_TIME, Two(c.year % 100) + AfterYear(c))
    else Primitive(TAG_GENERALIZED_TIME, Two(c.year / 100) + Two(c.year % 100) + AfterYear(c))
  }

  predicate IsNumber(b: Bytes) { forall i :: 0 <= i < |b| ==> ZERO <= b[i] <= ZERO + 9 }

  function Number(b: Bytes): nat
    requires IsNumber(b)
  {
    if b == [] then 0 else 10 * Number(b[..|b| - 1]) + (b[|b| - 1] - ZERO)
  }

  /** What `der_time` reads after the year. */
  function ReadAfterYear(year: nat, rest: Bytes): Option<nat>
    requires |rest| == 11
  {
    if rest[10] != ZULU || !IsNumber(rest[..10]) then None
    else
      var c := Civil(year, Number(rest[0..2]), Number(rest[2..4]), Number(rest[4..6]), Number(rest[6..8]), Number(rest[8..10]));
      if !(1 <= c.month <= 12) || !(1 <= c.day <= 31) || c.hour > 23 || c.minute > 59 || c.second > 60 then None
      else UnixFromCivil(c)
  }

  /** `der_time`. */
  function ReadTime(tag: Byte, d: Bytes): Option<nat> {
    if tag == TAG_UTC_TIME && |d| == 13 && IsNumber(d[0..2]) then
      var y := Number(d[0..2]);
      ReadAfterYear(if y >= 50 then 1900 + y else 2000 + y, d[2..])
    else if tag == TAG_GENERALIZED_TIME && |d| == 15 && IsNumber(d[0..4]) then ReadAfterYear(Number(d[0..4]), d[4..])
    else None
  }

  lemma TwoReads(n: nat)
    requires n < 100
    ensures IsNumber(Two(n)) && Number(Two(n)) == n
  {
    var b := Two(n);
    assert b[..1] == [ZERO + n / 10 % 10] && b[..1][..0] == [];
    assert Number(b[..1]) == n / 10;
  }

  lemma FourRead(n: nat)
    requires n < 10_000
    ensures IsNumber(Two(n / 100) + Two(n % 100)) && Number(Two(n / 100) + Two(n % 100)) == n
  {
    TwoReads(n / 100);
    TwoReads(n % 100);
    var b := Two(n / 100) + Two(n % 100);
    assert b[..3][..2] == Two(n / 100) && b[..3] == Two(n / 100) + [ZERO + n % 100 / 10 % 10];
    assert Number(b[..3]) == 10 * (n / 100) + n % 100 / 10;
  }

  lemma AfterYearReads(year: nat, c: Civil)
    requires IsCivil(c) && year == c.year
    ensures |AfterYear(c)| == 11 && ReadAfterYear(year, AfterYear(c)) == UnixFromCivil(c)
  {
    var rest := AfterYear(c);
    TwoReads(c.month);
    TwoReads(c.day);
    TwoReads(c.hour);
    TwoReads(c.minute);
    TwoReads(c.second);
    assert rest[0..2] == Two(c.month) && rest[2..4] == Two(c.day) && rest[4..6] == Two(c.hour);
    assert rest[6..8] == Two(c.minute) && rest[8..10] == Two(c.second);
    assert rest[..10] == Two(c.month) + Two(c.day) + Two(c.hour) + Two(c.minute) + Two(c.second);
  }

  lemma UtcReads(c: Civil)
    requires IsCivil(c) && 1970 <= c.year < 2050
    ensures ReadTime(TAG_UTC_TIME, Two(c.year % 100) + AfterYear(c)) == UnixFromCivil(c)
  {
    var d := Two(c.year % 100) + AfterYear(c);
    AfterYearReads(c.year, c);
    TwoReads(c.year % 100);
    assert d[0..2] == Two(c.year % 100) && d[2..] == AfterYear(c);
    Century(c.year);
  }

  lemma Century(y: nat)
    requires 1970 <= y < 2050
    ensures y == if y % 100 >= 50 then 1900 + y % 100 else 2000 + y % 100
  {
  }

  lemma GeneralizedReads(c: Civil)
    requires IsCivil(c) && c.year < 10_000
    ensures ReadTime(TAG_GENERALIZED_TIME, Two(c.year / 100) + Two(c.year % 100) + AfterYear(c)) == UnixFromCivil(c)
  {
    var d := Two(c.year / 100) + Two(c.year % 100) + AfterYear(c);
    AfterYearReads(c.year, c);
    FourRead(c.year);
    assert d[0..4] == Two(c.year / 100) + Two(c.year % 100) && d[4..] == AfterYear(c);
  }

  /** Every second from 1970 to the end of 9999 is read back as itself from
      the time the writer writes, whichever of the two forms that is. */
  lemma TimeReadsBack(t: U64)
    requires t < YEAR_10000
    ensures var tree := TimeTree(t); tree.Primitive? && ReadTime(tree.tag, tree.contents) == Some(t)
  {
    var c := CivilFromUnix(t);
    CivilIsInRange(t);
    CivilThereAndBack(t);
    YearBounds(t);
    if c.year < 2050 { UtcReads(c); } else { GeneralizedReads(c); }
  }

  /** And through the reader of elements, wherever it stands. */
  lemma TimeElementReads(t: U64, rest: Bytes)
    requires t < YEAR_10000
    ensures var r := ReadTlv(Encode(TimeTree(t)) + rest);
            r.Some? && r.value.1 == rest && ReadTime(r.value.0.tag, r.value.0.body) == Some(t)
  {
    TimeReadsBack(t);
    ElementReads(TimeTree(t), rest);
  }
}
