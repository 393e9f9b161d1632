/** `epoch_days_to_ymd` against an independent reference: the Gregorian calendar
    walked one day at a time from 1970-01-01. The leap rule is that of Appendix C of
    RFC 3339, the month lengths those of section 5.7. */
module CivilCalendar {

  datatype Date = Date(year: nat, month: nat, day: nat)

  // ---------------------------------------------------------------------------
  // The reference calendar
  // ---------------------------------------------------------------------------

  predicate IsLeap(year: nat) {
    year % 4 == 0 && (year % 100 != 0 || year % 400 == 0)
  }

  function MonthLength(year: nat, month: nat): nat {
    if month == 2 then (if IsLeap(year) then 29 else 28)
    else if month == 4 || month == 6 || month == 9 || month == 11 then 30
    else 31
  }

  predicate IsDate(d: Date) {
    1 <= d.month <= 12 && 1 <= d.day <= MonthLength(d.year, d.month)
  }

  function NextDay(d: Date): Date {
    if d.day < MonthLength(d.year, d.month) then Date(d.year, d.month, d.day + 1)
    else if d.month < 12 then Date(d.year, d.month + 1, 1)
    else Date(d.year + 1, 1, 1)
  }

  function DateAfter(days: nat): Date {
    if days == 0 then Date(1970, 1, 1) else NextDay(DateAfter(days - 1))
  }

  // ---------------------------------------------------------------------------
  // The code: nested divisions over 400-year eras that begin on 1 March
  // ---------------------------------------------------------------------------

  const ERA: nat := 146_097

  function YearOfEra(dayOfEra: nat): int {
    (dayOfEra - dayOfEra / 1460 + dayOfEra / 36_524 - dayOfEra / 146_096) / 365
  }

  function EpochDaysToYmd(days: nat): (int, int, int) {
    var shifted := days + 719_468;
    var era := shifted / ERA;
    var doe := shifted % ERA;
    var yoe := YearOfEra(doe);
    var y := yoe + era * 400;
    var doy := doe - (365 * yoe + yoe / 4 - yoe / 100);
    FromMarch(y, doy)
  }

  // The tail of the chain: month and day from the day of the March year.
  function FromMarch(y: int, doy: int): (int, int, int) {
    var mp := (5 * doy + 2) / 153;
    var d := doy - (153 * mp + 2) / 5 + 1;
    var m := if mp < 10 then mp + 3 else mp - 9;
    (if m <= 2 then y + 1 else y, m, d)
  }

  // ---------------------------------------------------------------------------
  // Days counted back from a date (years that begin in March)
  // ---------------------------------------------------------------------------

  function MarchYear(d: Date): int {
    if d.month <= 2 then d.year - 1 else d.year
  }

  function MarchMonth(month: int): int {
    if month <= 2 then month + 9 else month - 3
  }

  // Days from 1 March to the first of the given March-based month.
  function MonthStart(mp: int): int {
    (153 * mp + 2) / 5
  }

  // Days from the start of the era's first year to 1 March of a later one.
  function YearStart(yoe: int): int {
    365 * yoe + yoe / 4 - yoe / 100
  }

  // Days from 0000-03-01 to the first day of a March year.
  function MarchDays(y: int): int {
    (y / 400) * ERA + YearStart(y % 400)
  }

  /** Days from 1970-01-01; the inverse of `EpochDaysToYmd`. */
  function DaysFromCivil(d: Date): int {
    MarchDays(MarchYear(d)) + MonthStart(MarchMonth(d.month)) + d.day - 1 - 719_468
  }

  // ---------------------------------------------------------------------------
  // The year of the era
  // ---------------------------------------------------------------------------

  // The last March year of a 4-, 100- or 400-year cycle holds 29 February.
  function YearLength(yoe: int): int {
    if (yoe + 1) % 4 == 0 && ((yoe + 1) % 100 != 0 || yoe + 1 == 400) then 366 else 365
  }

  /** Given where a day really falls - century c, four-year cycle q, year z and day r -
      the chain of divisions finds that year. */
  lemma YearFormula(doe: nat, c: nat, q: nat, z: nat, r: nat)
    requires c <= 3 && q <= 24 && z <= 3
    requires doe == 36_524 * c + 1461 * q + 365 * z + r
    requires r <= 364 || (r == 365 && z == 3 && (q < 24 || c == 3))
    ensures YearOfEra(doe) == 100 * c + 4 * q + z
  {
    var extra := 24 * c + q + 365 * z + r;
    assert doe == 1460 * (25 * c + q) + extra;
    assert extra < 2 * 1460;
    assert doe / 1460 == 25 * c + q + (if extra >= 1460 then 1 else 0);
    assert doe / 36_524 == c + (if doe == 146_096 then 1 else 0);
    assert doe / 146_096 == if doe == 146_096 then 1 else 0;
  }

  /** Every day of an era has a year, and the code finds it. */
  lemma YearOfEraIsRight(doe: nat)
    requires doe < ERA
    ensures var yoe := YearOfEra(doe);
      && 0 <= yoe <= 399
      && YearStart(yoe) <= doe < YearStart(yoe) + YearLength(yoe)
  {
    var c := if doe / 36_524 == 4 then 3 else doe / 36_524;
    var inCentury := doe - 36_524 * c;
    var q := inCentury / 1461;
    var inCycle := inCentury - 1461 * q;
    var z := if inCycle / 365 == 4 then 3 else inCycle / 365;
    var r := inCycle - 365 * z;
    YearFormula(doe, c, q, z, r);
    var yoe := 100 * c + 4 * q + z;
    assert yoe / 4 == 25 * c + q && yoe / 100 == c;
    assert (yoe + 1) % 4 == (z + 1) % 4;
  }

  lemma YearStartsFollow(yoe: int)
    requires 0 <= yoe <= 398
    ensures YearStart(yoe + 1) == YearStart(yoe) + YearLength(yoe)
  {
  }

  lemma {:induction false} YearStartsIncrease(a: int, b: int)
    requires 0 <= a < b <= 399
    ensures YearStart(a) + YearLength(a) <= YearStart(b)
    decreases b
  {
    YearStartsFollow(b - 1);
    if a < b - 1 {
      YearStartsIncrease(a, b - 1);
    }
  }

  /** The year found is the only one the day can be in. */
  lemma YearIsUnique(doe: nat, yoe: int)
    requires doe < ERA && 0 <= yoe <= 399
    requires YearStart(yoe) <= doe < YearStart(yoe) + YearLength(yoe)
    ensures YearOfEra(doe) == yoe
  {
    var found := YearOfEra(doe);
    YearOfEraIsRight(doe);
    if found < yoe {
      YearStartsIncrease(found, yoe);
    } else if yoe < found {
      YearStartsIncrease(yoe, found);
    }
  }

  // ---------------------------------------------------------------------------
  // The month of the year
  // ---------------------------------------------------------------------------

  // Lengths of the March-based months; the last one only in the long form.
  function MarchMonthLength(mp: int): int {
    if mp == 1 || mp == 3 || mp == 6 || mp == 8 then 30
    else if mp == 11 then 29
    else 31
  }

  lemma MonthIsUnique(doy: int, mp: int)
    requires 0 <= mp <= 11
    requires MonthStart(mp) <= doy < MonthStart(mp) + MarchMonthLength(mp)
    ensures (5 * doy + 2) / 153 == mp
  {
  }

  // ---------------------------------------------------------------------------
  // The whole date
  // ---------------------------------------------------------------------------

  lemma LeapYears(y: int)
    requires y >= 0
    ensures YearLength(y % 400) == 365 + (if IsLeap(y + 1) then 1 else 0)
  {
    var q, k := y / 400, y % 400;
    assert y + 1 == 4 * (100 * q) + (k + 1) == 100 * (4 * q) + (k + 1) == 400 * q + (k + 1);
    Shift(4, 100 * q, k + 1);
    Shift(100, 4 * q, k + 1);
    Shift(400, q, k + 1);
  }

  lemma Shift(m: int, q: int, r: int)
    requires m == 4 || m == 100 || m == 400
    ensures (m * q + r) % m == r % m
  {
  }

  /** Every date is the month and day of exactly that day of its March year. */
  lemma DateIsFromMarch(d: Date)
    requires IsDate(d) && d.year >= 1
    ensures var doy := MonthStart(MarchMonth(d.month)) + d.day - 1;
      && 0 <= doy < YearLength(MarchYear(d) % 400)
      && FromMarch(MarchYear(d), doy) == (d.year, d.month, d.day)
  {
    MonthIsUnique(MonthStart(MarchMonth(d.month)) + d.day - 1, MarchMonth(d.month));
    LeapYears(MarchYear(d));
  }

  /** The code maps the day number of any date from 1970-01-01 on back to that date. */
  lemma RecoversDate(d: Date)
    requires IsDate(d) && d.year >= 1970
    ensures DaysFromCivil(d) >= 0
    ensures EpochDaysToYmd(DaysFromCivil(d)) == (d.year, d.month, d.day)
  {
    AtLeast1970(d);
    var y := MarchYear(d);
    var yoe, doy := y % 400, MonthStart(MarchMonth(d.month)) + d.day - 1;
    var doe, days := YearStart(yoe) + doy, DaysFromCivil(d);
    assert days + 719_468 == y / 400 * ERA + doe;
    DateIsFromMarch(d);
    hide FromMarch, IsLeap, MonthLength, IsDate, MarchMonth, MonthStart, DaysFromCivil;
    EraBound(yoe, doy);
    YearIsUnique(doe, yoe);
    EraQuotient(days + 719_468, y / 400, doe);
    hide YearOfEra;
    assert yoe + y / 400 * 400 == y;
  }

  lemma EraQuotient(shifted: int, era: int, doe: int)
    requires shifted == era * ERA + doe && 0 <= doe < ERA
    ensures shifted / ERA == era && shifted % ERA == doe
  {
  }

  lemma EraBound(yoe: int, doy: int)
    requires 0 <= yoe <= 399 && 0 <= doy < YearLength(yoe)
    ensures 0 <= YearStart(yoe) + doy < ERA
  {
    if yoe < 399 {
      YearStartsIncrease(yoe, 399);
    }
  }

  lemma AtLeast1970(d: Date)
    requires IsDate(d) && d.year >= 1970
    ensures DaysFromCivil(d) >= 0
  {
  }

  // ---------------------------------------------------------------------------
  // The calendar, day by day
  // ---------------------------------------------------------------------------

  /** Counting back commutes with moving to the next day. */
  lemma NextDayCountsOne(d: Date)
    requires IsDate(d) && d.year >= 1970
    ensures IsDate(NextDay(d)) && NextDay(d).year >= 1970
    ensures DaysFromCivil(NextDay(d)) == DaysFromCivil(d) + 1
  {
    hide MarchDays;
    if d.day == MonthLength(d.year, d.month) {
      if d.month == 2 {
        LeapYears(d.year - 1);
        NextMarchYear(d.year - 1);
      } else {
        MonthEnd(d.year, d.month);
      }
    }
  }

  lemma MonthEnd(year: nat, month: nat)
    requires 1 <= month <= 12 && month != 2
    ensures MonthStart(MarchMonth(if month == 12 then 1 else month + 1))
         == MonthStart(MarchMonth(month)) + MonthLength(year, month)
  {
  }

  lemma NextMarchYear(y: int)
    requires y >= 0
    ensures MarchDays(y + 1) == MarchDays(y) + YearLength(y % 400)
  {
    if y % 400 == 399 {
      assert (y + 1) / 400 == y / 400 + 1 && (y + 1) % 400 == 0;
    } else {
      assert (y + 1) / 400 == y / 400 && (y + 1) % 400 == y % 400 + 1;
      YearStartsFollow(y % 400);
    }
  }

  lemma TheEpoch()
    ensures IsDate(Date(1970, 1, 1)) && DaysFromCivil(Date(1970, 1, 1)) == 0
  {
    assert YearStart(369) == 134_774;
    assert MarchDays(1969) == 719_162;
    assert MonthStart(10) == 306;
  }

  /** The chain of divisions is the Gregorian calendar for every day number: day 0 is
      1970-01-01 and each day number gives the date after the one before it. */
  lemma {:induction false} IsTheGregorianCalendar(days: nat)
    ensures IsDate(DateAfter(days)) && DateAfter(days).year >= 1970
    ensures DaysFromCivil(DateAfter(days)) == days
    ensures var d := DateAfter(days); EpochDaysToYmd(days) == (d.year, d.month, d.day)
  {
    hide NextDay, EpochDaysToYmd, DaysFromCivil, IsDate;
    if days == 0 {
      TheEpoch();
    } else {
      IsTheGregorianCalendar(days - 1);
      NextDayCountsOne(DateAfter(days - 1));
    }
    RecoversDate(DateAfter(days));
  }

  /** The code returns a real date at or after 1970, and the inverse counts back to
      exactly the day number given: with `RecoversDate`, the two are inverse bijections
      between day numbers and dates from 1970-01-01 on. */
  lemma InverseRecovers(days: nat)
    ensures var (y, m, d) := EpochDaysToYmd(days);
      && y >= 1970 && m >= 1 && d >= 1
      && IsDate(Date(y, m, d))
      && DaysFromCivil(Date(y, m, d)) == days
  {
    hide EpochDaysToYmd, IsDate, DaysFromCivil, DateAfter;
    IsTheGregorianCalendar(days);
    MonthAndDayCountFromOne(DateAfter(days));
  }

  lemma MonthAndDayCountFromOne(d: Date)
    requires IsDate(d)
    ensures d.month >= 1 && d.day >= 1
  {
  }

  /** Dates compare as their day numbers do. */
  ghost predicate Earlier(a: Date, b: Date) {
    a.year < b.year || (a.year == b.year && (a.month < b.month || (a.month == b.month && a.day < b.day)))
  }

  lemma NextDayIsLater(d: Date)
    requires IsDate(d)
    ensures Earlier(d, NextDay(d))
  {
  }

  lemma {:induction false} LaterDaysAreLaterDates(a: nat, b: nat)
    requires a < b
    ensures Earlier(DateAfter(a), DateAfter(b))
    decreases b
  {
    hide IsDate, NextDay, DaysFromCivil, EpochDaysToYmd;
    IsTheGregorianCalendar(b - 1);
    NextDayIsLater(DateAfter(b - 1));
    if a < b - 1 {
      LaterDaysAreLaterDates(a, b - 1);
    }
  }
}
