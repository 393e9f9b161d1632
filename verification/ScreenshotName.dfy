/** The timestamped name `save_screenshot` gives a capture. */
module ScreenshotName {
  import opened CivilCalendar
  import opened Decimal

  datatype Time = Time(hour: nat, minute: nat, second: nat)

  const DAY: nat := 86_400

  function TimeOfDay(secs: nat): Time {
    var t := secs % DAY;
    Time(t / 3600, t % 3600 / 60, t % 60)
  }

  function DateOf(secs: nat): Date {
    DateAfter(secs / DAY)
  }

  // What follows the year: month, day and time, always fifteen characters.
  function Tail(d: Date, t: Time): string {
    Padded(d.month, 2) + (Padded(d.day, 2) + ("_" +
      (Padded(t.hour, 2) + (Padded(t.minute, 2) + (Padded(t.second, 2) + ".png")))))
  }

  /** The generated name, from the code's own calendar arithmetic. */
  function Name(prefix: string, secs: nat): string {
    InverseRecovers(secs / DAY);
    var (year, month, day) := EpochDaysToYmd(secs / DAY);
    prefix + ("_" + (Padded(year, 4) + Tail(Date(year, month, day), TimeOfDay(secs))))
  }

  lemma NameUsesTheCalendar(prefix: string, secs: nat)
    ensures Name(prefix, secs)
         == prefix + ("_" + (Padded(DateOf(secs).year, 4) + Tail(DateOf(secs), TimeOfDay(secs))))
  {
    IsTheGregorianCalendar(secs / DAY);
  }

  /** Hours, minutes and seconds are in range and recompose to the second. */
  lemma TimeRecomposes(secs: nat)
    ensures var t := TimeOfDay(secs);
      && t.hour < 24 && t.minute < 60 && t.second < 60
      && secs == secs / DAY * DAY + 3600 * t.hour + 60 * t.minute + t.second
  {
  }

  lemma FieldsFit(secs: nat)
    ensures var d := DateOf(secs); IsDate(d) && d.month < 100 && d.day < 100
    ensures var t := TimeOfDay(secs); t.hour < 100 && t.minute < 100 && t.second < 100
  {
    IsTheGregorianCalendar(secs / DAY);
    TimeRecomposes(secs);
  }

  lemma TwoDigits(n: nat)
    requires n < 100
    ensures Padded(n, 2) == Fixed(n, 2) && |Padded(n, 2)| == 2
  {
    assert Power10(2) == 100;
    PaddedIsFixed(n, 2);
  }

  lemma SplitField(a: nat, b: nat, x: string, y: string)
    requires a < 100 && b < 100 && Padded(a, 2) + x == Padded(b, 2) + y
    ensures a == b && x == y
  {
    TwoDigits(a);
    TwoDigits(b);
    var p, q := Padded(a, 2), Padded(b, 2);
    assert p == (p + x)[..2] && q == (q + y)[..2];
    assert x == (p + x)[2..] && y == (q + y)[2..];
    assert Power10(2) == 100;
    FixedInjective(a, b, 2);
  }

  /** One field decides the order, or leaves it to the rest of the name. */
  lemma FieldOrder(a: nat, b: nat, x: string, y: string)
    requires a < 100 && b < 100 && (a < b || (a == b && Before(x, y)))
    ensures Before(Padded(a, 2) + x, Padded(b, 2) + y)
  {
    TwoDigits(a);
    TwoDigits(b);
    assert Power10(2) == 100;
    if a < b {
      FixedOrder(a, b, 2);
      EarlierPrefix(Padded(a, 2), Padded(b, 2), x, y);
    } else {
      SharedPrefix(Padded(a, 2), x, y);
    }
  }

  ghost predicate Fits(d: Date, t: Time) {
    d.month < 100 && d.day < 100 && t.hour < 100 && t.minute < 100 && t.second < 100
  }

  lemma TailInjective(d: Date, t: Time, d': Date, t': Time)
    requires Fits(d, t) && Fits(d', t') && Tail(d, t) == Tail(d', t')
    ensures d.month == d'.month && d.day == d'.day && t == t'
  {
    hide Padded;
    var s1, s1' := Padded(t.second, 2) + ".png", Padded(t'.second, 2) + ".png";
    var m1, m1' := Padded(t.minute, 2) + s1, Padded(t'.minute, 2) + s1';
    var h1, h1' := Padded(t.hour, 2) + m1, Padded(t'.hour, 2) + m1';
    var d1, d1' := Padded(d.day, 2) + ("_" + h1), Padded(d'.day, 2) + ("_" + h1');
    SplitField(d.month, d'.month, d1, d1');
    SplitField(d.day, d'.day, "_" + h1, "_" + h1');
    assert h1 == ("_" + h1)[1..] && h1' == ("_" + h1')[1..];
    SplitField(t.hour, t'.hour, m1, m1');
    SplitField(t.minute, t'.minute, s1, s1');
    SplitField(t.second, t'.second, ".png", ".png");
  }

  lemma TailLength(d: Date, t: Time)
    requires Fits(d, t)
    ensures |Tail(d, t)| == 15
  {
    TwoDigits(d.month);
    TwoDigits(d.day);
    TwoDigits(t.hour);
    TwoDigits(t.minute);
    TwoDigits(t.second);
  }

  ghost predicate TimeBefore(t: Time, t': Time) {
    t.hour < t'.hour || (t.hour == t'.hour &&
      (t.minute < t'.minute || (t.minute == t'.minute && t.second < t'.second)))
  }

  lemma TailOrder(d: Date, t: Time, d': Date, t': Time)
    requires Fits(d, t) && Fits(d', t') && d.year == d'.year
    requires Earlier(d, d') || (d == d' && TimeBefore(t, t'))
    ensures Before(Tail(d, t), Tail(d', t'))
  {
    hide Padded;
    var s1, s1' := Padded(t.second, 2) + ".png", Padded(t'.second, 2) + ".png";
    var m1, m1' := Padded(t.minute, 2) + s1, Padded(t'.minute, 2) + s1';
    var h1, h1' := Padded(t.hour, 2) + m1, Padded(t'.hour, 2) + m1';
    if d == d' {
      if t.hour == t'.hour {
        if t.minute == t'.minute {
          FieldOrder(t.second, t'.second, ".png", ".png");
        }
        FieldOrder(t.minute, t'.minute, s1, s1');
      }
      FieldOrder(t.hour, t'.hour, m1, m1');
      SharedPrefix("_", h1, h1');
    }
    if d.month == d'.month {
      FieldOrder(d.day, d'.day, "_" + h1, "_" + h1');
    }
    FieldOrder(d.month, d'.month, Padded(d.day, 2) + ("_" + h1), Padded(d'.day, 2) + ("_" + h1'));
  }

  /** Two captures get one name exactly if they were taken in the same second, whatever
      the year. */
  lemma NamesAreDistinct(prefix: string, s: nat, s': nat)
    ensures Name(prefix, s) == Name(prefix, s') <==> s == s'
  {
    hide Name;
    if Name(prefix, s) == Name(prefix, s') {
      OneNameOneSecond(prefix, s, s');
    }
  }

  lemma OneNameOneSecond(prefix: string, s: nat, s': nat)
    requires Name(prefix, s) == Name(prefix, s')
    ensures s == s'
  {
    NameUsesTheCalendar(prefix, s);
    NameUsesTheCalendar(prefix, s');
    FieldsFit(s);
    FieldsFit(s');
    var d, d', t, t' := DateOf(s), DateOf(s'), TimeOfDay(s), TimeOfDay(s');
    hide Name, DateOf, TimeOfDay, Padded, Tail;
    var y, y' := Padded(d.year, 4), Padded(d'.year, 4);
    StripPrefix(prefix, "_" + (y + Tail(d, t)), "_" + (y' + Tail(d', t')));
    StripPrefix("_", y + Tail(d, t), y' + Tail(d', t'));
    TailLength(d, t);
    TailLength(d', t');
    SplitAtTail(y, y', Tail(d, t), Tail(d', t'));
    TailInjective(d, t, d', t');
    PaddedInjective(d.year, d'.year);
    SameInstant(s, s');
  }

  lemma StripPrefix(p: string, x: string, y: string)
    requires p + x == p + y
    ensures x == y
  {
    assert x == (p + x)[|p|..] && y == (p + y)[|p|..];
  }

  lemma SplitAtTail(y: string, y': string, tail: string, tail': string)
    requires |tail| == |tail'| && y + tail == y' + tail'
    ensures y == y' && tail == tail'
  {
    assert |y| == |y'|;
    assert y == (y + tail)[..|y|] && y' == (y' + tail')[..|y'|];
    assert tail == (y + tail)[|y|..] && tail' == (y' + tail')[|y'|..];
  }

  lemma PaddedInjective(a: nat, b: nat)
    requires Padded(a, 4) == Padded(b, 4)
    ensures a == b
  {
    if a < Power10(4) {
      PaddedIsFixed(a, 4);
    } else {
      LongDigits(a, 4);
    }
    if b < Power10(4) {
      PaddedIsFixed(b, 4);
    } else {
      LongDigits(b, 4);
    }
    if a < Power10(4) {
      FixedInjective(a, b, 4);
    } else {
      DigitsInjective(a, b);
    }
  }

  lemma SameInstant(s: nat, s': nat)
    requires DateOf(s) == DateOf(s') && TimeOfDay(s) == TimeOfDay(s')
    ensures s == s'
  {
    IsTheGregorianCalendar(s / DAY);
    IsTheGregorianCalendar(s' / DAY);
    TimeRecomposes(s);
    TimeRecomposes(s');
  }

  /** Later second, later date or later time of day. */
  lemma LaterInstant(s: nat, s': nat)
    requires s < s'
    ensures Earlier(DateOf(s), DateOf(s'))
         || (DateOf(s) == DateOf(s') && TimeBefore(TimeOfDay(s), TimeOfDay(s')))
  {
    TimeRecomposes(s);
    TimeRecomposes(s');
    if s / DAY < s' / DAY {
      LaterDaysAreLaterDates(s / DAY, s' / DAY);
    }
  }

  lemma NameOrder(prefix: string, s: nat, s': nat)
    requires s < s' && DateOf(s').year <= 9999
    ensures Before(Name(prefix, s), Name(prefix, s'))
  {
    NameUsesTheCalendar(prefix, s);
    NameUsesTheCalendar(prefix, s');
    FieldsFit(s);
    FieldsFit(s');
    LaterInstant(s, s');
    var d, d', t, t' := DateOf(s), DateOf(s'), TimeOfDay(s), TimeOfDay(s');
    hide Name, DateOf, TimeOfDay, Padded, Tail;
    var y, y' := Padded(d.year, 4), Padded(d'.year, 4);
    if d.year == d'.year {
      TailOrder(d, t, d', t');
      SharedPrefix(y, Tail(d, t), Tail(d', t'));
    } else {
      YearOrder(d.year, d'.year);
      EarlierPrefix(y, y', Tail(d, t), Tail(d', t'));
    }
    SharedPrefix("_", y + Tail(d, t), y' + Tail(d', t'));
    SharedPrefix(prefix, "_" + (y + Tail(d, t)), "_" + (y' + Tail(d', t')));
  }

  lemma YearOrder(a: nat, b: nat)
    requires a < b <= 9999
    ensures |Padded(a, 4)| == |Padded(b, 4)| && Before(Padded(a, 4), Padded(b, 4))
  {
    assert Power10(4) == 10_000;
    PaddedIsFixed(a, 4);
    PaddedIsFixed(b, 4);
    FixedOrder(a, b, 4);
  }

  /** Every pair of captures up to `last` sorts by name as it does in time. */
  ghost predicate SortsInTime(prefix: string, last: nat) {
    forall s: nat, s': nat :: s < s' <= last ==> Before(Name(prefix, s), Name(prefix, s'))
  }

  // 9999-12-31 23:59:59.
  const LAST_FOUR_DIGIT_SECOND: nat := 253_402_300_799

  lemma TurnOfTheMillennium()
    ensures DateOf(LAST_FOUR_DIGIT_SECOND) == Date(9999, 12, 31)
    ensures DateOf(LAST_FOUR_DIGIT_SECOND + 1) == Date(10_000, 1, 1)
  {
    var d := Date(9999, 12, 31);
    assert YearStart(399) == 145_731;
    assert MarchDays(9999) == 3_652_059;
    assert MonthStart(9) == 275;
    assert DaysFromCivil(d) == 2_932_896;
    hide DaysFromCivil, EpochDaysToYmd;
    RecoversDate(d);
    IsTheGregorianCalendar(2_932_896);
    assert LAST_FOUR_DIGIT_SECOND / DAY == 2_932_896;
    assert (LAST_FOUR_DIGIT_SECOND + 1) / DAY == 2_932_897;
  }

  /** Names sort in time order over every span that ends in a four-digit year, and over
      no span that goes further: the five-digit year breaks the fixed width. */
  lemma NamesSortUntilYear10000(prefix: string, last: nat)
    ensures SortsInTime(prefix, last) <==> DateOf(last).year <= 9999
  {
    TurnOfTheMillennium();
    hide Name, DateOf;
    if DateOf(last).year <= 9999 {
      forall s: nat, s': nat | s < s' <= last
        ensures Before(Name(prefix, s), Name(prefix, s'))
      {
        if s' < last {
          LaterInstant(s', last);
        }
        NameOrder(prefix, s, s');
      }
    } else {
      if last <= LAST_FOUR_DIGIT_SECOND {
        if last < LAST_FOUR_DIGIT_SECOND {
          LaterInstant(last, LAST_FOUR_DIGIT_SECOND);
        }
        assert false;
      }
      OrderBreaks(prefix);
    }
  }

  lemma OrderBreaks(prefix: string)
    ensures !Before(Name(prefix, LAST_FOUR_DIGIT_SECOND), Name(prefix, LAST_FOUR_DIGIT_SECOND + 1))
  {
    var s, s' := LAST_FOUR_DIGIT_SECOND, LAST_FOUR_DIGIT_SECOND + 1;
    TurnOfTheMillennium();
    NameUsesTheCalendar(prefix, s);
    NameUsesTheCalendar(prefix, s');
    var x, x' := Tail(DateOf(s), TimeOfDay(s)), Tail(DateOf(s'), TimeOfDay(s'));
    hide Name, Tail, DateOf;
    var y, y' := Padded(9999, 4), Padded(10_000, 4);
    SharedPrefix(prefix, "_" + (y + x), "_" + (y' + x'));
    SharedPrefix("_", y + x, y' + x');
    FirstDigits();
    assert (y + x)[0] == '9' && (y' + x')[0] == '1';
  }

  lemma FirstDigits()
    ensures Padded(9999, 4)[0] == '9' && Padded(10_000, 4)[0] == '1'
  {
    assert Digits(99) == Digits(9) + [Digit(9)];
    assert Digits(999) == Digits(99) + [Digit(9)];
    assert Digits(9999) == Digits(999) + [Digit(9)];
    assert Digits(10) == Digits(1) + [Digit(0)];
    assert Digits(100) == Digits(10) + [Digit(0)];
    assert Digits(1000) == Digits(100) + [Digit(0)];
    assert Digits(10_000) == Digits(1000) + [Digit(0)];
  }
}
