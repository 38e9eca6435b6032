/** The lines of the exit log sort as text the way they sort in time, the property of
    section 5.1 of RFC 3339, from 1970 to the end of the year 9999. */
module ExitLogOrder {
  import opened Wrappers
  import opened Civil
  import opened Decimal
  import opened ExitLog

  // ---- dates -----------------------------------------------------------------------------

  predicate Earlier(a: Date, b: Date) {
    a.year < b.year || (a.year == b.year && (a.month < b.month || (a.month == b.month && a.day < b.day)))
  }

  lemma TomorrowIsLater(d: Date)
    requires IsDate(d)
    ensures Earlier(d, Tomorrow(d))
  {
  }

  lemma {:induction false} LaterDaysAreLaterDates(a: int, b: int)
    requires a < b
    ensures Earlier(CivilFromDays(a), CivilFromDays(b))
    decreases b - a
  {
    hide CivilFromDays, Tomorrow, IsDate;
    IsCalendarDate(b - 1);
    TomorrowIsLater(CivilFromDays(b - 1));
    NextDayIsTomorrow(b - 1);
    if a < b - 1 {
      LaterDaysAreLaterDates(a, b - 1);
    }
  }

  /** Dates compare as their day numbers do. */
  lemma DatesKeepOrder(a: int, b: int)
    ensures Earlier(CivilFromDays(a), CivilFromDays(b)) <==> a < b
    ensures CivilFromDays(a) == CivilFromDays(b) <==> a == b
  {
    hide CivilFromDays;
    if a < b {
      LaterDaysAreLaterDates(a, b);
    } else if b < a {
      LaterDaysAreLaterDates(b, a);
    }
  }

  /** The first day of the year 10000 is day 2932897. */
  lemma FourDigitYears(days: int)
    ensures CivilFromDays(days).year <= 9999 <==> days < 2932897
  {
    hide CivilFromDays, IsDate;
    CivilIs(2932897, 24, 3, 24, 3, 306);
    CivilIs(2932896, 24, 3, 24, 3, 305);
    if days < 2932896 {
      LaterDaysAreLaterDates(days, 2932896);
    } else if days > 2932897 {
      LaterDaysAreLaterDates(2932897, days);
    }
  }

  // ---- stamps ----------------------------------------------------------------------------

  /** A clock reading in the years a stamp can order. */
  predicate InRange(t: Instant) { Seconds(t) < 2932897 * 86400 && 0 <= t.nanoseconds < 1_000_000_000 }

  /** The time to the millisecond. */
  function TimeOf(t: Instant): nat { 1000 * Seconds(t) + Millis(t) }

  /** One more number and separator on each of two lines of one length. */
  lemma OneMoreOrders(a: string, b: string, u: nat, v: nat, width: nat, separator: string)
    requires |a| == |b|
    requires 0 < width && u < Pow10(width) && v < Pow10(width)
    ensures var x, y := a + Padded(u, width) + separator, b + Padded(v, width) + separator;
      && |x| == |y| == |a| + width + |separator|
      && (Before(x, y) <==> Before(a, b) || (a == b && u < v))
      && (x == y <==> a == b && u == v)
  {
    PaddedOrders(u, v, width);
    var p, q := a + Padded(u, width), b + Padded(v, width);
    BeforeConcat(p, separator, q, separator);
    BeforeConcat(a, Padded(u, width), b, Padded(v, width));
    NotBeforeItself(separator);
    var x, y := p + separator, q + separator;
    assert p == x[..|p|] && q == y[..|q|];
    assert a == p[..|a|] && b == q[..|b|];
    assert Padded(u, width) == p[|a|..] && Padded(v, width) == q[|b|..];
  }

  lemma FieldsFit(t: Instant)
    requires InRange(t)
    ensures Pow10(2) == 100 && Pow10(3) == 1000 && Pow10(4) == 10000
    ensures DateOf(t).year < Pow10(4) && DateOf(t).month < Pow10(2) && DateOf(t).day < Pow10(2)
    ensures InDay(t) / 3600 < Pow10(2) && InDay(t) % 3600 / 60 < Pow10(2) && InDay(t) % 60 < Pow10(2)
    ensures Millis(t) == t.nanoseconds / 1_000_000 < Pow10(3)
  {
    hide CivilFromDays;
    assert Pow10(4) == 10 * Pow10(3) && Pow10(3) == 10 * Pow10(2) && Pow10(2) == 10 * Pow10(1);
    FourDigitYears(Seconds(t) / 86400);
  }

  lemma DayParts(t: Instant)
    ensures var h, m, s := InDay(t) / 3600, InDay(t) % 3600 / 60, InDay(t) % 60;
      && m < 60 && s < 60 && InDay(t) == 3600 * h + 60 * m + s && InDay(t) < 86400
    ensures Seconds(t) == 86400 * (Seconds(t) / 86400) + InDay(t)
  {
  }

  /** The stamp up to the clock time. */
  function DateText(t: Instant): string {
    Padded(DateOf(t).year, 4) + "-" + Padded(DateOf(t).month, 2) + "-" + Padded(DateOf(t).day, 2) + "T"
  }

  lemma DatesKeepOrderAsText(a: Instant, b: Instant)
    requires InRange(a) && InRange(b)
    ensures |DateText(a)| == |DateText(b)| == 11
    ensures Before(DateText(a), DateText(b)) <==> Seconds(a) / 86400 < Seconds(b) / 86400
    ensures DateText(a) == DateText(b) <==> Seconds(a) / 86400 == Seconds(b) / 86400
  {
    hide Padded, DateOf, Before, InRange, Pow10;
    FieldsFit(a);
    FieldsFit(b);
    var d, e := DateOf(a), DateOf(b);
    var x, y := "", "";
    assert !Before(x, y) by { NotBeforeItself(x); }
    OneMoreOrders(x, y, d.year, e.year, 4, "-");
    x, y := x + Padded(d.year, 4) + "-", y + Padded(e.year, 4) + "-";
    OneMoreOrders(x, y, d.month, e.month, 2, "-");
    x, y := x + Padded(d.month, 2) + "-", y + Padded(e.month, 2) + "-";
    OneMoreOrders(x, y, d.day, e.day, 2, "T");
    assert "" + Padded(d.year, 4) == Padded(d.year, 4) && "" + Padded(e.year, 4) == Padded(e.year, 4);
    assert Before(DateText(a), DateText(b)) <==> Earlier(d, e);
    DatesOrderDays(a, b);
  }

  /** Stamps have one length, and compare as the times do. */
  lemma StampsKeepOrder(a: Instant, b: Instant)
    requires InRange(a) && InRange(b)
    ensures |Stamp(a)| == |Stamp(b)| == 25
    ensures Before(Stamp(a), Stamp(b)) <==> TimeOf(a) < TimeOf(b)
    ensures Stamp(a) == Stamp(b) <==> TimeOf(a) == TimeOf(b)
  {
    hide Padded, DateOf, Millis, InDay, Before, InRange, Pow10;
    FieldsFit(a);
    FieldsFit(b);
    DatesKeepOrderAsText(a, b);
    var x, y := DateText(a), DateText(b);
    OneMoreOrders(x, y, InDay(a) / 3600, InDay(b) / 3600, 2, ":");
    x, y := x + Padded(InDay(a) / 3600, 2) + ":", y + Padded(InDay(b) / 3600, 2) + ":";
    OneMoreOrders(x, y, InDay(a) % 3600 / 60, InDay(b) % 3600 / 60, 2, ":");
    x, y := x + Padded(InDay(a) % 3600 / 60, 2) + ":", y + Padded(InDay(b) % 3600 / 60, 2) + ":";
    OneMoreOrders(x, y, InDay(a) % 60, InDay(b) % 60, 2, ".");
    x, y := x + Padded(InDay(a) % 60, 2) + ".", y + Padded(InDay(b) % 60, 2) + ".";
    OneMoreOrders(x, y, Millis(a), Millis(b), 3, "Z ");
    x, y := x + Padded(Millis(a), 3) + "Z ", y + Padded(Millis(b), 3) + "Z ";
    assert x == Stamp(a) && y == Stamp(b);
    DayParts(a);
    DayParts(b);
  }

  lemma DatesOrderDays(a: Instant, b: Instant)
    ensures Earlier(DateOf(a), DateOf(b)) <==> Seconds(a) / 86400 < Seconds(b) / 86400
    ensures DateOf(a) == DateOf(b) <==> Seconds(a) / 86400 == Seconds(b) / 86400
  {
    hide CivilFromDays;
    DatesKeepOrder(Seconds(a) / 86400, Seconds(b) / 86400);
  }

  /** So two entries sort by time, whatever else they say, if the buffer took the stamp. */
  lemma EntriesSortByTime(a: Instant, b: Instant, pid: int, pid': int, kind: Option<string>, kind': Option<string>,
                          key: Option<string>, key': Option<string>, value: Option<string>, value': Option<string>,
                          room: nat)
    requires InRange(a) && InRange(b) && TimeOf(a) < TimeOf(b) && room >= 25
    ensures Before(Clip(Line(a, pid, kind, key, value), room), Clip(Line(b, pid', kind', key', value'), room))
  {
    hide Stamp, Padded, InRange, Before;
    StampsKeepOrder(a, b);
    var x := LineTail(a, pid, kind, key, value);
    var y := LineTail(b, pid', kind', key', value');
    ClipTail(Stamp(a), x, room);
    ClipTail(Stamp(b), y, room);
    BeforeConcat(Stamp(a), Clip(x, room - 25), Stamp(b), Clip(y, room - 25));
  }

  lemma LineTail(t: Instant, pid: int, kind: Option<string>, key: Option<string>, value: Option<string>)
    returns (tail: string)
    ensures Line(t, pid, kind, key, value) == Stamp(t) + tail
  {
    hide Stamp, Padded;
    tail := Line(t, pid, kind, key, value)[|Stamp(t)|..];
  }

  lemma ClipTail(s: string, tail: string, room: nat)
    requires |s| <= room
    ensures Clip(s + tail, room) == s + Clip(tail, room - |s|)
  {
  }

  /** One second later it ends: the first entry of the year 10000 sorts before the last
      one of 9999. */
  lemma TheYearTenThousandSortsFirst()
    ensures var a, b := Instant(2932897 * 86400 - 1, 0), Instant(2932897 * 86400, 0);
      TimeOf(a) < TimeOf(b) && Before(Stamp(b), Stamp(a))
  {
    hide CivilFromDays, Padded, IsDate;
    var a, b := Instant(2932897 * 86400 - 1, 0), Instant(2932897 * 86400, 0);
    assert Seconds(a) / 86400 == 2932896 && Seconds(b) / 86400 == 2932897;
    CivilIs(2932897, 24, 3, 24, 3, 306);
    CivilIs(2932896, 24, 3, 24, 3, 305);
    assert DateOf(a).year == 9999 && DateOf(b).year == 10000;
    assert Padded(9999, 4)[0] == '9' && Padded(10000, 4)[0] == '1' by { YearDigits(); }
    assert Stamp(a)[0] == Padded(9999, 4)[0] && Stamp(b)[0] == Padded(10000, 4)[0];
  }

  const END_OF_9999: nat := 2932897 * 86400

  predicate IsReading(t: Instant) { 0 <= t.nanoseconds < 1_000_000_000 }

  /** The stamps of all times before `bound` sort as the times do. */
  ghost predicate SortsUpTo(bound: nat) {
    forall a, b | IsReading(a) && IsReading(b) && Seconds(a) < bound && Seconds(b) < bound ::
      Before(Stamp(a), Stamp(b)) <==> TimeOf(a) < TimeOf(b)
  }

  /** That is so up to the end of 9999, and no longer. */
  lemma SortedExactlyTo9999(bound: nat)
    ensures SortsUpTo(bound) <==> bound <= END_OF_9999
  {
    hide Stamp, Before;
    if bound <= END_OF_9999 {
      forall a, b | IsReading(a) && IsReading(b) && Seconds(a) < bound && Seconds(b) < bound
        ensures Before(Stamp(a), Stamp(b)) <==> TimeOf(a) < TimeOf(b)
      {
        StampsKeepOrder(a, b);
      }
    } else {
      var a, b := Instant(END_OF_9999 - 1, 0), Instant(END_OF_9999, 0);
      TheYearTenThousandSortsFirst();
      assert Before(Stamp(b), Stamp(a)) && TimeOf(a) < TimeOf(b);
    }
  }

  lemma YearDigits()
    ensures Padded(9999, 4)[0] == '9' && Padded(10000, 4)[0] == '1'
  {
  }
}
