/** The calendar of the exit log: a day number becomes a date with integer
    arithmetic alone. */
module Civil {

  datatype Date = Date(year: int, month: nat, day: nat)

  /** C's `/` truncates toward zero. */
  function TruncDiv(a: int, b: int): int
    requires b > 0
  {
    if a >= 0 then a / b else -((-a) / b)
  }

  // ---- the calendar, by its rules ----------------------------------------------------

  predicate IsLeap(year: int) { year % 4 == 0 && (year % 100 != 0 || year % 400 == 0) }

  function DaysInMonth(year: int, month: nat): nat {
    if month == 2 then (if IsLeap(year) then 29 else 28)
    else if month == 4 || month == 6 || month == 9 || month == 11 then 30
    else 31
  }

  predicate IsDate(d: Date) {
    1 <= d.month <= 12 && 1 <= d.day <= DaysInMonth(d.year, d.month)
  }

  /** The next day of the proleptic Gregorian calendar. */
  function Tomorrow(d: Date): Date {
    if d.day < DaysInMonth(d.year, d.month) then d.(day := d.day + 1)
    else if d.month < 12 then Date(d.year, d.month + 1, 1)
    else Date(d.year + 1, 1, 1)
  }

  // ---- the conversion ------------------------------------------------------------------

  /** Days since the first of March of year 0 to the start of its era of 400 years. */
  function EraOf(days: int): int {
    TruncDiv(if days >= 0 then days else days - 146096, 146097)
  }

  function YearOfEra(dayOfEra: nat): int {
    (dayOfEra - dayOfEra / 1460 + dayOfEra / 36524 - dayOfEra / 146096) / 365
  }

  /** The first day of a year of the era; years begin in March here. */
  function YearStart(year: int): int { 365 * year + year / 4 - year / 100 }

  /** Day `t` of the year that begins in March of `year`. */
  function DateIn(year: int, t: nat): Date
    requires t <= 365
  {
    var shiftedMonth := (5 * t + 2) / 153;
    var day: nat := t - (153 * shiftedMonth + 2) / 5 + 1;
    var month: nat := if shiftedMonth < 10 then shiftedMonth + 3 else shiftedMonth - 9;
    Date(year + if month <= 2 then 1 else 0, month, day)
  }

  function CivilFromDays(days: int): Date {
    var shifted := days + 719468;
    var era := EraOf(shifted);
    EraIsFloor(shifted);
    var dayOfEra: nat := shifted - era * 146097;
    var yearOfEra := YearOfEra(dayOfEra);
    YearBounds(dayOfEra);
    var dayOfYear: nat := dayOfEra - YearStart(yearOfEra);
    DateIn(yearOfEra + era * 400, dayOfYear)
  }

  /** The era is the floor quotient, so every later value fits an unsigned type. */
  lemma EraIsFloor(shifted: int)
    ensures 0 <= shifted - EraOf(shifted) * 146097 < 146097
  {
  }

  /** A day of the era as century, group of four years, year and day of the year; a
      leap day is the last day of its year. */
  lemma Decompose(doe: nat) returns (c: nat, q: nat, r: nat, t: nat)
    requires doe < 146097
    ensures doe == 36524 * c + 1461 * q + 365 * r + t
    ensures c < 4 && q < 25 && r < 4 && t <= 365
    ensures t == 365 ==> r == 3 && (q < 24 || c == 3)
  {
    c := if doe == 146096 then 3 else doe / 36524;
    var inCentury := doe - 36524 * c;
    q := if inCentury == 36524 then 24 else inCentury / 1461;
    var inGroup := inCentury - 1461 * q;
    r := if inGroup == 1460 then 3 else inGroup / 365;
    t := inGroup - 365 * r;
  }

  lemma YearStartIs(c: nat, q: nat, r: nat)
    requires q < 25 && r < 4
    ensures YearStart(100 * c + 4 * q + r) == 36524 * c + 1461 * q + 365 * r
  {
  }

  /** The closed formula finds the year of the decomposition. */
  lemma YearOfEraIs(c: nat, q: nat, r: nat, t: nat)
    requires c < 4 && q < 25 && r < 4 && t <= 365
    requires t == 365 ==> r == 3 && (q < 24 || c == 3)
    ensures YearOfEra(36524 * c + 1461 * q + 365 * r + t) == 100 * c + 4 * q + r
  {
    var doe := 36524 * c + 1461 * q + 365 * r + t;
    var y := 100 * c + 4 * q + r;
    var spill := if r == 3 && 24 * c + q + t >= 365 then 1 else 0;
    assert doe == 1460 * (25 * c + q) + (24 * c + q + 365 * r + t);
    assert doe / 1460 == 25 * c + q + spill;
    var last := if doe == 146096 then 1 else 0;
    assert doe / 36524 == c + last;
    assert doe / 146096 == last;
    assert doe - doe / 1460 + doe / 36524 - doe / 146096 == 365 * y + (t - spill);
    assert 0 <= t - spill < 365;
  }

  lemma YearBounds(doe: nat)
    requires doe < 146097
    ensures 0 <= YearOfEra(doe) < 400
    ensures YearStart(YearOfEra(doe)) <= doe
    ensures doe <= YearStart(YearOfEra(doe)) + 365
  {
    hide YearOfEra, YearStart;
    var c, q, r, t := Decompose(doe);
    YearOfEraIs(c, q, r, t);
    YearStartIs(c, q, r);
  }

  // ---- it is the calendar ------------------------------------------------------------------

  lemma DateInIsADate(year: int, t: nat)
    requires t <= 365 && (t == 365 ==> IsLeap(year + 1))
    ensures IsDate(DateIn(year, t))
  {
  }

  lemma NextDayInYear(year: int, t: nat)
    requires t < 365 && (t == 364 ==> IsLeap(year + 1))
    ensures DateIn(year, t + 1) == Tomorrow(DateIn(year, t))
  {
  }

  lemma NewYear(year: int, t: nat)
    requires if IsLeap(year + 1) then t == 365 else t == 364
    ensures DateIn(year + 1, 0) == Tomorrow(DateIn(year, t))
  {
  }

  /** The year of the decomposition ends with a leap day exactly when the calendar
      says so. */
  lemma LeapDay(era: int, c: nat, q: nat, r: nat)
    requires c < 4 && q < 25 && r < 4
    ensures IsLeap(400 * era + 100 * c + 4 * q + r + 1) <==> r == 3 && (q < 24 || c == 3)
  {
  }

  /** Day `t` of the decomposed year is what the conversion returns. */
  lemma CivilIs(days: int, era: int, c: nat, q: nat, r: nat, t: nat)
    requires c < 4 && q < 25 && r < 4 && t <= 365
    requires t == 365 ==> r == 3 && (q < 24 || c == 3)
    requires days + 719468 == 146097 * era + 36524 * c + 1461 * q + 365 * r + t
    ensures CivilFromDays(days) == DateIn(400 * era + 100 * c + 4 * q + r, t)
  {
    hide EraOf, YearOfEra, YearStart, DateIn;
    var doe := 36524 * c + 1461 * q + 365 * r + t;
    assert 0 <= doe < 146097;
    EraIsFloor(days + 719468);
    assert EraOf(days + 719468) == era;
    assert days + 719468 - era * 146097 == doe;
    YearOfEraIs(c, q, r, t);
    YearStartIs(c, q, r);
  }

  /** Where a day stands: era, century, group of four years, year, day of the year. */
  datatype Place = Place(era: int, c: nat, q: nat, r: nat, t: nat)

  predicate IsPlace(p: Place) {
    p.c < 4 && p.q < 25 && p.r < 4 && p.t <= 365 && (p.t == 365 ==> p.r == 3 && (p.q < 24 || p.c == 3))
  }

  function Offset(p: Place): int { 146097 * p.era + 36524 * p.c + 1461 * p.q + 365 * p.r + p.t }

  function DateAt(p: Place): Date
    requires IsPlace(p)
  {
    DateIn(400 * p.era + 100 * p.c + 4 * p.q + p.r, p.t)
  }

  lemma PlaceOf(days: int) returns (p: Place)
    ensures IsPlace(p) && Offset(p) == days + 719468 && CivilFromDays(days) == DateAt(p)
  {
    hide EraOf, CivilFromDays, DateIn;
    var shifted := days + 719468;
    EraIsFloor(shifted);
    var c, q, r, t := Decompose(shifted - EraOf(shifted) * 146097);
    p := Place(EraOf(shifted), c, q, r, t);
    CivilIs(days, p.era, c, q, r, t);
  }

  lemma NextPlace(p: Place) returns (next: Place)
    requires IsPlace(p)
    ensures IsPlace(next) && Offset(next) == Offset(p) + 1 && DateAt(next) == Tomorrow(DateAt(p))
  {
    hide DateIn, Tomorrow, IsLeap;
    var year := 400 * p.era + 100 * p.c + 4 * p.q + p.r;
    LeapDay(p.era, p.c, p.q, p.r);
    if p.t < 364 || (p.t == 364 && IsLeap(year + 1)) {
      next := p.(t := p.t + 1);
      NextDayInYear(year, p.t);
    } else {
      next := if p.r < 3 then p.(r := p.r + 1, t := 0)
              else if p.q < 24 then p.(q := p.q + 1, r := 0, t := 0)
              else if p.c < 3 then p.(c := p.c + 1, q := 0, r := 0, t := 0)
              else Place(p.era + 1, 0, 0, 0, 0);
      NewYear(year, p.t);
    }
  }

  lemma Epoch()
    ensures CivilFromDays(0) == Date(1970, 1, 1)
  {
    hide CivilFromDays;
    CivilIs(0, 4, 3, 17, 1, 306);
  }

  /** Every day number has a date of the calendar. */
  lemma IsCalendarDate(days: int)
    ensures IsDate(CivilFromDays(days))
  {
    hide CivilFromDays, DateIn, IsLeap, IsDate;
    var p := PlaceOf(days);
    LeapDay(p.era, p.c, p.q, p.r);
    DateInIsADate(400 * p.era + 100 * p.c + 4 * p.q + p.r, p.t);
  }

  /** The day after day `days` has the date after its date: with the epoch this fixes
      the conversion for every day number, negative ones included. */
  lemma NextDayIsTomorrow(days: int)
    ensures CivilFromDays(days + 1) == Tomorrow(CivilFromDays(days))
  {
    hide CivilFromDays, DateIn, Tomorrow;
    var p := PlaceOf(days);
    var next := NextPlace(p);
    CivilIs(days + 1, next.era, next.c, next.q, next.r, next.t);
  }

  // ---- the way back --------------------------------------------------------------------------

  /** Days before the first of the month in a year of the calendar. */
  function DaysBeforeMonth(year: int, month: nat): nat
    requires 1 <= month <= 12
  {
    if month == 1 then 0 else DaysBeforeMonth(year, month - 1) + DaysInMonth(year, month - 1)
  }

  /** Days since the epoch, counted from the leap rule: an independent reference. */
  function DaysFromCivil(d: Date): int
    requires 1 <= d.month <= 12
  {
    var before := d.year - 1;
    365 * before + before / 4 - before / 100 + before / 400 + DaysBeforeMonth(d.year, d.month) + d.day - 1 - 719162
  }

  lemma CountOfTomorrow(d: Date)
    requires IsDate(d)
    ensures IsDate(Tomorrow(d)) && DaysFromCivil(Tomorrow(d)) == DaysFromCivil(d) + 1
  {
    if d.day == DaysInMonth(d.year, d.month) && d.month == 12 {
      hide IsLeap;
      YearLength(d.year);
    }
  }

  lemma MonthsOfYear(year: int)
    ensures DaysBeforeMonth(year, 12) + DaysInMonth(year, 12) == if IsLeap(year) then 366 else 365
  {
    assert DaysBeforeMonth(year, 2) == 31;
    assert DaysBeforeMonth(year, 3) == DaysInMonth(year, 2) + 31;
    assert DaysBeforeMonth(year, 5) == DaysInMonth(year, 2) + 92;
    assert DaysBeforeMonth(year, 7) == DaysInMonth(year, 2) + 153;
    assert DaysBeforeMonth(year, 9) == DaysInMonth(year, 2) + 215;
    assert DaysBeforeMonth(year, 11) == DaysInMonth(year, 2) + 276;
  }

  lemma LeapDaysStep(y: int, n: int)
    requires n > 0
    ensures (y + 1) / n == y / n + if (y + 1) % n == 0 then 1 else 0
  {
    if (y + 1) % n == 0 {
      assert y == n * ((y + 1) / n - 1) + (n - 1);
      QuotientIs(y, n, (y + 1) / n - 1, n - 1);
    } else {
      assert y == n * ((y + 1) / n) + ((y + 1) % n - 1);
      QuotientIs(y, n, (y + 1) / n, (y + 1) % n - 1);
    }
  }

  lemma QuotientIs(x: int, n: int, q: int, r: int)
    requires n > 0 && 0 <= r < n && x == n * q + r
    ensures x / n == q
  {
    var d := x / n - q;
    assert n * d == r - x % n;
    assert d >= 1 ==> n * d >= n;
    assert d <= -1 ==> n * d <= -n;
  }

  lemma YearLength(year: int)
    ensures DaysBeforeMonth(year, 12) + DaysInMonth(year, 12) == if IsLeap(year) then 366 else 365
    ensures var y := year - 1;
      365 * year + year / 4 - year / 100 + year / 400
        == 365 * y + y / 4 - y / 100 + y / 400 + if IsLeap(year) then 366 else 365
  {
    MonthsOfYear(year);
    LeapDaysStep(year - 1, 4);
    LeapDaysStep(year - 1, 100);
    LeapDaysStep(year - 1, 400);
  }

  /** Any numbering of the days that starts at the epoch and goes from each date to
      the next is inverted by the reference count. */
  lemma {:induction false} CountInverts(dateOf: int -> Date, days: int)
    requires dateOf(0) == Date(1970, 1, 1)
    requires forall d :: IsDate(dateOf(d))
    requires forall d :: dateOf(d + 1) == Tomorrow(dateOf(d))
    ensures IsDate(dateOf(days)) && DaysFromCivil(dateOf(days)) == days
    decreases if days >= 0 then days else -days
  {
    if days > 0 {
      CountInverts(dateOf, days - 1);
      CountOfTomorrow(dateOf(days - 1));
      assert dateOf(days - 1 + 1) == Tomorrow(dateOf(days - 1));
    } else if days < 0 {
      CountInverts(dateOf, days + 1);
      CountOfTomorrow(dateOf(days));
      assert dateOf(days + 1) == Tomorrow(dateOf(days));
    }
  }

  /** The reference count inverts the conversion, on both sides of the epoch. */
  lemma RoundTrip(days: int)
    ensures IsDate(CivilFromDays(days)) && DaysFromCivil(CivilFromDays(days)) == days
  {
    hide CivilFromDays, Tomorrow, IsDate, DaysFromCivil;
    var dateOf := (d: int) => CivilFromDays(d);
    forall d
      ensures IsDate(dateOf(d)) && dateOf(d + 1) == Tomorrow(dateOf(d))
    {
      IsCalendarDate(d);
      NextDayIsTomorrow(d);
    }
    Epoch();
    CountInverts(dateOf, days);
  }
}
