/**
 Civil-from-days, as the infra results (`days_to_date`) and the modem log
 (`format_iso8601_utc`) compute it, against a calendar that only knows how to
 step from one day to the next.
 */
module Calendar {

  datatype Date = Date(year: int, month: int, day: int)

  datatype Stamp = Stamp(date: Date, hour: nat, minute: nat, second: nat)

  // ----- The calendar itself: the Gregorian month and leap rules of RFC 3339 -----

  predicate Leap(year: int) {
    year % 4 == 0 && (year % 100 != 0 || year % 400 == 0)
  }

  function DaysIn(year: int, month: int): int {
    if month == 2 then (if Leap(year) then 29 else 28)
    else if month == 4 || month == 6 || month == 9 || month == 11 then 30
    else 31
  }

  function NextDay(d: Date): Date {
    if d.day < DaysIn(d.year, d.month) then d.(day := d.day + 1)
    else if d.month < 12 then Date(d.year, d.month + 1, 1)
    else Date(d.year + 1, 1, 1)
  }

  /** The date reached by `n` next-day steps from the Unix epoch. */
  function DateAfter(n: nat): Date {
    if n == 0 then Date(1970, 1, 1) else NextDay(DateAfter(n - 1))
  }

  // ----- The two implementations -----

  function YearOfEra(doe: nat): int {
    (doe - doe / 1460 + doe / 36524 - doe / 146096) / 365
  }

  function DayOfYear(doe: nat): int {
    var yoe := YearOfEra(doe);
    doe - (365 * yoe + yoe / 4 - yoe / 100)
  }

  /** Month and day from a day of a year that starts on 1 March. */
  function MonthDay(doy: int): (int, int) {
    var mp := (5 * doy + 2) / 153;
    (if mp < 10 then mp + 3 else mp - 9, doy - (153 * mp + 2) / 5 + 1)
  }

  function DaysToDate(days: nat): Date {
    var z := days + 719468;
    var era := z / 146097;
    var doe := z - era * 146097;
    var year := YearOfEra(doe) + era * 400;
    var (month, day) := MonthDay(DayOfYear(doe));
    Date(if month <= 2 then year + 1 else year, month, day)
  }

  /** The fields `now_iso` prints. */
  function NowIso(secs: nat): Stamp {
    var timeOfDay := secs % 86400;
    Stamp(DaysToDate(secs / 86400), timeOfDay / 3600, (timeOfDay % 3600) / 60, timeOfDay % 60)
  }

  /** Division of Rust's signed integers: the quotient is cut towards zero. */
  function TruncDiv(a: int, b: nat): int
    requires b > 0
  {
    if a >= 0 then a / b else -((-a) / b)
  }

  /** The fields `format_iso8601_utc` prints; its era is computed on signed integers. */
  function FormatIso8601(secs: nat): Stamp {
    var secsOfDay := secs % 86400;
    var z: int := secs / 86400 + 719468;
    var era := TruncDiv(if z >= 0 then z else z - 146096, 146097);
    var doe := z - era * 146097;
    var y := YearOfEra(doe) + era * 400;
    var (m, d) := MonthDay(DayOfYear(doe));
    Stamp(Date(y + (if m <= 2 then 1 else 0), m, d),
          secsOfDay / 3600, (secsOfDay / 60) % 60, secsOfDay % 60)
  }

  // ----- The day of era, taken apart -----

  /** Century, four-year cycle and year of a cycle, and the day of that year. */
  datatype Parts = Parts(c: int, q: int, r: int, d: int) {
    predicate Valid() {
      && 0 <= c <= 3 && 0 <= q <= 24 && 0 <= r <= 3 && 0 <= d < Length()
    }
    /** Years start on 1 March, so the leap day closes the year before its own. */
    function Length(): int {
      if r == 3 && (q < 24 || c == 3) then 366 else 365
    }
    function DayOfEra(): int { 36524 * c + 1461 * q + 365 * r + d }
    function Year(): int { 100 * c + 4 * q + r }
  }

  lemma CenturyTerm(p: Parts)
    requires p.Valid()
    ensures p.DayOfEra() / 36524 - p.DayOfEra() / 146096 == p.c
  {
  }

  lemma CycleTerm(p: Parts)
    requires p.Valid()
    ensures var w := 24 * p.c + p.q + 365 * p.r + p.d;
            p.DayOfEra() / 1460 == 25 * p.c + p.q + (if w >= 1460 then 1 else 0)
  {
    var w := 24 * p.c + p.q + 365 * p.r + p.d;
    assert p.DayOfEra() == 1460 * (25 * p.c + p.q) + w;
  }

  /** The three corrections of the year formula cancel exactly. */
  lemma YearOfParts(p: Parts)
    requires p.Valid()
    ensures YearOfEra(p.DayOfEra()) == p.Year()
    ensures DayOfYear(p.DayOfEra()) == p.d
  {
    CenturyTerm(p);
    CycleTerm(p);
    var w := 24 * p.c + p.q + 365 * p.r + p.d;
    var rest := p.d - (if w >= 1460 then 1 else 0);
    var doe := p.DayOfEra();
    assert doe - doe / 1460 + doe / 36524 - doe / 146096 == 365 * p.Year() + rest;
    assert 0 <= rest < 365;
    assert p.Year() / 4 == 25 * p.c + p.q && p.Year() / 100 == p.c;
  }

  lemma InCentury(k: int, m: int)
    requires 1 <= m <= 24
    ensures Leap(100 * k + 4 * m)
  {
    assert (100 * k + 4 * m) % 100 == 4 * m;
    assert 100 * k + 4 * m == 4 * (25 * k + m);
  }

  lemma Remainder(q: int, r: int)
    requires 0 <= r < 400
    ensures (400 * q + r) % 400 == r
    ensures (400 * q + r) % 100 == r % 100
  {
  }

  lemma Quadruple(a: int)
    ensures (4 * a) % 4 == 0
  {
  }

  lemma EndsCentury(k: int)
    ensures Leap(100 * k) <==> k % 4 == 0
  {
    var q, r := k / 4, k % 4;
    Quadruple(25 * k);
    assert 100 * k == 4 * (25 * k);
    Remainder(q, 100 * r);
    assert 100 * k == 400 * q + 100 * r;
  }

  lemma LeapOfParts(p: Parts, era: int)
    requires p.Valid()
    ensures Leap(400 * era + p.Year() + 1) <==> p.Length() == 366
  {
    var y, k := 400 * era + p.Year() + 1, 4 * era + p.c;
    if p.r < 3 {
      assert y == 4 * (25 * k + p.q) + p.r + 1;
    } else if p.q < 24 {
      InCentury(k, p.q + 1);
      assert y == 100 * k + 4 * (p.q + 1);
      hide Leap;
    } else {
      EndsCentury(k + 1);
      assert y == 100 * (k + 1);
      hide Leap;
    }
  }

  // ----- Months -----

  /** Stepping the day of a March-based year steps month and day by the calendar. */
  lemma MonthStep(doy: int, year: int)
    requires 0 <= doy < 364 || (doy == 364 && Leap(year + 1))
    ensures var (m, d) := MonthDay(doy);
            var (m', d') := MonthDay(doy + 1);
            Date(if m' <= 2 then year + 1 else year, m', d')
            == NextDay(Date(if m <= 2 then year + 1 else year, m, d))
  {
    var mp := (5 * doy + 2) / 153;
    assert 0 <= mp <= 11;
    assert mp == 0 || mp == 1 || mp == 2 || mp == 3 || mp == 4 || mp == 5
        || mp == 6 || mp == 7 || mp == 8 || mp == 9 || mp == 10 || mp == 11;
  }

  lemma LastDayOfYear(p: Parts, era: int)
    requires p.Valid() && p.d == p.Length() - 1
    ensures var (m, d) := MonthDay(p.d);
            m == 2 && d == DaysIn(400 * era + p.Year() + 1, 2)
  {
    LeapOfParts(p, era);
  }

  // ----- From the pieces to the date -----

  /** The date at day `doy` of the March-based year `year`. */
  function DateIn(year: int, doy: int): Date {
    var (month, day) := MonthDay(doy);
    Date(if month <= 2 then year + 1 else year, month, day)
  }

  lemma DateOfParts(days: nat, era: int, p: Parts)
    requires p.Valid() && days + 719468 == era * 146097 + p.DayOfEra()
    ensures DaysToDate(days) == DateIn(400 * era + p.Year(), p.d)
  {
    var z := days + 719468;
    assert 0 <= p.DayOfEra() < 146097;
    assert z / 146097 == era;
    YearOfParts(p);
  }

  /** What follows the last day of a year: the next year, cycle, century or era. */
  lemma FollowingYear(p: Parts) returns (next: Parts, carry: int)
    requires p.Valid() && p.d == p.Length() - 1
    ensures next.Valid() && next.d == 0
    ensures next.DayOfEra() + 146097 * carry == p.DayOfEra() + 1
    ensures next.Year() + 400 * carry == p.Year() + 1
  {
    if p.r < 3 {
      return Parts(p.c, p.q, p.r + 1, 0), 0;
    } else if p.q < 24 {
      return Parts(p.c, p.q + 1, 0, 0), 0;
    } else if p.c < 3 {
      return Parts(p.c + 1, 0, 0, 0), 0;
    } else {
      return Parts(0, 0, 0, 0), 1;
    }
  }

  /** A following day within a year is a next-day step. */
  lemma StepWithinYear(era: int, p: Parts)
    requires p.Valid() && p.d + 1 < p.Length()
    ensures DateIn(400 * era + p.Year(), p.d + 1) == NextDay(DateIn(400 * era + p.Year(), p.d))
  {
    LeapOfParts(p, era);
    MonthStep(p.d, 400 * era + p.Year());
  }

  /** So is the first day of a year after the last day of the one before. */
  lemma StepAcrossYears(era: int, p: Parts)
    requires p.Valid() && p.d == p.Length() - 1
    ensures DateIn(400 * era + p.Year() + 1, 0) == NextDay(DateIn(400 * era + p.Year(), p.d))
  {
    LastDayOfYear(p, era);
    assert MonthDay(0) == (3, 1);
  }

  lemma EpochInParts()
    ensures DateIn(400 * 4 + Parts(3, 17, 1, 306).Year(), 306) == DateAfter(0)
  {
    assert MonthDay(306) == (1, 1);
  }

  /** The calendar reached by stepping, read through era and parts. */
  lemma {:induction false} CalendarParts(n: nat) returns (era: int, p: Parts)
    ensures p.Valid() && n + 719468 == era * 146097 + p.DayOfEra()
    ensures DateAfter(n) == DateIn(400 * era + p.Year(), p.d)
  {
    hide MonthDay, NextDay, DateIn;
    if n == 0 {
      era, p := 4, Parts(3, 17, 1, 306);
      EpochInParts();
    } else {
      era, p := CalendarParts(n - 1);
      if p.d + 1 < p.Length() {
        StepWithinYear(era, p);
        p := p.(d := p.d + 1);
      } else {
        StepAcrossYears(era, p);
        var carry;
        p, carry := FollowingYear(p);
        era := era + carry;
      }
    }
  }

  /** For every day count, the closed formula is the calendar reached by stepping. */
  lemma DaysToDateIsCalendar(n: nat)
    ensures DaysToDate(n) == DateAfter(n)
  {
    var era, p := CalendarParts(n);
    DateOfParts(n, era, p);
  }

  lemma SameDate(secs: nat)
    ensures FormatIso8601(secs).date == DaysToDate(secs / 86400)
  {
    hide YearOfEra, DayOfYear, MonthDay;
    var z := secs / 86400 + 719468;
    assert TruncDiv(z, 146097) == z / 146097;
    hide TruncDiv;
  }

  lemma TimeOfDay(t: nat)
    requires t < 86400
    ensures t / 3600 < 24 && (t / 60) % 60 == (t % 3600) / 60 < 60 && t % 60 < 60
    ensures 3600 * (t / 3600) + 60 * ((t / 60) % 60) + t % 60 == t
  {
    var h, m, s := t / 3600, (t % 3600) / 60, t % 60;
    assert t == 3600 * h + 60 * m + s;
    assert t / 60 == 60 * h + m;
  }

  /** Both formatters print the calendar date and the same time of day, for every timestamp. */
  lemma FormattersAgree(secs: nat)
    ensures FormatIso8601(secs) == NowIso(secs)
    ensures var s := FormatIso8601(secs);
            && s.date == DateAfter(secs / 86400)
            && s.hour < 24 && s.minute < 60 && s.second < 60
            && 86400 * (secs / 86400) + 3600 * s.hour + 60 * s.minute + s.second == secs
  {
    var f, g := FormatIso8601(secs), NowIso(secs);
    assert f.date == g.date by { SameDate(secs); }
    assert g.date == DateAfter(secs / 86400) by { DaysToDateIsCalendar(secs / 86400); }
    TimeOfDay(secs % 86400);
  }
}
