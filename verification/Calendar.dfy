/** Civil dates, as far as renewals need them: adding a month or a year and letting a
    day past the month's end run over into the next. Dates are in UTC, and a day is
    numbered through from a fixed one, so that what comes later is what has the larger
    number. */
module Calendar {

  datatype Date = Date(year: int, month: int, day: int)

  predicate Leap(y: int) { y % 4 == 0 && (y % 100 != 0 || y % 400 == 0) }

  function MonthLength(y: int, m: int): int {
    if m == 2 then (if Leap(y) then 29 else 28)
    else if m in {4, 6, 9, 11} then 30
    else 31
  }

  predicate Valid(d: Date) { 1 <= d.month <= 12 && 1 <= d.day <= MonthLength(d.year, d.month) }

  /** A date whose day may be past the end of its month. */
  predicate Loose(d: Date) { 1 <= d.month <= 12 && 1 <= d.day <= 31 }

  function FollowingMonth(d: Date): Date {
    if d.month == 12 then Date(d.year + 1, 1, d.day) else Date(d.year, d.month + 1, d.day)
  }

  /** Days past the end of the month become days of the next. */
  function Carry(d: Date): Date
    decreases d.day
  {
    var n := MonthLength(d.year, d.month);
    if d.day <= n then d else Carry(FollowingMonth(d).(day := d.day - n))
  }

  function AddMonth(d: Date): Date { Carry(FollowingMonth(d)) }

  function AddYear(d: Date): Date { Carry(d.(year := d.year + 1)) }

  // ------------------------------------------------------------------- counting the days

  /** Leap years up to and including one. */
  function Leaps(y: int): int { y / 4 - y / 100 + y / 400 }

  function DaysBeforeYear(y: int): int { 365 * (y - 1) + Leaps(y - 1) }

  function DaysBeforeMonth(y: int, m: int): int {
    if m <= 1 then 0 else DaysBeforeMonth(y, m - 1) + MonthLength(y, m - 1)
  }

  /** The number of a day, counted through without a break. */
  function Ordinal(d: Date): int { DaysBeforeYear(d.year) + DaysBeforeMonth(d.year, d.month) + d.day }

  function YearLength(y: int): int { if Leap(y) then 366 else 365 }

  lemma QuotientSteps(y: int, n: int)
    requires n == 4 || n == 100 || n == 400
    ensures y / n - (y - 1) / n == if y % n == 0 then 1 else 0
  {
  }

  lemma LeapsStep(y: int)
    ensures Leaps(y) == Leaps(y - 1) + if Leap(y) then 1 else 0
  {
    var a, b, c := y / 4 - (y - 1) / 4, y / 100 - (y - 1) / 100, y / 400 - (y - 1) / 400;
    QuotientSteps(y, 4);
    QuotientSteps(y, 100);
    QuotientSteps(y, 400);
    assert Leaps(y) - Leaps(y - 1) == a - b + c;
  }

  lemma YearsAbut(y: int)
    ensures DaysBeforeYear(y + 1) == DaysBeforeYear(y) + YearLength(y)
  {
    hide Leaps, Leap;
    LeapsStep(y);
  }

  // The first of a month is a fixed number of days into the year, but for a leap day.
  function Plain(m: int): int {
    if m <= 1 then 0 else Plain(m - 1) + (if m - 1 == 2 then 28 else if m - 1 in {4, 6, 9, 11} then 30 else 31)
  }

  lemma {:induction false} MonthStart(y: int, m: int)
    ensures DaysBeforeMonth(y, m) == Plain(m) + if m > 2 && Leap(y) then 1 else 0
    decreases m
  {
    if m > 1 {
      MonthStart(y, m - 1);
    }
  }

  lemma TwelveMonths(y: int)
    ensures DaysBeforeMonth(y, 12) + MonthLength(y, 12) == YearLength(y)
  {
    MonthStart(y, 12);
    assert Plain(3) == 59;
    assert Plain(5) == 120;
    assert Plain(7) == 181;
    assert Plain(9) == 243;
    assert Plain(11) == 304;
  }

  /** A month on is exactly the length of the month one is in. */
  lemma MonthsAbut(d: Date)
    requires Loose(d)
    ensures Ordinal(FollowingMonth(d)) == Ordinal(d) + MonthLength(d.year, d.month)
  {
    hide Leap;
    YearsAbut(d.year);
    TwelveMonths(d.year);
    assert DaysBeforeMonth(d.year + 1, 1) == 0;
  }

  /** Running over the end of a month neither gains nor loses a day. */
  lemma {:induction false} CarryKeepsTheDay(d: Date)
    requires Loose(d)
    ensures Valid(Carry(d)) && Ordinal(Carry(d)) == Ordinal(d)
    decreases d.day
  {
    hide Ordinal, MonthLength;
    var n := MonthLength(d.year, d.month);
    assert 28 <= n <= 31 by { MonthBounds(d.year, d.month); }
    if d.day > n {
      var next := FollowingMonth(d).(day := d.day - n);
      MonthsAbut(d);
      DaysAdd(FollowingMonth(d), d.day - n);
      CarryKeepsTheDay(next);
    }
  }

  /** A day of a month that is too short for it runs into the next, and no further. */
  lemma CarriesOnce(d: Date)
    requires Loose(d)
    ensures var n := MonthLength(d.year, d.month);
            Carry(d) == if d.day <= n then d else FollowingMonth(d).(day := d.day - n)
  {
    hide MonthLength;
    MonthBounds(d.year, d.month);
    MonthBounds(FollowingMonth(d).year, FollowingMonth(d).month);
  }

  lemma MonthBounds(y: int, m: int)
    ensures 28 <= MonthLength(y, m) <= 31
  {
  }

  lemma DaysAdd(d: Date, day: int)
    ensures Ordinal(d.(day := day)) == Ordinal(d) - d.day + day
  {
  }

  /** Adding a month moves a date on by the length of the month it is in, and adding a
      year by 365 or 366 days: always forward, so never to the same date. */
  lemma AddingMovesOn(d: Date)
    requires Valid(d)
    ensures Valid(AddMonth(d)) && Ordinal(AddMonth(d)) == Ordinal(d) + MonthLength(d.year, d.month)
    ensures Valid(AddYear(d)) && 365 <= Ordinal(AddYear(d)) - Ordinal(d) <= 366
  {
    hide Ordinal, Carry, MonthLength, Leap;
    MonthBounds(d.year, d.month);
    MonthsAbut(d);
    CarryKeepsTheDay(FollowingMonth(d));
    CarryKeepsTheDay(d.(year := d.year + 1));
    YearOn(d);
  }

  lemma YearOn(d: Date)
    requires Valid(d)
    ensures 365 <= Ordinal(d.(year := d.year + 1)) - Ordinal(d) <= 366
  {
    hide Leap, DaysBeforeMonth;
    YearsAbut(d.year);
    YearsAbut(d.year - 1);
    MonthStart(d.year, d.month);
    MonthStart(d.year + 1, d.month);
  }

  /** Renewing on the 31st of January skips February and never comes back to the 31st. */
  lemma EndOfJanuary()
    ensures AddMonth(Date(2026, 1, 31)) == Date(2026, 3, 3)
    ensures AddMonth(Date(2026, 3, 3)) == Date(2026, 4, 3)
  {
  }
}
