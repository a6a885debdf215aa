/**
 The proleptic Gregorian calendar as far as dated futures need it: ordinals, weekdays, the third
 Friday of a month and the front-month expiry.
 */
module Calendar {
  import opened Common

  predicate Leap(y: int) {
    y % 4 == 0 && (y % 100 != 0 || y % 400 == 0)
  }

  function DaysInMonth(y: int, m: int): int
    requires 1 <= m <= 12
  {
    if m == 2 then (if Leap(y) then 29 else 28)
    else if m == 4 || m == 6 || m == 9 || m == 11 then 30
    else 31
  }

  function DaysBeforeYear(y: int): int {
    (y - 1) * 365 + (y - 1) / 4 - (y - 1) / 100 + (y - 1) / 400
  }

  function DaysBeforeMonth(y: int, m: int): int
    requires 1 <= m <= 12
  {
    if m == 1 then 0 else DaysBeforeMonth(y, m - 1) + DaysInMonth(y, m - 1)
  }

  /** The ordinal of the first day of a month; 1 January of year 1 is day 1. */
  function FirstOfMonth(y: int, m: int): int
    requires 1 <= m <= 12
  {
    DaysBeforeYear(y) + DaysBeforeMonth(y, m) + 1
  }

  /** Monday is 0; the first day of year 1 is a Monday. */
  function Weekday(ordinal: int): int {
    (ordinal + 6) % 7
  }

  const FRIDAY := 4

  function ThirdFriday(y: int, m: int): int
    requires 1 <= m <= 12
  {
    var first := FirstOfMonth(y, m);
    first + (FRIDAY - Weekday(first)) % 7 + 14
  }

  /** A UTC instant: a calendar day and the microseconds since its midnight. */
  datatype Moment = Moment(year: int, month: int, day: int, micros: int)

  const MICROS_PER_DAY := 86_400_000_000
  const MAX_YEAR := 9999

  ghost predicate ValidMonth(y: int, m: int) {
    1 <= y <= MAX_YEAR && 1 <= m <= 12
  }

  ghost predicate ValidMoment(t: Moment) {
    && ValidMonth(t.year, t.month)
    && 1 <= t.day <= DaysInMonth(t.year, t.month)
    && 0 <= t.micros < MICROS_PER_DAY
  }

  function Instant(t: Moment): int
    requires 1 <= t.month <= 12
  {
    (FirstOfMonth(t.year, t.month) + t.day - 1) * MICROS_PER_DAY + t.micros
  }

  const ROLL_DAYS := 5

  /** The contract expiring on this day may still be opened: it is at least five days ahead. */
  predicate Open(now: int, expiry: int) {
    now <= (expiry - ROLL_DAYS) * MICROS_PER_DAY
  }

  // ---------------------------------------------------------------- months follow one another

  lemma YearLength(y: int)
    ensures DaysBeforeYear(y + 1) - DaysBeforeYear(y) == if Leap(y) then 366 else 365
  {
    QuotientSteps(y, 4);
    QuotientSteps(y, 100);
    QuotientSteps(y, 400);
    CenturiesAreFourths(y);
  }

  lemma CenturiesAreFourths(y: int)
    ensures y % 100 == 0 ==> y % 4 == 0
    ensures y % 400 == 0 ==> y % 100 == 0
  {
    if y % 100 == 0 { MultipleOf4(25 * (y / 100)); }
    if y % 400 == 0 { MultipleOf100(4 * (y / 400)); }
  }

  lemma MultipleOf4(k: int)
    ensures 4 * k % 4 == 0
  {
  }

  lemma MultipleOf100(k: int)
    ensures 100 * k % 100 == 0
  {
  }

  lemma QuotientSteps(y: int, d: int)
    requires d == 4 || d == 100 || d == 400
    ensures y / d - (y - 1) / d == if y % d == 0 then 1 else 0
  {
  }

  lemma DecemberStart(y: int)
    ensures DaysBeforeMonth(y, 12) == if Leap(y) then 335 else 334
  {
    assert DaysBeforeMonth(y, 2) == 31;
    assert DaysBeforeMonth(y, 3) == if Leap(y) then 60 else 59;
    assert DaysBeforeMonth(y, 5) == DaysBeforeMonth(y, 3) + 61;
    assert DaysBeforeMonth(y, 7) == DaysBeforeMonth(y, 5) + 61;
    assert DaysBeforeMonth(y, 9) == DaysBeforeMonth(y, 7) + 62;
    assert DaysBeforeMonth(y, 11) == DaysBeforeMonth(y, 9) + 61;
  }

  /** A month ends where the next one starts, across the turn of the year too. */
  lemma MonthFollows(y: int, m: int)
    requires 1 <= m <= 12
    ensures FirstOfMonth(y, m) + DaysInMonth(y, m) == if m == 12 then FirstOfMonth(y + 1, 1) else FirstOfMonth(y, m + 1)
  {
    if m == 12 {
      YearLength(y);
      DecemberStart(y);
    }
  }

  function Months(y: int, m: int): int {
    y * 12 + m - 1
  }

  /** A later month starts at least 28 days later for every month between. */
  lemma {:induction false} LaterMonth(y: int, m: int, y': int, m': int)
    requires 1 <= m <= 12 && 1 <= m' <= 12 && Months(y, m) < Months(y', m')
    ensures FirstOfMonth(y, m) + DaysInMonth(y, m) <= FirstOfMonth(y', m')
    decreases Months(y', m') - Months(y, m)
  {
    MonthFollows(y, m);
    var ny, nm := if m == 12 then y + 1 else y, if m == 12 then 1 else m + 1;
    if Months(ny, nm) < Months(y', m') {
      LaterMonth(ny, nm, y', m');
    } else {
      assert ny == y' && nm == m';
    }
  }

  // ---------------------------------------------------------------- the third Friday

  /** It is a Friday of its month with exactly two Fridays before it. */
  lemma ThirdFridayIsThird(y: int, m: int, d: int)
    requires 1 <= m <= 12
    ensures var t := ThirdFriday(y, m);
            && Weekday(t) == FRIDAY && FirstOfMonth(y, m) + 14 <= t <= FirstOfMonth(y, m) + 20
            && (FirstOfMonth(y, m) <= d < t ==> (Weekday(d) == FRIDAY <==> d == t - 7 || d == t - 14))
  {
    var first, t := FirstOfMonth(y, m), ThirdFriday(y, m);
    assert (t + 6) % 7 == 4;
    if first <= d < t && (d + 6) % 7 == 4 {
      assert (t - d) % 7 == 0;
    }
  }

  lemma ThirdFridaysAscend(y: int, m: int, y': int, m': int)
    requires 1 <= m <= 12 && 1 <= m' <= 12 && Months(y, m) <= Months(y', m')
    ensures ThirdFriday(y, m) <= ThirdFriday(y', m')
  {
    if Months(y, m) < Months(y', m') {
      LaterMonth(y, m, y', m');
    } else {
      assert y == y' && m == m';
    }
  }

  /** Third Fridays of months before the current one are already past. */
  lemma EarlierMonthsClosed(today: Moment, y: int, m: int)
    requires ValidMoment(today) && 1 <= m <= 12 && Months(y, m) < Months(today.year, today.month)
    ensures !Open(Instant(today), ThirdFriday(y, m))
  {
    LaterMonth(y, m, today.year, today.month);
  }

  /** The third Friday of the following month is always far enough ahead. */
  lemma NextMonthOpen(today: Moment, y: int, m: int)
    requires ValidMoment(today) && 1 <= m <= 12 && Months(y, m) == Months(today.year, today.month) + 1
    ensures Open(Instant(today), ThirdFriday(y, m))
  {
    LaterMonth(today.year, today.month, y, m);
    ThirdFridayIsThird(y, m, 0);
  }

  /** A third Friday that may still be opened, and no earlier one may. */
  ghost predicate EarliestOpen(now: int, expiry: int) {
    && Open(now, expiry)
    && (exists y, m :: ValidMonth(y, m) && expiry == ThirdFriday(y, m))
    && (forall y, m :: ValidMonth(y, m) && Open(now, ThirdFriday(y, m)) ==> expiry <= ThirdFriday(y, m))
  }

  /** The current month while it may be opened, and then the next one, is the earliest. */
  lemma FrontMonthIsEarliest(today: Moment, y: int, m: int)
    requires ValidMoment(today) && ValidMonth(y, m) && Open(Instant(today), ThirdFriday(y, m))
    requires || Months(y, m) == Months(today.year, today.month)
             || (Months(y, m) == Months(today.year, today.month) + 1 &&
                  !Open(Instant(today), ThirdFriday(today.year, today.month)))
    ensures EarliestOpen(Instant(today), ThirdFriday(y, m))
  {
    hide ThirdFriday, Instant, Open;
    assert forall y', m' :: ValidMonth(y', m') && Months(y', m') == Months(today.year, today.month) ==>
                              y' == today.year && m' == today.month;
    forall y', m' | ValidMonth(y', m') && Open(Instant(today), ThirdFriday(y', m'))
      ensures ThirdFriday(y, m) <= ThirdFriday(y', m')
    {
      if Months(y', m') < Months(today.year, today.month) {
        EarlierMonthsClosed(today, y', m');
      } else if Months(y', m') >= Months(y, m) {
        ThirdFridaysAscend(y, m, y', m');
      }
    }
  }

  /** Past the roll of its last month the calendar has nothing left. */
  lemma LastMonthPassed(today: Moment, y: int, m: int)
    requires ValidMoment(today) && today.year == MAX_YEAR && today.month == 12 && ValidMonth(y, m)
    requires !Open(Instant(today), ThirdFriday(today.year, today.month))
    ensures !Open(Instant(today), ThirdFriday(y, m))
  {
    hide ThirdFriday, Instant, Open;
    if Months(y, m) < Months(today.year, today.month) {
      EarlierMonthsClosed(today, y, m);
    }
  }

  /**
   Selects the front-month expiry: the earliest third Friday, over all months of the calendar, at
   least five days ahead. It fails exactly when the calendar holds no such day.
   */
  method FrontMonthExpiry(today: Moment) returns (expiry: Option<int>)
    requires ValidMoment(today)
    ensures expiry.Some? ==> EarliestOpen(Instant(today), expiry.value)
    ensures expiry.None? <==> forall y, m :: ValidMonth(y, m) ==> !Open(Instant(today), ThirdFriday(y, m))
  {
    var year, month := today.year, today.month;
    var thirdFriday := ThirdFriday(year, month);
    if Instant(today) > (thirdFriday - ROLL_DAYS) * MICROS_PER_DAY {
      assert !Open(Instant(today), thirdFriday);
      month := month + 1;
      if month > 12 {
        month := 1;
        year := year + 1;
      }
      if year > MAX_YEAR {
        forall y, m | ValidMonth(y, m) ensures !Open(Instant(today), ThirdFriday(y, m)) {
          LastMonthPassed(today, y, m);
        }
        return None;
      }
      NextMonthOpen(today, year, month);
      thirdFriday := ThirdFriday(year, month);
    }
    FrontMonthIsEarliest(today, year, month);
    expiry := Some(thirdFriday);
  }

  // ---------------------------------------------------------------- dated anchors

  /** Days before each month of any year. */
  lemma MonthStarts(y: int)
    ensures DaysBeforeMonth(y, 1) == 0 && DaysBeforeMonth(y, 2) == 31
    ensures var leap := LeapDay(y);
            && DaysBeforeMonth(y, 3) == 59 + leap && DaysBeforeMonth(y, 4) == 90 + leap
            && DaysBeforeMonth(y, 5) == 120 + leap && DaysBeforeMonth(y, 6) == 151 + leap
            && DaysBeforeMonth(y, 7) == 181 + leap && DaysBeforeMonth(y, 8) == 212 + leap
            && DaysBeforeMonth(y, 9) == 243 + leap && DaysBeforeMonth(y, 10) == 273 + leap
            && DaysBeforeMonth(y, 11) == 304 + leap && DaysBeforeMonth(y, 12) == 334 + leap
  {
    FebruaryIs(y);
    hide Leap, LeapDay;
    assert DaysBeforeMonth(y, 3) == DaysBeforeMonth(y, 2) + DaysInMonth(y, 2);
    assert DaysBeforeMonth(y, 5) == DaysBeforeMonth(y, 3) + 61;
    assert DaysBeforeMonth(y, 7) == DaysBeforeMonth(y, 5) + 61;
    assert DaysBeforeMonth(y, 9) == DaysBeforeMonth(y, 7) + 62;
    assert DaysBeforeMonth(y, 11) == DaysBeforeMonth(y, 9) + 61;
  }

  /** Every fourth year has a leap day, of the centuries only every fourth. */
  ghost function LeapDay(y: int): int {
    if y % 400 == 0 || (y % 4 == 0 && y % 100 != 0) then 1 else 0
  }

  lemma FebruaryIs(y: int)
    ensures DaysInMonth(y, 2) == 28 + LeapDay(y)
  {
    CenturiesAreFourths(y);
  }

  /** The years follow one another. */
  lemma YearFollows(y: int)
    ensures FirstOfMonth(y + 1, 1) - FirstOfMonth(y, 1) == 365 + LeapDay(y)
  {
    YearLength(y);
    FebruaryIs(y);
    hide Leap, LeapDay, DaysBeforeYear;
  }

  /** 1 January 2026 is day 739617 and 2 January a Friday; 16 January is the third Friday. */
  lemma JanuaryOf2026()
    ensures FirstOfMonth(2026, 1) == 739617 && Weekday(739618) == 4 && ThirdFriday(2026, 1) == 739617 + 15
  {
    assert FirstOfMonth(2026, 1) == 739617;
    assert Weekday(739617) == 3;
  }

  /** Weekdays count on from Monday as 0 to Sunday as 6. */
  lemma WeekdaysGoRound(d: int)
    ensures 0 <= Weekday(d) <= 6 && Weekday(d + 1) == if Weekday(d) == 6 then 0 else Weekday(d) + 1
  {
  }

  /** Instants count microseconds: a month starts at its first day's midnight, and days have 24 hours. */
  lemma InstantsCount(t: Moment)
    requires 1 <= t.month <= 12
    ensures Instant(t.(day := 1, micros := 0)) == FirstOfMonth(t.year, t.month) * (24 * 3600 * 1_000_000)
    ensures Instant(t.(day := t.day + 1)) == Instant(t) + 24 * 3600 * 1_000_000
    ensures Instant(t.(micros := t.micros + 1)) == Instant(t) + 1
  {
  }

  /** The roll is five days of twenty-four hours before the expiry day begins. */
  lemma OpenIsFiveDaysAhead(now: int, expiry: int)
    ensures Open(now, expiry) <==> now + 5 * 24 * 3600 * 1_000_000 <= expiry * 24 * 3600 * 1_000_000
  {
  }
}
