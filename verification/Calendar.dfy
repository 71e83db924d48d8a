/** The proleptic Gregorian calendar and UTC instants counted in nanoseconds from 0000-01-01T00:00:00Z. */
module Calendar {

  datatype Date = Date(year: int, month: int, day: int)

  predicate Leap(y: int) { y % 4 == 0 && (y % 100 != 0 || y % 400 == 0) }

  function DaysInMonth(y: int, m: int): int {
    if m == 2 then if Leap(y) then 29 else 28
    else if m == 4 || m == 6 || m == 9 || m == 11 then 30
    else 31
  }

  /** Long and short months alternate up to July, and again from August; February is the exception. */
  lemma MonthsAlternate(y: int, m: int)
    requires 1 <= m <= 12
    ensures m != 2 ==> DaysInMonth(y, m) == 30 + (m + m / 8) % 2
    ensures DaysInMonth(y, 2) == 28 + (if y % 400 == 0 || (y % 4 == 0 && y % 100 != 0) then 1 else 0)
  {
  }

  function DaysBeforeMonth(y: int, m: int): int
    requires 1 <= m <= 13
    decreases m
  {
    if m == 1 then 0 else DaysBeforeMonth(y, m - 1) + DaysInMonth(y, m - 1)
  }

  function DaysBeforeYear(y: int): int { 365 * y + (y + 3) / 4 - (y + 99) / 100 + (y + 399) / 400 }

  predicate ValidDate(d: Date) { 1 <= d.month <= 12 && 1 <= d.day <= DaysInMonth(d.year, d.month) }

  function DayNumber(d: Date): int
    requires ValidDate(d)
  {
    DaysBeforeYear(d.year) + DaysBeforeMonth(d.year, d.month) + d.day - 1
  }

  /** Calendar order. */
  predicate DateLess(a: Date, b: Date) {
    a.year < b.year || (a.year == b.year && (a.month < b.month || (a.month == b.month && a.day < b.day)))
  }

  lemma YearLength(y: int)
    ensures DaysBeforeYear(y + 1) == DaysBeforeYear(y) + if Leap(y) then 366 else 365
  {
    StepOverFour(y);
    StepOverHundred(y);
    StepOverFourHundred(y);
    CenturiesAreFours(y);
  }

  lemma CenturiesAreFours(y: int)
    ensures (y % 100 == 0 ==> y % 4 == 0) && (y % 400 == 0 ==> y % 100 == 0)
  {
  }

  lemma StepOverFour(y: int)
    ensures (y + 4) / 4 == (y + 3) / 4 + if y % 4 == 0 then 1 else 0
  {
  }

  lemma StepOverHundred(y: int)
    ensures (y + 100) / 100 == (y + 99) / 100 + if y % 100 == 0 then 1 else 0
  {
  }

  lemma StepOverFourHundred(y: int)
    ensures (y + 400) / 400 == (y + 399) / 400 + if y % 400 == 0 then 1 else 0
  {
  }

  lemma MonthsFillTheYear(y: int)
    ensures DaysBeforeMonth(y, 13) == if Leap(y) then 366 else 365
  {
    assert DaysBeforeMonth(y, 4) == 90 + (if Leap(y) then 1 else 0);
    assert DaysBeforeMonth(y, 7) == DaysBeforeMonth(y, 4) + 91;
    assert DaysBeforeMonth(y, 10) == DaysBeforeMonth(y, 7) + 92;
    assert DaysBeforeMonth(y, 13) == DaysBeforeMonth(y, 10) + 92;
  }

  lemma {:induction false} LaterMonths(y: int, m: int, n: int)
    requires 1 <= m < n <= 13
    ensures DaysBeforeMonth(y, m) + DaysInMonth(y, m) <= DaysBeforeMonth(y, n)
    decreases n - m
  {
    if m + 1 < n { LaterMonths(y, m, n - 1); }
  }

  lemma {:induction false} LaterYears(y: int, z: int)
    requires y < z
    ensures DaysBeforeYear(y) + 365 <= DaysBeforeYear(z)
    ensures DaysBeforeYear(y + 1) <= DaysBeforeYear(z)
    decreases z - y
  {
    YearLength(y);
    if y + 1 < z {
      YearLength(z - 1);
      LaterYears(y, z - 1);
    }
  }

  lemma DayNumberInYear(d: Date)
    requires ValidDate(d)
    ensures DaysBeforeYear(d.year) <= DayNumber(d) < DaysBeforeYear(d.year + 1)
  {
    YearLength(d.year);
    MonthsFillTheYear(d.year);
    LaterMonths(d.year, d.month, 13);
    if d.month > 1 { LaterMonths(d.year, 1, d.month); }
  }

  lemma EarlierDateEarlierDay(a: Date, b: Date)
    requires ValidDate(a) && ValidDate(b) && DateLess(a, b)
    ensures DayNumber(a) < DayNumber(b)
  {
    if a.year < b.year {
      DayNumberInYear(a);
      DayNumberInYear(b);
      LaterYears(a.year, b.year);
    } else if a.month < b.month {
      LaterMonths(a.year, a.month, b.month);
    }
  }

  /** Day numbers order dates as the calendar does. */
  lemma DaysOrderAsDates(a: Date, b: Date)
    requires ValidDate(a) && ValidDate(b)
    ensures DayNumber(a) < DayNumber(b) <==> DateLess(a, b)
    ensures DayNumber(a) == DayNumber(b) <==> a == b
  {
    if DateLess(a, b) { EarlierDateEarlierDay(a, b); }
    else if DateLess(b, a) { EarlierDateEarlierDay(b, a); }
  }

  function NextDay(d: Date): (n: Date)
    requires ValidDate(d)
    ensures ValidDate(n)
  {
    if d.day < DaysInMonth(d.year, d.month) then d.(day := d.day + 1)
    else if d.month < 12 then Date(d.year, d.month + 1, 1)
    else Date(d.year + 1, 1, 1)
  }

  function PreviousDay(d: Date): (p: Date)
    requires ValidDate(d)
    ensures ValidDate(p)
  {
    if d.day > 1 then d.(day := d.day - 1)
    else if d.month > 1 then Date(d.year, d.month - 1, DaysInMonth(d.year, d.month - 1))
    else Date(d.year - 1, 12, 31)
  }

  lemma NextDayIsOneLater(d: Date)
    requires ValidDate(d)
    ensures DayNumber(NextDay(d)) == DayNumber(d) + 1
  {
    if d.day == DaysInMonth(d.year, d.month) && d.month == 12 {
      YearLength(d.year);
      MonthsFillTheYear(d.year);
    }
  }

  lemma PreviousDayIsOneEarlier(d: Date)
    requires ValidDate(d)
    ensures DayNumber(PreviousDay(d)) == DayNumber(d) - 1
  {
    if d.day == 1 && d.month == 1 {
      YearLength(d.year - 1);
      MonthsFillTheYear(d.year - 1);
    }
  }

  /** n days after the first day of year 0, and n days before it. */
  function DateAfter(n: nat): (d: Date)
    ensures ValidDate(d)
  {
    if n == 0 then Date(0, 1, 1) else NextDay(DateAfter(n - 1))
  }

  function DateBefore(n: nat): (d: Date)
    ensures ValidDate(d)
  {
    if n == 0 then Date(0, 1, 1) else PreviousDay(DateBefore(n - 1))
  }

  lemma NextDayNumber(d: Date, next: Date, n: int)
    requires ValidDate(d) && next == NextDay(d) && DayNumber(d) == n
    ensures DayNumber(next) == n + 1
  {
    NextDayIsOneLater(d);
  }

  lemma PreviousDayNumber(d: Date, previous: Date, n: int)
    requires ValidDate(d) && previous == PreviousDay(d) && DayNumber(d) == n
    ensures DayNumber(previous) == n - 1
  {
    PreviousDayIsOneEarlier(d);
  }

  lemma {:induction false} DateAfterIsInverse(n: nat)
    ensures DayNumber(DateAfter(n)) == n
  {
    if n > 0 {
      DateAfterIsInverse(n - 1);
      NextDayNumber(DateAfter(n - 1), DateAfter(n), n - 1);
    }
  }

  lemma {:induction false} DateBeforeIsInverse(n: nat)
    ensures DayNumber(DateBefore(n)) == -(n as int)
  {
    if n > 0 {
      DateBeforeIsInverse(n - 1);
      PreviousDayNumber(DateBefore(n - 1), DateBefore(n), 1 - n);
    }
  }

  /** The date of a day number. */
  function DateOf(n: int): (d: Date)
    ensures ValidDate(d)
  {
    if n >= 0 then DateAfter(n) else DateBefore(-n)
  }

  lemma DateOfIsInverse(n: int)
    ensures DayNumber(DateOf(n)) == n
  {
    if n >= 0 { DateAfterIsInverse(n); } else { DateBeforeIsInverse(-n); }
  }

  // ---------- Times ----------

  const SECOND: int := 1_000_000_000
  const DAY: int := 86_400_000_000_000

  datatype Time = Time(date: Date, hour: int, minute: int, second: int, nano: int)

  predicate ValidTime(t: Time) {
    ValidDate(t.date) && 0 <= t.hour < 24 && 0 <= t.minute < 60 && 0 <= t.second < 60 && 0 <= t.nano < SECOND
  }

  function Clock(t: Time): int { ((t.hour * 60 + t.minute) * 60 + t.second) * SECOND + t.nano }

  function Instant(t: Time): int
    requires ValidTime(t)
  {
    DayNumber(t.date) * DAY + Clock(t)
  }

  function TimeOf(n: int): (t: Time)
    ensures ValidTime(t)
  {
    var clock := n % DAY;
    var seconds := clock / SECOND;
    ClockParts(clock);
    Time(DateOf(n / DAY), seconds / 3600, seconds / 60 % 60, seconds % 60, clock % SECOND)
  }

  lemma ClockParts(clock: int)
    requires 0 <= clock < DAY
    ensures var seconds := clock / SECOND;
            && 0 <= seconds < 86400 && 0 <= seconds / 3600 < 24
            && clock == ((seconds / 3600 * 60 + seconds / 60 % 60) * 60 + seconds % 60) * SECOND + clock % SECOND
  {
    var seconds := clock / SECOND;
    assert clock == seconds * SECOND + clock % SECOND;
    assert seconds == seconds / 60 * 60 + seconds % 60;
    assert seconds / 60 == seconds / 3600 * 60 + seconds / 60 % 60;
  }

  lemma ClockBounds(t: Time)
    requires ValidTime(t)
    ensures 0 <= Clock(t) < DAY
  {
  }

  lemma ClockOfTime(n: int)
    ensures Clock(TimeOf(n)) == n % DAY && TimeOf(n).date == DateOf(n / DAY)
  {
    ClockParts(n % DAY);
  }

  lemma TimeOfIsInverse(n: int)
    ensures Instant(TimeOf(n)) == n
  {
    DateOfIsInverse(n / DAY);
    ClockOfTime(n);
    WholeDays(n);
  }

  lemma WholeDays(n: int)
    ensures n == n / DAY * DAY + n % DAY
  {
  }

  /** Field by field. */
  predicate TimeLess(a: Time, b: Time) {
    DateLess(a.date, b.date)
    || (a.date == b.date
        && (a.hour < b.hour
            || (a.hour == b.hour
                && (a.minute < b.minute
                    || (a.minute == b.minute && (a.second < b.second || (a.second == b.second && a.nano < b.nano)))))))
  }

  /** Instants order times field by field. */
  lemma InstantsOrderAsTimes(a: Time, b: Time)
    requires ValidTime(a) && ValidTime(b)
    ensures Instant(a) < Instant(b) <==> TimeLess(a, b)
    ensures Instant(a) == Instant(b) <==> a == b
  {
    DaysOrderAsDates(a.date, b.date);
    ClockBounds(a);
    ClockBounds(b);
    if DayNumber(a.date) < DayNumber(b.date) {
      assert Instant(a) < (DayNumber(a.date) + 1) * DAY <= DayNumber(b.date) * DAY <= Instant(b);
    } else if DayNumber(b.date) < DayNumber(a.date) {
      assert Instant(b) < (DayNumber(b.date) + 1) * DAY <= DayNumber(a.date) * DAY <= Instant(a);
    }
  }

  lemma InstantIsInverse(t: Time)
    requires ValidTime(t)
    ensures TimeOf(Instant(t)) == t
  {
    TimeOfIsInverse(Instant(t));
    InstantsOrderAsTimes(TimeOf(Instant(t)), t);
  }
}
