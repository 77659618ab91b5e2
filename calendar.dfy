/** The proleptic Gregorian calendar behind Python's `date` and naive `datetime`.
    A moment is a whole number of seconds since 0001-01-01 00:00:00 (Python's
    `datetime.min`) on the local clock, so the day ordinal of a moment is
    `t / SecondsPerDay` and ordinal 0 is `date.min`. Going below 0 is the
    OverflowError that `date - timedelta` raises. */
module Calendar {

  const SecondsPerDay: nat := 86400
  const MinutesPerDay: nat := 1440

  predicate IsLeap(y: nat) {
    y % 4 == 0 && (y % 100 != 0 || y % 400 == 0)
  }

  function DaysInYear(y: nat): nat {
    if IsLeap(y) then 366 else 365
  }

  function DaysInMonth(y: nat, m: nat): (n: nat)
    requires 1 <= m <= 12
    ensures 28 <= n <= 31
  {
    if m == 2 then (if IsLeap(y) then 29 else 28)
    else if m == 4 || m == 6 || m == 9 || m == 11 then 30
    else 31
  }

  /** Days of year `y` that come before the first day of month `m` (13 = the whole year). */
  function DaysBeforeMonth(y: nat, m: nat): nat
    requires 1 <= m <= 13
  {
    [0, 31, 59, 90, 120, 151, 181, 212, 243, 273, 304, 334, 365][m - 1]
      + (if m > 2 && IsLeap(y) then 1 else 0)
  }

  lemma DaysBeforeMonthStep(y: nat, m: nat)
    requires 1 <= m <= 12
    ensures DaysBeforeMonth(y, m + 1) == DaysBeforeMonth(y, m) + DaysInMonth(y, m)
    ensures DaysBeforeMonth(y, 13) == DaysInYear(y)
  {
  }

  /** Days from 0001-01-01 to the first day of year `y`. */
  function DaysBeforeYear(y: nat): nat
    requires y >= 1
  {
    if y == 1 then 0 else DaysBeforeYear(y - 1) + DaysInYear(y - 1)
  }

  datatype Date = Date(year: nat, month: nat, day: nat)

  predicate ValidDate(d: Date) {
    1 <= d.year && 1 <= d.month <= 12 && 1 <= d.day <= DaysInMonth(d.year, d.month)
  }

  /** `date.toordinal() - 1`: the number of days since 0001-01-01. */
  function Ordinal(d: Date): nat
    requires ValidDate(d)
  {
    DaysBeforeYear(d.year) + DaysBeforeMonth(d.year, d.month) + d.day - 1
  }

  /** `date.fromordinal(n + 1)`: the date `n` days after 0001-01-01. */
  function DateOfOrdinal(n: nat): (d: Date)
    ensures ValidDate(d) && Ordinal(d) == n
  {
    YearWalk(1, n)
  }

  /** The date `n` days after the first of January of year `y`. */
  function YearWalk(y: nat, n: nat): (d: Date)
    requires y >= 1
    ensures ValidDate(d) && d.year >= y
    ensures Ordinal(d) == DaysBeforeYear(y) + n
    decreases n
  {
    if n < DaysInYear(y) then MonthWalk(y, 1, n)
    else YearWalk(y + 1, n - DaysInYear(y))
  }

  /** The date `n` days after the first day of month `m` of year `y`. */
  function MonthWalk(y: nat, m: nat, n: nat): (d: Date)
    requires y >= 1 && 1 <= m <= 12
    requires DaysBeforeMonth(y, m) + n < DaysInYear(y)
    ensures ValidDate(d) && d.year == y && d.month >= m
    ensures DaysBeforeMonth(y, d.month) + d.day - 1 == DaysBeforeMonth(y, m) + n
    decreases 12 - m
  {
    DaysBeforeMonthStep(y, m);
    if n < DaysInMonth(y, m) then Date(y, m, n + 1)
    else MonthWalk(y, m + 1, n - DaysInMonth(y, m))
  }

  lemma {:induction false} DaysBeforeYearGrows(y: nat, z: nat)
    requires 1 <= y < z
    ensures DaysBeforeYear(y) + DaysInYear(y) <= DaysBeforeYear(z)
    decreases z - y
  {
    if y + 1 < z {
      DaysBeforeYearGrows(y + 1, z);
    }
  }

  lemma DaysBeforeMonthGrows(y: nat, m: nat, k: nat)
    requires 1 <= m < k <= 13
    ensures DaysBeforeMonth(y, m) + DaysInMonth(y, m) <= DaysBeforeMonth(y, k)
  {
    DaysBeforeMonthStep(y, m);
  }

  /** Different valid dates have different ordinals, so the ordinal names a day exactly. */
  lemma OrdinalInjective(a: Date, b: Date)
    requires ValidDate(a) && ValidDate(b) && a != b
    ensures Ordinal(a) != Ordinal(b)
  {
    if a.year != b.year {
      var lo, hi := if a.year < b.year then a else b, if a.year < b.year then b else a;
      DaysBeforeYearGrows(lo.year, hi.year);
      DaysBeforeMonthGrows(lo.year, lo.month, 13);
      DaysBeforeMonthStep(lo.year, 12);
    } else if a.month != b.month {
      var lo, hi := if a.month < b.month then a else b, if a.month < b.month then b else a;
      DaysBeforeMonthGrows(lo.year, lo.month, hi.month);
    }
  }

  /** Ordinals and dates are inverse to each other in both directions. */
  lemma DateOrdinalRoundTrip(d: Date)
    requires ValidDate(d)
    ensures DateOfOrdinal(Ordinal(d)) == d
  {
    var e := DateOfOrdinal(Ordinal(d));
    if e != d {
      OrdinalInjective(e, d);
    }
  }

  /** The day ordinal of a moment. */
  function DayOf(t: nat): nat {
    t / SecondsPerDay
  }

  /** The calendar date of a moment (`datetime.date()`). */
  function DateOf(t: nat): (d: Date)
    ensures ValidDate(d)
  {
    DateOfOrdinal(DayOf(t))
  }

  /** The moment `minute` minutes after midnight of day ordinal `day`. */
  function At(day: nat, minute: nat): nat {
    day * SecondsPerDay + minute * 60
  }

  lemma AtSameDay(day: nat, minute: nat)
    requires minute < MinutesPerDay
    ensures DayOf(At(day, minute)) == day
    ensures At(day, minute) % SecondsPerDay == minute * 60
  {
  }
}
