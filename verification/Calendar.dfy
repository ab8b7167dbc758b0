/** Dates and timestamps of src/auth/commands.rs: day counts since 1970-01-01 against the Gregorian calendar. */
module Calendar {

  datatype Date = Date(year: nat, month: nat, day: nat)

  predicate IsLeap(year: nat) { (year % 4 == 0 && year % 100 != 0) || year % 400 == 0 }

  function DaysInYear(year: nat): nat { if IsLeap(year) then 366 else 365 }

  function MonthDays(year: nat): (days: seq<nat>)
    ensures |days| == 12
  {
    [31, if IsLeap(year) then 29 else 28, 31, 30, 31, 30, 31, 31, 30, 31, 30, 31]
  }

  /** A real date, not before the epoch: the ranges of section 5.7 of RFC 3339. */
  predicate ValidDate(d: Date) {
    1970 <= d.year && 1 <= d.month <= 12 && 1 <= d.day <= MonthDays(d.year)[d.month - 1]
  }

  // ------------------------------------------------------------ closed-form day count

  /** Leap years among 1..y. */
  function LeapYearsTo(y: nat): int { y / 4 - y / 100 + y / 400 }

  function DaysBeforeYear(year: nat): int
    requires year >= 1970
  {
    365 * (year - 1970) + LeapYearsTo(year - 1) - LeapYearsTo(1969)
  }

  function DaysBeforeMonth(year: nat, month: nat): int
    requires 1 <= month <= 13
  {
    (367 * month - 362) / 12 - (if month <= 2 then 0 else if IsLeap(year) then 1 else 2)
  }

  /** Days from 1970-01-01 to `d`, with the 4/100/400 terms and no loop. */
  function DayCount(d: Date): int
    requires ValidDate(d)
  {
    DaysBeforeYear(d.year) + DaysBeforeMonth(d.year, d.month) + d.day - 1
  }

  lemma {:induction false} LeapTermsStep(y: nat)
    requires y >= 1
    ensures LeapYearsTo(y) == LeapYearsTo(y - 1) + if IsLeap(y) then 1 else 0
  {
    Quarters(y);
    Centuries(y);
    Cycles(y);
    Nested(y);
  }

  lemma {:induction false} Quarters(y: nat)
    requires y >= 1
    ensures y / 4 == (y - 1) / 4 + if y % 4 == 0 then 1 else 0
  {
  }

  lemma {:induction false} Centuries(y: nat)
    requires y >= 1
    ensures y / 100 == (y - 1) / 100 + if y % 100 == 0 then 1 else 0
  {
  }

  lemma {:induction false} Cycles(y: nat)
    requires y >= 1
    ensures y / 400 == (y - 1) / 400 + if y % 400 == 0 then 1 else 0
  {
  }

  lemma {:induction false} Nested(y: nat)
    ensures y % 100 == 0 ==> y % 4 == 0
    ensures y % 400 == 0 ==> y % 100 == 0
  {
    if y % 100 == 0 { FourTimes(25 * (y / 100)); }
    if y % 400 == 0 { HundredTimes(4 * (y / 400)); }
  }

  lemma {:induction false} FourTimes(n: nat)
    ensures (4 * n) % 4 == 0
  {
  }

  lemma {:induction false} HundredTimes(n: nat)
    ensures (100 * n) % 100 == 0
  {
  }

  lemma {:induction false} YearStep(year: nat)
    requires year >= 1970
    ensures DaysBeforeYear(year + 1) == DaysBeforeYear(year) + DaysInYear(year)
  {
    LeapTermsStep(year);
  }

  lemma {:induction false} EpochStart()
    ensures DaysBeforeYear(1970) == 0
  {
  }

  lemma {:induction false} MonthStep(year: nat, month: nat)
    requires 1 <= month <= 12
    ensures DaysBeforeMonth(year, month + 1) == DaysBeforeMonth(year, month) + MonthDays(year)[month - 1]
    ensures DaysBeforeMonth(year, 1) == 0 && DaysBeforeMonth(year, 13) == DaysInYear(year)
  {
  }

  lemma {:induction false} MonthsGrow(year: nat, m: nat, n: nat)
    requires 1 <= m <= n <= 13
    ensures m < n ==> DaysBeforeMonth(year, n) >= DaysBeforeMonth(year, m) + MonthDays(year)[m - 1]
    decreases n - m
  {
    if m < n {
      MonthStep(year, m);
      MonthsGrow(year, m + 1, n);
      assert m + 1 < n ==> MonthDays(year)[m] >= 28;
    }
  }

  lemma {:induction false} YearsGrow(y: nat, z: nat)
    requires 1970 <= y <= z
    ensures y < z ==> DaysBeforeYear(z) >= DaysBeforeYear(y) + DaysInYear(y)
    decreases z - y
  {
    if y < z {
      YearStep(y);
      YearsGrow(y + 1, z);
    }
  }

  // ------------------------------------------------------------------ the conversion

  /** `days_to_ymd`: two loops that peel off years, then months. */
  method DaysToYmd(count: nat) returns (d: Date)
    ensures ValidDate(d) && DayCount(d) == count
    ensures d == DateOf(count)
    ensures 365 * (d.year - 1970) <= count
  {
    hide DaysBeforeYear, DaysBeforeMonth;
    var days: nat, year: nat := count, 1970;
    EpochStart();
    while days >= DaysInYear(year)
      invariant year >= 1970 && DaysBeforeYear(year) + days == count
      invariant 365 * (year - 1970) + days <= count
      decreases days
    {
      YearStep(year);
      days := days - DaysInYear(year);
      year := year + 1;
    }
    var monthDays, month := MonthDays(year), 1;
    MonthStep(year, 1);
    for i := 0 to 12
      invariant month == i + 1
      invariant DaysBeforeYear(year) + DaysBeforeMonth(year, month) + days == count
      invariant DaysBeforeMonth(year, month) + days < DaysInYear(year)
    {
      if days < monthDays[i] { break; }
      MonthStep(year, month);
      days := days - monthDays[i];
      month := month + 1;
    }
    d := Date(year, month, days + 1);
    CountInjective(d, DateOf(count));
  }

  /** The order of dates: year, then month, then day. */
  predicate Before(a: Date, b: Date) {
    a.year < b.year || (a.year == b.year && (a.month < b.month || (a.month == b.month && a.day < b.day)))
  }

  lemma {:induction false} CountGrows(a: Date, b: Date)
    requires ValidDate(a) && ValidDate(b) && Before(a, b)
    ensures DayCount(a) < DayCount(b)
  {
    MonthsGrow(a.year, a.month, 13);
    MonthsGrow(b.year, 1, b.month);
    MonthStep(a.year, 12);
    MonthStep(b.year, 12);
    if a.year < b.year { YearsGrow(a.year, b.year); }
    else if a.month < b.month { MonthsGrow(a.year, a.month, b.month); }
  }

  /** Later dates have larger counts and the other way round: counting is strictly monotone, hence injective. */
  lemma {:induction false} CountOrdersDates(a: Date, b: Date)
    requires ValidDate(a) && ValidDate(b)
    ensures Before(a, b) <==> DayCount(a) < DayCount(b)
    ensures DayCount(a) == DayCount(b) <==> a == b
  {
    if Before(a, b) { CountGrows(a, b); } else if Before(b, a) { CountGrows(b, a); } else { assert a == b; }
  }

  lemma {:induction false} CountInjective(a: Date, b: Date)
    requires ValidDate(a) && ValidDate(b) && DayCount(a) == DayCount(b)
    ensures a == b
  {
    CountOrdersDates(a, b);
  }

  /** The day after `d`, by the calendar's own rule. */
  function NextDay(d: Date): (n: Date)
    requires ValidDate(d)
    ensures ValidDate(n)
  {
    if d.day < MonthDays(d.year)[d.month - 1] then d.(day := d.day + 1)
    else if d.month < 12 then Date(d.year, d.month + 1, 1)
    else Date(d.year + 1, 1, 1)
  }

  lemma {:induction false} NextDayCounts(d: Date)
    requires ValidDate(d)
    ensures DayCount(NextDay(d)) == DayCount(d) + 1
  {
    MonthStep(d.year, d.month);
    MonthStep(d.year + 1, 1);
    YearStep(d.year);
  }

  /** Walking day by day from the epoch meets every count. */
  lemma {:induction false} DateExists(count: nat) returns (d: Date)
    ensures ValidDate(d) && DayCount(d) == count
  {
    if count == 0 { return Date(1970, 1, 1); }
    var before := DateExists(count - 1);
    NextDayCounts(before);
    d := NextDay(before);
  }

  ghost predicate Counts(d: Date, count: nat) { ValidDate(d) && DayCount(d) == count }

  lemma {:induction false} SomeDate(count: nat)
    ensures exists d :: Counts(d, count)
  {
    var d := DateExists(count);
    assert Counts(d, count);
  }

  ghost function DateOf(count: nat): (d: Date)
    ensures ValidDate(d) && DayCount(d) == count
  {
    SomeDate(count);
    var d :| Counts(d, count);
    d
  }

  /** The conversion is a bijection between day counts and valid dates, steps as the calendar does and keeps order. */
  lemma {:induction false} DatesAndCountsAgree(d: Date, m: nat, n: nat)
    requires ValidDate(d)
    ensures DayCount(d) >= 0 && DateOf(DayCount(d)) == d
    ensures DateOf(n + 1) == NextDay(DateOf(n))
    ensures m < n <==> Before(DateOf(m), DateOf(n))
  {
    MonthsGrow(d.year, 1, d.month);
    YearsGrow(1970, d.year);
    CountInjective(DateOf(DayCount(d)), d);
    NextDayCounts(DateOf(n));
    CountInjective(DateOf(n + 1), NextDay(DateOf(n)));
    CountOrdersDates(DateOf(m), DateOf(n));
  }
}
