/**
 Date arithmetic as ECMAScript defines it (ECMA-262, ES2021, section 21.4.1): a Date is a number of
 milliseconds since 1970, read and written in UTC. Months count from 0, days of a month from 1.
 Dates outside the 8.64e15 ms that a Date can hold are not considered.
 */
module Calendar {
  const MS_PER_DAY: int := 86_400_000

  // ---- Months, numbered through all years: month m of year y is 12 * y + m ----

  predicate IsLeap(y: int) {
    y % 4 == 0 && (y % 100 != 0 || y % 400 == 0)
  }

  function DaysOfMonth(m: int, leap: bool): int {
    if m == 1 then (if leap then 29 else 28) else if m == 3 || m == 5 || m == 8 || m == 10 then 30 else 31
  }

  function MonthLength(k: int): (days: int)
    ensures 28 <= days <= 31
    ensures k % 12 != 1 ==> days >= 30
  {
    DaysOfMonth(k % 12, IsLeap(k / 12))
  }

  const JANUARY_1970: int := 12 * 1970

  /** The first day of month k, counted from 1 January 1970. */
  function MonthStart(k: int): int
    decreases if k < JANUARY_1970 then JANUARY_1970 - k else k - JANUARY_1970
  {
    if k == JANUARY_1970 then 0
    else if k > JANUARY_1970 then MonthStart(k - 1) + MonthLength(k - 1)
    else MonthStart(k + 1) - MonthLength(k)
  }

  lemma NextMonth(k: int)
    ensures MonthStart(k + 1) == MonthStart(k) + MonthLength(k)
  {
  }

  lemma {:induction false} MonthsIncrease(a: int, b: int)
    requires a <= b
    ensures 28 * (b - a) <= MonthStart(b) - MonthStart(a) <= 31 * (b - a)
    decreases b - a
  {
    if a < b {
      NextMonth(b - 1);
      MonthsIncrease(a, b - 1);
    }
  }

  function MonthFrom(k: int, day: int): (r: int)
    requires MonthStart(k) <= day
    ensures MonthStart(r) <= day < MonthStart(r) + MonthLength(r)
    decreases day - MonthStart(k)
  {
    NextMonth(k);
    if day < MonthStart(k) + MonthLength(k) then k else MonthFrom(k + 1, day)
  }

  function MonthBefore(k: int, day: int): (r: int)
    requires day < MonthStart(k)
    ensures MonthStart(r) <= day < MonthStart(r) + MonthLength(r)
    decreases MonthStart(k) - day
  {
    NextMonth(k - 1);
    if MonthStart(k - 1) <= day then k - 1 else MonthBefore(k - 1, day)
  }

  /** The month a day lies in. */
  function MonthIndex(day: int): (k: int)
    ensures MonthStart(k) <= day < MonthStart(k) + MonthLength(k)
  {
    if day >= 0 then MonthFrom(JANUARY_1970, day) else MonthBefore(JANUARY_1970, day)
  }

  function DateInMonth(day: int): (d: int)
    ensures 1 <= d <= MonthLength(MonthIndex(day))
    ensures day == MonthStart(MonthIndex(day)) + d - 1
  {
    day - MonthStart(MonthIndex(day)) + 1
  }

  lemma LaterMonthStartsAfter(j: int, k: int)
    requires j < k
    ensures MonthStart(j) + MonthLength(j) <= MonthStart(k)
  {
    NextMonth(j);
    MonthsIncrease(j + 1, k);
  }

  lemma MonthOfDayIsUnique(day: int, j: int, k: int)
    requires MonthStart(j) <= day < MonthStart(j) + MonthLength(j)
    requires MonthStart(k) <= day < MonthStart(k) + MonthLength(k)
    ensures j == k
  {
    if j < k {
      LaterMonthStartsAfter(j, k);
    } else if k < j {
      LaterMonthStartsAfter(k, j);
    }
  }

  /** A day is in one month only, so decoding gives back what was encoded. */
  lemma DecodeDay(k: int, d: int)
    requires 1 <= d <= MonthLength(k)
    ensures MonthIndex(MonthStart(k) + d - 1) == k && DateInMonth(MonthStart(k) + d - 1) == d
  {
    var day := MonthStart(k) + d - 1;
    MonthOfDayIsUnique(day, MonthIndex(day), k);
  }

  // ---- The standard's year formula (21.4.1.3) agrees ----

  function DayFromYear(y: int): int {
    365 * (y - 1970) + (y - 1969) / 4 - (y - 1901) / 100 + (y - 1601) / 400
  }

  lemma YearLength(y: int)
    ensures DayFromYear(y + 1) - DayFromYear(y) == if IsLeap(y) then 366 else 365
  {
    QuotientStep(y - 1969, 4);
    QuotientStep(y - 1901, 100);
    QuotientStep(y - 1601, 400);
  }

  lemma QuotientStep(x: int, d: int)
    requires d == 4 || d == 100 || d == 400
    ensures (x + 1) / d - x / d == if (x + 1) % d == 0 then 1 else 0
  {
  }

  lemma MonthOfYear(y: int, m: int)
    requires 0 <= m < 12
    ensures MonthStart(12 * y + m + 1) == MonthStart(12 * y + m) + DaysOfMonth(m, IsLeap(y))
  {
    assert (12 * y + m) / 12 == y && (12 * y + m) % 12 == m;
    NextMonth(12 * y + m);
  }

  lemma ThreeMonths(y: int, m: int)
    requires 0 <= m <= 9
    ensures MonthStart(12 * y + m + 3) - MonthStart(12 * y + m)
         == DaysOfMonth(m, IsLeap(y)) + DaysOfMonth(m + 1, IsLeap(y)) + DaysOfMonth(m + 2, IsLeap(y))
  {
    hide MonthStart, DaysOfMonth, IsLeap;
    MonthOfYear(y, m);
    MonthOfYear(y, m + 1);
    MonthOfYear(y, m + 2);
  }

  lemma TwelveMonths(y: int)
    ensures MonthStart(12 * y + 12) - MonthStart(12 * y) == if IsLeap(y) then 366 else 365
  {
    hide MonthStart, IsLeap;
    ThreeMonths(y, 0);
    ThreeMonths(y, 3);
    ThreeMonths(y, 6);
    ThreeMonths(y, 9);
  }

  lemma {:induction false} YearStartsOnStandardDay(y: int)
    ensures MonthStart(12 * y) == DayFromYear(y)
    decreases if y < 1970 then 1970 - y else y - 1970
  {
    if y > 1970 {
      YearStartsOnStandardDay(y - 1);
      TwelveMonths(y - 1);
      YearLength(y - 1);
    } else if y < 1970 {
      YearStartsOnStandardDay(y + 1);
      TwelveMonths(y);
      YearLength(y);
    }
  }

  // ---- Month starts within the year (21.4.1.4) ----

  const MONTH_STARTS: seq<int> := [0, 31, 59, 90, 120, 151, 181, 212, 243, 273, 304, 334]

  /** The day of the year on which month m starts, counted from 0. */
  function StandardMonthStart(m: int, leap: bool): int
    requires 0 <= m < 12
  {
    MONTH_STARTS[m] + if leap && m >= 2 then 1 else 0
  }

  lemma MonthTableStep(m: int, leap: bool)
    requires 0 < m < 12
    ensures StandardMonthStart(m, leap) == StandardMonthStart(m - 1, leap) + DaysOfMonth(m - 1, leap)
  {
    assert m in {1, 2, 3, 4, 5, 6, 7, 8, 9, 10, 11};
  }

  lemma {:induction false} MonthStartsOnStandardDay(y: int, m: int)
    requires 0 <= m < 12
    ensures MonthStart(12 * y + m) == DayFromYear(y) + StandardMonthStart(m, IsLeap(y))
    decreases m
  {
    if m == 0 {
      YearStartsOnStandardDay(y);
    } else {
      hide MonthStart, IsLeap, DayFromYear, StandardMonthStart, DaysOfMonth;
      MonthStartsOnStandardDay(y, m - 1);
      MonthOfYear(y, m - 1);
      MonthTableStep(m, IsLeap(y));
    }
  }

  /** The day a date of the standard's calendar names; the date may lie past the month's end. */
  function StandardDay(y: int, m: int, d: int): int
    requires 0 <= m < 12
  {
    DayFromYear(y) + StandardMonthStart(m, IsLeap(y)) + d - 1
  }

  /** Year, month and date of a day are the standard's: y and m are those whose month the day lies in. */
  lemma StandardFieldsOfDay(day: int, y: int, m: int, d: int)
    requires 0 <= m < 12 && 1 <= d <= MonthLength(12 * y + m)
    requires day == StandardDay(y, m, d)
    ensures MonthIndex(day) / 12 == y && MonthIndex(day) % 12 == m && DateInMonth(day) == d
  {
    hide IsLeap, DayFromYear, StandardMonthStart, MonthStart, MonthIndex, DateInMonth;
    MonthStartsOnStandardDay(y, m);
    DecodeDay(12 * y + m, d);
    assert (12 * y + m) / 12 == y && (12 * y + m) % 12 == m;
  }

  // ---- MakeDay and the setters (21.4.1.12, 21.4.4.25, 21.4.4.21) ----

  /** MakeDay(year, month, date): the month may lie outside 0..11 and the date outside the month. */
  function MakeDay(year: int, month: int, date: int): int {
    MonthStart(12 * (year + month / 12) + month % 12) + date - 1
  }

  function Day(t: int): int {
    t / MS_PER_DAY
  }

  function TimeWithinDay(t: int): int {
    t % MS_PER_DAY
  }

  function FullYear(t: int): int {
    MonthIndex(Day(t)) / 12
  }

  function Month(t: int): int {
    MonthIndex(Day(t)) % 12
  }

  function Date(t: int): int {
    DateInMonth(Day(t))
  }

  function MakeDate(day: int, time: int): int {
    day * MS_PER_DAY + time
  }

  /** `d.setMonth(d.getMonth() + months)` */
  function AddMonths(t: int, months: int): int {
    MakeDate(MakeDay(FullYear(t), Month(t) + months, Date(t)), TimeWithinDay(t))
  }

  /** `d.setFullYear(d.getFullYear() + years)` */
  function AddYears(t: int, years: int): int {
    MakeDate(MakeDay(FullYear(t) + years, Month(t), Date(t)), TimeWithinDay(t))
  }

  function AddMinutes(t: int, minutes: int): int {
    t + minutes * 60 * 1000
  }

  predicate IsPast(date: int, now: int) {
    date < now
  }

  lemma MakeDayByIndex(year: int, month: int, date: int)
    ensures MakeDay(year, month, date) == MonthStart(12 * year + month) + date - 1
  {
    assert month == 12 * (month / 12) + month % 12;
  }

  /** Adding months moves the first of the month and keeps the distance from it, also past the month's end. */
  lemma AddMonthsByIndex(t: int, months: int)
    ensures AddMonths(t, months)
      == t + (MonthStart(MonthIndex(Day(t)) + months) - MonthStart(MonthIndex(Day(t)))) * MS_PER_DAY
  {
    var k := MonthIndex(Day(t));
    MakeDayByIndex(FullYear(t), Month(t) + months, Date(t));
    assert 12 * (k / 12) + k % 12 == k;
    assert t == Day(t) * MS_PER_DAY + TimeWithinDay(t);
  }

  lemma AddYearsIsTwelveMonthsAtOnce(t: int, years: int)
    ensures AddYears(t, years) == AddMonths(t, 12 * years)
  {
    MakeDayByIndex(FullYear(t) + years, Month(t), Date(t));
    MakeDayByIndex(FullYear(t), Month(t) + 12 * years, Date(t));
  }

  /** One month adds exactly the number of days of the month it starts from, even when the day overflows. */
  lemma OneMonthAddsItsOwnLength(t: int)
    ensures AddMonths(t, 1) == t + MonthLength(MonthIndex(Day(t))) * MS_PER_DAY
    ensures 28 * MS_PER_DAY <= AddMonths(t, 1) - t <= 31 * MS_PER_DAY
  {
    AddMonthsByIndex(t, 1);
    NextMonth(MonthIndex(Day(t)));
  }

  /** Twelve consecutive months contain one February, of this year or of the next. */
  lemma {:induction false} TwelveMonthsFrom(y: int, m: nat)
    requires m < 12
    ensures MonthStart(12 * (y + 1) + m) - MonthStart(12 * y + m)
      == if IsLeap(if m <= 1 then y else y + 1) then 366 else 365
  {
    hide IsLeap, MonthStart;
    if m == 0 {
      TwelveMonths(y);
    } else {
      TwelveMonthsFrom(y, m - 1);
      MonthOfYear(y, m - 1);
      MonthOfYear(y + 1, m - 1);
    }
  }

  /** One year adds 366 days exactly when the twelve months from the base contain a leap February. */
  lemma OneYearAddsItsLength(t: int)
    ensures AddYears(t, 1) == t + MS_PER_DAY *
      if IsLeap(if Month(t) <= 1 then FullYear(t) else FullYear(t) + 1) then 366 else 365
  {
    hide IsLeap, MonthStart, MonthIndex, AddYears, AddMonths;
    AddYearsIsTwelveMonthsAtOnce(t, 1);
    AddMonthsByIndex(t, 12);
    TwelveMonthsFrom(FullYear(t), Month(t));
  }

  /** A month later is the same date and time of day in the next month, and after December in January. */
  lemma OneMonthLater(t: int)
    ensures t == MakeDate(StandardDay(FullYear(t), Month(t), Date(t)), TimeWithinDay(t))
    ensures AddMonths(t, 1) == MakeDate(if Month(t) == 11 then StandardDay(FullYear(t) + 1, 0, Date(t))
                                        else StandardDay(FullYear(t), Month(t) + 1, Date(t)), TimeWithinDay(t))
  {
    hide IsLeap, MonthStart, DayFromYear, StandardMonthStart, MonthIndex, AddMonths;
    var y, m := FullYear(t), Month(t);
    AddMonthsByIndex(t, 1);
    MonthStartsOnStandardDay(y, m);
    if m == 11 {
      MonthStartsOnStandardDay(y + 1, 0);
    } else {
      MonthStartsOnStandardDay(y, m + 1);
    }
  }

  /** A year later is the same month, date and time of day in the next year. */
  lemma OneYearLater(t: int)
    ensures AddYears(t, 1) == MakeDate(StandardDay(FullYear(t) + 1, Month(t), Date(t)), TimeWithinDay(t))
  {
    hide IsLeap, MonthStart, DayFromYear, StandardMonthStart, MonthIndex;
    MonthStartsOnStandardDay(FullYear(t) + 1, Month(t));
    MakeDayByIndex(FullYear(t) + 1, Month(t), Date(t));
  }

  // ---- Known dates ----

  lemma KnownYears()
    ensures DayFromYear(2024) == 19723 && IsLeap(2024)
    ensures DayFromYear(2026) == 20454 && !IsLeap(2026)
  {
  }

  lemma KnownMonths()
    ensures MonthLength(12 * 2024) == 31 && MonthLength(12 * 2026 + 3) == 30
  {
    assert 12 * 2024 % 12 == 0 && (12 * 2026 + 3) % 12 == 3;
    hide IsLeap;
  }

  lemma KnownDays()
    ensures Day(1_706_659_200_000) == 19753 && TimeWithinDay(1_706_659_200_000) == 0
    ensures Day(1_776_211_200_000) == 20558 && TimeWithinDay(1_776_211_200_000) == 0
  {
  }

  /** From 15 April 2026 to 15 May, and from 31 January 2024, a leap year, to 2 March; all at midnight UTC. */
  lemma KnownMonthSteps()
    ensures AddMonths(1_776_211_200_000, 1) == 1_778_803_200_000
    ensures AddMonths(1_706_659_200_000, 1) == 1_709_337_600_000
  {
    hide IsLeap, DayFromYear, AddMonths, MonthLength, MonthIndex, DateInMonth, Day, TimeWithinDay;
    KnownYears();
    KnownMonths();
    KnownDays();
    StandardFieldsOfDay(20558, 2026, 3, 15);
    StandardFieldsOfDay(19753, 2024, 0, 31);
    OneMonthLater(1_776_211_200_000);
    OneMonthLater(1_706_659_200_000);
  }

  // ---- Twelve monthly steps against one yearly step ----

  function MonthlySteps(t: int, n: nat): int {
    if n == 0 then t else AddMonths(MonthlySteps(t, n - 1), 1)
  }

  /** The day after one monthly step from day d of month k. */
  lemma StepFromMonth(t: int, k: int, d: int)
    requires 1 <= d <= MonthLength(k) && Day(t) == MonthStart(k) + d - 1
    ensures Day(AddMonths(t, 1)) == MonthStart(k + 1) + d - 1
    ensures TimeWithinDay(AddMonths(t, 1)) == TimeWithinDay(t)
  {
    DecodeDay(k, d);
    AddMonthsByIndex(t, 1);
    var shift := MonthStart(k + 1) - MonthStart(k);
    DayOfSum(t, shift);
  }

  lemma DayOfSum(t: int, days: int)
    ensures Day(t + days * MS_PER_DAY) == Day(t) + days
    ensures TimeWithinDay(t + days * MS_PER_DAY) == TimeWithinDay(t)
  {
    var u := t + days * MS_PER_DAY;
    assert t == Day(t) * MS_PER_DAY + TimeWithinDay(t);
    assert u == Day(u) * MS_PER_DAY + TimeWithinDay(u);
  }

  /** After n monthly steps the time is d - 1 days after the start of month k, at the given time of day. */
  predicate Reaches(t: int, n: nat, k: int, d: int, time: int) {
    Day(MonthlySteps(t, n)) == MonthStart(k) + d - 1 && TimeWithinDay(MonthlySteps(t, n)) == time
  }

  lemma OneMoreStep(t: int, n: nat, k: int, d: int, time: int)
    requires 1 <= d <= MonthLength(k) && Reaches(t, n, k, d, time)
    ensures Reaches(t, n + 1, k + 1, d, time)
  {
    StepFromMonth(MonthlySteps(t, n), k, d);
  }

  /** Month k + i has a day d. */
  predicate Fits(k: int, d: int, i: int) {
    d <= MonthLength(k + i)
  }

  /**
   As long as every month on the way has the day, the day stays the same; counted from the state after `from` steps.
   */
  lemma {:induction false} StepsWithoutOverflow(t: int, from: nat, k: int, d: int, time: int, n: nat)
    requires 1 <= d <= MonthLength(k) && Reaches(t, from, k, d, time)
    requires forall i :: 1 <= i < n ==> Fits(k, d, i)
    ensures Reaches(t, from + n, k + n, d, time)
  {
    hide Reaches, MonthLength;
    if n > 0 {
      var m := n - 1;
      StepsWithoutOverflow(t, from, k, d, time, m);
      assert d <= MonthLength(k + m) by {
        assert m == 0 || Fits(k, d, m);
      }
      OneMoreStep(t, from + m, k + m, d, time);
    }
  }

  /** None of the next eleven months is too short for the day. */
  predicate FitsNextMonths(t: int) {
    forall i :: 1 <= i <= 11 ==> Fits(MonthIndex(Day(t)), Date(t), i)
  }

  /** Once the day overflows in month k + i, the steps go on from one of the first three days of the month after. */
  lemma OverflowingSteps(t: int, k: int, d: int, i: nat)
    requires 1 <= i <= 11 && 1 <= d <= MonthLength(k) && Day(t) == MonthStart(k) + d - 1
    requires forall j :: 1 <= j < i ==> Fits(k, d, j)
    requires !Fits(k, d, i)
    ensures Day(MonthlySteps(t, 12)) == MonthStart(k + 13) + (d - MonthLength(k + i)) - 1
  {
    hide AddMonths;
    StepsWithoutOverflow(t, 0, k, d, TimeWithinDay(t), i);
    var e := d - MonthLength(k + i);
    NextMonth(k + i);
    assert 1 <= e <= 3;
    var k' := k + i + 1;
    assert forall j :: 1 <= j < 12 - i ==> Fits(k', e, j);
    StepsWithoutOverflow(t, i, k', e, TimeWithinDay(t), 12 - i);
  }

  lemma {:induction false} FirstOverflow(k: int, d: int, n: nat) returns (i: nat)
    requires 1 <= n && !Fits(k, d, n)
    ensures 1 <= i <= n && !Fits(k, d, i)
    ensures forall j :: 1 <= j < i ==> Fits(k, d, j)
  {
    i := 1;
    while Fits(k, d, i)
      invariant 1 <= i <= n
      invariant forall j :: 1 <= j < i ==> Fits(k, d, j)
      decreases n - i
    {
      i := i + 1;
    }
  }

  lemma OverflowMissesTheYear(k: int, d: int, i: nat)
    requires 1 <= i <= 11 && 1 <= d <= MonthLength(k) && !Fits(k, d, i)
    ensures MonthStart(k + 13) + (d - MonthLength(k + i)) - 1 != MonthStart(k + 12) + d - 1
  {
    // a month of the year that lacks day d is shorter than the month the yearly step ends in
    NextMonth(k + 12);
    assert (k + 12) % 12 == k % 12;
    if k % 12 == 1 {
      assert (k + i) % 12 != 1;
    }
  }

  lemma YearlyStepByIndex(t: int)
    ensures Day(AddYears(t, 1)) == MonthStart(MonthIndex(Day(t)) + 12) + Date(t) - 1
    ensures TimeWithinDay(AddYears(t, 1)) == TimeWithinDay(t)
  {
    var k := MonthIndex(Day(t));
    AddYearsIsTwelveMonthsAtOnce(t, 1);
    AddMonthsByIndex(t, 12);
    DayOfSum(t, MonthStart(k + 12) - MonthStart(k));
  }

  lemma SameDaySameTime(t: int, u: int)
    requires Day(t) == Day(u) && TimeWithinDay(t) == TimeWithinDay(u)
    ensures t == u
  {
  }

  /**
   Twelve monthly renewals reach the same time as one yearly renewal exactly when no month on the way is too short.
   */
  lemma TwelveMonthsEqualOneYearIff(t: int)
    ensures MonthlySteps(t, 12) == AddYears(t, 1) <==> FitsNextMonths(t)
  {
    hide AddMonths, AddYears, MonthIndex, MonthLength;
    var k, d := MonthIndex(Day(t)), Date(t);
    YearlyStepByIndex(t);
    if FitsNextMonths(t) {
      StepsWithoutOverflow(t, 0, k, d, TimeWithinDay(t), 12);
      SameDaySameTime(MonthlySteps(t, 12), AddYears(t, 1));
    } else {
      var n :| 1 <= n <= 11 && !Fits(k, d, n);
      var i := FirstOverflow(k, d, n);
      OverflowingSteps(t, k, d, i);
      OverflowMissesTheYear(k, d, i);
    }
  }

  /** In particular from any day up to the 28th. */
  lemma TwelveMonthsFromEarlyDays(t: int)
    requires Date(t) <= 28
    ensures MonthlySteps(t, 12) == AddYears(t, 1)
  {
    assert FitsNextMonths(t);
    TwelveMonthsEqualOneYearIff(t);
  }

  // ---- Adding a month does not keep the order of dates ----

  /** The day of t is missing from the next month by more than midnight of the month after. */
  predicate SpillsOver(t: int) {
    var next := MonthLength(MonthIndex(Day(t)) + 1);
    Date(t) > next + 1 || (Date(t) == next + 1 && TimeWithinDay(t) > 0)
  }

  lemma MonthIndexIncreases(a: int, b: int)
    requires a <= b
    ensures MonthIndex(a) <= MonthIndex(b)
  {
    if MonthIndex(b) < MonthIndex(a) {
      LaterMonthStartsAfter(MonthIndex(b), MonthIndex(a));
    }
  }

  /** One month after t, on the scale of days: the start of the next month, d - 1 days and the time of day. */
  lemma MonthAfter(t: int)
    ensures AddMonths(t, 1) == (MonthStart(MonthIndex(Day(t)) + 1) + Date(t) - 1) * MS_PER_DAY + TimeWithinDay(t)
  {
    AddMonthsByIndex(t, 1);
    assert t == Day(t) * MS_PER_DAY + TimeWithinDay(t);
  }

  lemma LaterMonthEndsLater(t: int, u: int)
    requires MonthIndex(Day(t)) < MonthIndex(Day(u)) && !SpillsOver(t)
    ensures AddMonths(t, 1) <= AddMonths(u, 1)
  {
    var k := MonthIndex(Day(t));
    MonthAfter(t);
    MonthAfter(u);
    NextMonth(k + 1);
    MonthsIncrease(k + 2, MonthIndex(Day(u)) + 1);
  }

  lemma SpillIsOvertaken(t: int) returns (u: int)
    requires SpillsOver(t)
    ensures t <= u && AddMonths(u, 1) < AddMonths(t, 1)
  {
    var k := MonthIndex(Day(t));
    u := MonthStart(k + 1) * MS_PER_DAY;
    NextMonth(k);
    NextMonth(k + 1);
    assert Day(u) == MonthStart(k + 1) && TimeWithinDay(u) == 0;
    DecodeDay(k + 1, 1);
    MonthAfter(t);
    MonthAfter(u);
  }

  /** Every later time gives a later month's end exactly when the day of t does not spill over the next month. */
  lemma AddingAMonthKeepsOrderIff(t: int)
    ensures (forall u :: t <= u ==> AddMonths(t, 1) <= AddMonths(u, 1)) <==> !SpillsOver(t)
  {
    if SpillsOver(t) {
      var u := SpillIsOvertaken(t);
    } else {
      forall u | t <= u ensures AddMonths(t, 1) <= AddMonths(u, 1) {
        MonthIndexIncreases(Day(t), Day(u));
        if MonthIndex(Day(t)) == MonthIndex(Day(u)) {
          AddMonthsByIndex(t, 1);
          AddMonthsByIndex(u, 1);
        } else {
          LaterMonthEndsLater(t, u);
        }
      }
    }
  }
}
