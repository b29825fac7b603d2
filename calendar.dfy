/**
 * Calendar days in the proleptic Gregorian calendar, as the date-fns helpers
 * (startOfYear, startOfMonth, startOfWeek, endOf…, isSame…) see a document
 * date read as local midnight. Time of day plays no part: a document carries
 * a calendar day and two days compare by their day number.
 */
module Calendar {

  /** Year, month (1-12) and day of month; `Date` keeps only the valid ones. */
  datatype YearMonthDay = YMD(year: int, month: int, day: int)

  predicate IsLeapYear(y: int) {
    y % 4 == 0 && (y % 100 != 0 || y % 400 == 0)
  }

  function DaysInYear(y: int): int {
    if IsLeapYear(y) then 366 else 365
  }

  function DaysInMonth(y: int, m: int): int {
    if m == 2 then (if IsLeapYear(y) then 29 else 28)
    else if m == 4 || m == 6 || m == 9 || m == 11 then 30
    else 31
  }

  predicate IsValidDay(d: YearMonthDay) {
    1 <= d.month <= 12 && 1 <= d.day <= DaysInMonth(d.year, d.month)
  }

  type Date = d: YearMonthDay | IsValidDay(d) witness YMD(1970, 1, 1)

  /** A day of the week, 0 = Sunday … 6 = Saturday (the numbering of JavaScript's getDay). */
  type Weekday = w: int | 0 <= w < 7

  /** Days of the year before the first day of month `m` (month 13 stands for the next year). */
  function DaysBeforeMonth(y: int, m: int): int
    requires 1 <= m <= 13
  {
    var common :=
      if m == 1 then 0 else if m == 2 then 31 else if m == 3 then 59
      else if m == 4 then 90 else if m == 5 then 120 else if m == 6 then 151
      else if m == 7 then 181 else if m == 8 then 212 else if m == 9 then 243
      else if m == 10 then 273 else if m == 11 then 304 else if m == 12 then 334
      else 365;
    common + (if m > 2 && IsLeapYear(y) then 1 else 0)
  }

  /** Day number of 1 January of year `y`, counted from 1 January of year 0. */
  function YearStartDay(y: int): int {
    365 * y + (y + 3) / 4 - (y + 99) / 100 + (y + 399) / 400
  }

  /** Days since 0000-01-01: the order of `getTime()` on local midnights. */
  function DayNumber(d: Date): int {
    YearStartDay(d.year) + DaysBeforeMonth(d.year, d.month) + d.day - 1
  }

  /** 0000-01-01 was a Saturday. */
  function WeekdayOf(d: Date): Weekday {
    (DayNumber(d) + 6) % 7
  }

  lemma YearStartStep(y: int)
    ensures YearStartDay(y + 1) == YearStartDay(y) + DaysInYear(y)
  {
    Multiples4(y);
    Multiples100(y);
    Multiples400(y);
    var by4, by100, by400 := y % 4 == 0, y % 100 == 0, y % 400 == 0;
    if by100 {
      Divides100(y);
    }
    if by400 {
      Divides400(y);
    }
    var step := (if by4 then 1 else 0) - (if by100 then 1 else 0) + (if by400 then 1 else 0);
    assert DaysInYear(y) == 365 + step;
  }

  lemma Divides100(y: int)
    requires y % 100 == 0
    ensures y % 4 == 0
  {
    var k := y / 100;
    assert y == 4 * (25 * k);
  }

  lemma Divides400(y: int)
    requires y % 400 == 0
    ensures y % 100 == 0
  {
    var k := y / 400;
    assert y == 100 * (4 * k);
  }

  /** Multiples of 4, 100 and 400 up to `y + 1` exceed those up to `y` by one exactly when they divide `y`. */
  lemma Multiples4(y: int)
    ensures (y + 4) / 4 == (y + 3) / 4 + (if y % 4 == 0 then 1 else 0)
  {
  }

  lemma Multiples100(y: int)
    ensures (y + 100) / 100 == (y + 99) / 100 + (if y % 100 == 0 then 1 else 0)
  {
  }

  lemma Multiples400(y: int)
    ensures (y + 400) / 400 == (y + 399) / 400 + (if y % 400 == 0 then 1 else 0)
  {
  }

  lemma {:induction false} YearStartMonotone(a: int, b: int)
    requires a < b
    ensures YearStartDay(a) + DaysInYear(a) <= YearStartDay(b)
    decreases b - a
  {
    YearStartStep(a);
    if a + 1 < b {
      YearStartMonotone(a + 1, b);
    }
  }

  lemma DaysBeforeMonthStep(y: int, m: int)
    requires 1 <= m <= 12
    ensures DaysBeforeMonth(y, m + 1) == DaysBeforeMonth(y, m) + DaysInMonth(y, m)
  {
  }

  lemma DaysBeforeMonthMonotone(y: int, a: int, b: int)
    requires 1 <= a <= b <= 13
    ensures DaysBeforeMonth(y, a) <= DaysBeforeMonth(y, b)
  {
  }

  /** Where a day sits inside its month and its year. */
  lemma DayNumberBounds(d: Date)
    ensures YearStartDay(d.year) + DaysBeforeMonth(d.year, d.month) <= DayNumber(d)
    ensures DayNumber(d) < YearStartDay(d.year) + DaysBeforeMonth(d.year, d.month + 1)
    ensures DayNumber(d) < YearStartDay(d.year) + DaysInYear(d.year)
  {
    DaysBeforeMonthStep(d.year, d.month);
    DaysBeforeMonthMonotone(d.year, d.month + 1, 13);
  }

  /** Calendar order: year, then month, then day. */
  predicate Precedes(a: Date, b: Date) {
    a.year < b.year
    || (a.year == b.year && a.month < b.month)
    || (a.year == b.year && a.month == b.month && a.day < b.day)
  }

  /** Day numbers order days as the calendar does, and tell different days apart. */
  lemma DayNumberOrder(a: Date, b: Date)
    ensures Precedes(a, b) <==> DayNumber(a) < DayNumber(b)
    ensures a == b <==> DayNumber(a) == DayNumber(b)
  {
    PrecedesBefore(a, b);
    PrecedesBefore(b, a);
  }

  lemma PrecedesBefore(a: Date, b: Date)
    ensures Precedes(a, b) ==> DayNumber(a) < DayNumber(b)
  {
    DayNumberBounds(a);
    DayNumberBounds(b);
    if a.year < b.year {
      YearStartMonotone(a.year, b.year);
    } else if a.year == b.year && a.month < b.month {
      DaysBeforeMonthMonotone(a.year, a.month + 1, b.month);
    }
  }

  // ---------------------------------------------------------------- stepping by days

  function NextDay(d: Date): (r: Date)
    ensures DayNumber(r) == DayNumber(d) + 1
  {
    DayNumberBounds(d);
    if d.day < DaysInMonth(d.year, d.month) then
      YMD(d.year, d.month, d.day + 1)
    else if d.month < 12 then
      DaysBeforeMonthStep(d.year, d.month);
      YMD(d.year, d.month + 1, 1)
    else
      YearStartStep(d.year);
      YMD(d.year + 1, 1, 1)
  }

  function PreviousDay(d: Date): (r: Date)
    ensures DayNumber(r) == DayNumber(d) - 1
  {
    if d.day > 1 then
      YMD(d.year, d.month, d.day - 1)
    else if d.month > 1 then
      DaysBeforeMonthStep(d.year, d.month - 1);
      YMD(d.year, d.month - 1, DaysInMonth(d.year, d.month - 1))
    else
      YearStartStep(d.year - 1);
      YMD(d.year - 1, 12, 31)
  }

  /** date-fns addDays for a whole number of days. */
  function AddDays(d: Date, k: int): (r: Date)
    ensures DayNumber(r) == DayNumber(d) + k
    decreases if k < 0 then -k else k
  {
    if k == 0 then d
    else if k > 0 then AddDays(NextDay(d), k - 1)
    else AddDays(PreviousDay(d), k + 1)
  }

  // ---------------------------------------------------------------- date-fns helpers

  function StartOfYear(d: Date): Date { YMD(d.year, 1, 1) }

  function StartOfMonth(d: Date): Date { YMD(d.year, d.month, 1) }

  /** date-fns startOfWeek with the given `weekStartsOn`. */
  function StartOfWeek(d: Date, weekStartsOn: Weekday): Date {
    AddDays(d, -((WeekdayOf(d) - weekStartsOn) % 7))
  }

  function EndOfYear(d: Date): Date { YMD(d.year, 12, 31) }

  function EndOfMonth(d: Date): Date { YMD(d.year, d.month, DaysInMonth(d.year, d.month)) }

  function EndOfWeek(d: Date, weekStartsOn: Weekday): Date {
    AddDays(StartOfWeek(d, weekStartsOn), 6)
  }

  predicate IsSameYear(a: Date, b: Date) { a.year == b.year }

  predicate IsSameMonth(a: Date, b: Date) { a.year == b.year && a.month == b.month }

  /** date-fns isSameWeek: both days have the same start of week. */
  predicate IsSameWeek(a: Date, b: Date, weekStartsOn: Weekday) {
    StartOfWeek(a, weekStartsOn) == StartOfWeek(b, weekStartsOn)
  }

  predicate IsSameDay(a: Date, b: Date) { a == b }

  /** Weekdays advance with day numbers, modulo seven. */
  lemma WeekdayShift(a: Date, b: Date)
    ensures WeekdayOf(b) == (WeekdayOf(a) + (DayNumber(b) - DayNumber(a))) % 7
  {
    ShiftMod7(DayNumber(a), DayNumber(b));
  }

  lemma ShiftWeek(w: int, k: int)
    requires 0 <= w < 7 && k == 7
    ensures (w + k) % 7 == w
  {
  }

  lemma ShiftMod7(x: int, y: int)
    ensures (y + 6) % 7 == ((x + 6) % 7 + (y - x)) % 7
  {
  }

  lemma StartOfWeekFacts(d: Date, weekStartsOn: Weekday)
    ensures WeekdayOf(StartOfWeek(d, weekStartsOn)) == weekStartsOn
    ensures DayNumber(d) - 6 <= DayNumber(StartOfWeek(d, weekStartsOn)) <= DayNumber(d)
  {
    var k := (WeekdayOf(d) - weekStartsOn) % 7;
    WeekdayShift(d, StartOfWeek(d, weekStartsOn));
    BackToWeekStart(WeekdayOf(d), weekStartsOn);
  }

  lemma BackToWeekStart(w: int, ws: int)
    requires 0 <= w < 7 && 0 <= ws < 7
    ensures 0 <= (w - ws) % 7 <= 6
    ensures (w + -((w - ws) % 7)) % 7 == ws
  {
  }

  /** A day at most six days after a week start has that week start as its start of week. */
  lemma WithinWeek(s: Date, d: Date, weekStartsOn: Weekday)
    requires WeekdayOf(s) == weekStartsOn
    requires DayNumber(s) <= DayNumber(d) <= DayNumber(s) + 6
    ensures StartOfWeek(d, weekStartsOn) == s
  {
    var j := DayNumber(d) - DayNumber(s);
    WeekdayShift(s, d);
    OffsetInWeek(weekStartsOn, j);
    StartOfWeekDay(d, weekStartsOn);
    DayNumberOrder(StartOfWeek(d, weekStartsOn), s);
  }

  lemma StartOfWeekDay(d: Date, weekStartsOn: Weekday)
    ensures DayNumber(StartOfWeek(d, weekStartsOn)) == DayNumber(d) - (WeekdayOf(d) - weekStartsOn) % 7
  {
  }

  lemma OffsetInWeek(ws: int, j: int)
    requires 0 <= ws < 7 && 0 <= j <= 6
    ensures ((ws + j) % 7 - ws) % 7 == j
  {
  }

  // ---------------------------------------------------------------- periods

  /** The granularities at which days are bucketed. */
  datatype Span = Years | Months | Weeks(weekStartsOn: Weekday) | Days

  /** The first day of the period that contains `d`. */
  function PeriodStart(span: Span, d: Date): Date {
    match span
    case Years => StartOfYear(d)
    case Months => StartOfMonth(d)
    case Weeks(ws) => StartOfWeek(d, ws)
    case Days => d
  }

  /** The last day of the period that begins on `s`. */
  function PeriodEnd(span: Span, s: Date): Date {
    match span
    case Years => EndOfYear(s)
    case Months => EndOfMonth(s)
    case Weeks(ws) => AddDays(s, 6)
    case Days => s
  }

  /** The first day of the period after the one that begins on `s`. */
  function NextPeriod(span: Span, s: Date): Date {
    NextDay(PeriodEnd(span, s))
  }

  predicate IsPeriodStart(span: Span, s: Date) {
    match span
    case Years => s.month == 1 && s.day == 1
    case Months => s.day == 1
    case Weeks(ws) => WeekdayOf(s) == ws
    case Days => true
  }

  /** A day lies in the period that begins on `s` exactly when its period start is `s`. */
  lemma InPeriod(span: Span, s: Date, d: Date)
    requires IsPeriodStart(span, s)
    ensures DayNumber(s) <= DayNumber(d) <= DayNumber(PeriodEnd(span, s))
            <==> PeriodStart(span, d) == s
  {
    DayNumberOrder(s, d);
    DayNumberOrder(d, PeriodEnd(span, s));
    match span
    case Years =>
    case Months =>
    case Days =>
    case Weeks(ws) =>
      StartOfWeekFacts(d, ws);
      if DayNumber(s) <= DayNumber(d) <= DayNumber(s) + 6 {
        WithinWeek(s, d, ws);
      }
  }

  /** The period start of a day is a period start, at or before the day, and its period reaches the day. */
  lemma PeriodStartFacts(span: Span, d: Date)
    ensures IsPeriodStart(span, PeriodStart(span, d))
    ensures DayNumber(PeriodStart(span, d)) <= DayNumber(d)
    ensures DayNumber(d) <= DayNumber(PeriodEnd(span, PeriodStart(span, d)))
  {
    var s := PeriodStart(span, d);
    if span.Weeks? {
      StartOfWeekFacts(d, span.weekStartsOn);
    }
    InPeriod(span, s, d);
  }

  /** Periods follow each other without gap or overlap. */
  lemma NextPeriodFacts(span: Span, s: Date)
    requires IsPeriodStart(span, s)
    ensures IsPeriodStart(span, NextPeriod(span, s))
    ensures DayNumber(NextPeriod(span, s)) == DayNumber(PeriodEnd(span, s)) + 1
    ensures DayNumber(s) < DayNumber(NextPeriod(span, s))
  {
    PeriodEndNotBefore(span, s);
    match span
    case Years => NextYearStart(s);
    case Months => NextMonthStart(s);
    case Weeks(ws) => NextWeekStart(s, ws);
    case Days =>
  }

  lemma NextWeekStart(s: Date, ws: Weekday)
    requires WeekdayOf(s) == ws
    ensures WeekdayOf(NextDay(AddDays(s, 6))) == ws
  {
    var n := NextDay(AddDays(s, 6));
    WeekdayShift(s, n);
    ShiftWeek(WeekdayOf(s), DayNumber(n) - DayNumber(s));
  }

  lemma PeriodEndNotBefore(span: Span, s: Date)
    ensures DayNumber(s) <= DayNumber(PeriodEnd(span, s))
  {
    match span
    case Years => DayNumberOrder(s, EndOfYear(s));
    case Months => DayNumberOrder(s, EndOfMonth(s));
    case Weeks(ws) =>
    case Days =>
  }

  lemma NextYearStart(s: Date)
    ensures NextDay(EndOfYear(s)) == YMD(s.year + 1, 1, 1)
  {
  }

  lemma NextMonthStart(s: Date)
    ensures NextDay(EndOfMonth(s)).day == 1
  {
  }

  /** Taking the period start keeps the order of days. */
  lemma PeriodStartMonotone(span: Span, a: Date, b: Date)
    requires DayNumber(a) <= DayNumber(b)
    ensures DayNumber(PeriodStart(span, a)) <= DayNumber(PeriodStart(span, b))
  {
    var sa, sb := PeriodStart(span, a), PeriodStart(span, b);
    PeriodStartFacts(span, a);
    PeriodStartFacts(span, b);
    if DayNumber(sb) < DayNumber(sa) {
      InPeriod(span, sb, a);
    }
  }

  /** A period start is its own period start. */
  lemma PeriodStartOf(span: Span, s: Date)
    requires IsPeriodStart(span, s)
    ensures PeriodStart(span, s) == s
  {
    InPeriod(span, s, s);
    PeriodStartFacts(span, s);
  }

  // ---------------------------------------------------------------- sorted lists

  /** Two strictly decreasing sequences with the same elements are equal. */
  lemma {:induction false} SameDescending(a: seq<int>, b: seq<int>)
    requires forall i, j :: 0 <= i < j < |a| ==> a[j] < a[i]
    requires forall i, j :: 0 <= i < j < |b| ==> b[j] < b[i]
    requires forall x :: x in a <==> x in b
    ensures a == b
    decreases |a|
  {
    assert |a| > 0 ==> a[0] in a && a[0] in b;
    assert |b| > 0 ==> b[0] in b && b[0] in a;
    if a != [] && b != [] {
      var j :| 0 <= j < |b| && b[j] == a[0];
      var i :| 0 <= i < |a| && a[i] == b[0];
      assert b[j] <= b[0] && a[i] <= a[0];
      TailMembers(a, b);
      TailMembers(b, a);
      SameDescending(a[1..], b[1..]);
      assert a == [a[0]] + a[1..] && b == [b[0]] + b[1..];
    }
  }

  /** Below equal heads, the rest of one descending list is in the rest of the other. */
  lemma TailMembers(a: seq<int>, b: seq<int>)
    requires a != [] && b != [] && a[0] == b[0]
    requires forall i, j :: 0 <= i < j < |a| ==> a[j] < a[i]
    requires forall i, j :: 0 <= i < j < |b| ==> b[j] < b[i]
    requires forall x :: x in a ==> x in b
    ensures forall x :: x in a[1..] ==> x in b[1..]
  {
    forall x | x in a[1..]
      ensures x in b[1..]
    {
      var n :| 0 <= n < |a| - 1 && a[n + 1] == x;
      assert x < a[0] && x in a;
      var m :| 0 <= m < |b| && b[m] == x;
      assert m != 0 && b[1..][m - 1] == x;
    }
  }

  predicate Ascending(ds: seq<Date>) {
    forall i, j :: 0 <= i < j < |ds| ==> DayNumber(ds[i]) < DayNumber(ds[j])
  }

  /** Two lists of days in strictly ascending order with the same days are equal. */
  lemma SameAscending(a: seq<Date>, b: seq<Date>)
    requires Ascending(a) && Ascending(b)
    requires forall d :: d in a <==> d in b
    ensures a == b
  {
    var na := seq(|a|, i requires 0 <= i < |a| => -DayNumber(a[i]));
    var nb := seq(|b|, i requires 0 <= i < |b| => -DayNumber(b[i]));
    NegatedMembers(a, b, na, nb);
    NegatedMembers(b, a, nb, na);
    SameDescending(na, nb);
    forall i | 0 <= i < |a|
      ensures a[i] == b[i]
    {
      assert na[i] == nb[i];
      DayNumberOrder(a[i], b[i]);
    }
  }

  /** A negated day number of `a` is one of `b` when the days of `a` are days of `b`. */
  lemma NegatedMembers(a: seq<Date>, b: seq<Date>, na: seq<int>, nb: seq<int>)
    requires forall d :: d in a ==> d in b
    requires |na| == |a| && forall i :: 0 <= i < |a| ==> na[i] == -DayNumber(a[i])
    requires |nb| == |b| && forall i :: 0 <= i < |b| ==> nb[i] == -DayNumber(b[i])
    ensures forall x :: x in na ==> x in nb
  {
    forall x | x in na
      ensures x in nb
    {
      var i :| 0 <= i < |na| && na[i] == x;
      assert a[i] in b;
      var j :| 0 <= j < |b| && b[j] == a[i];
      assert nb[j] == x;
    }
  }
}
