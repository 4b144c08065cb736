/**
  Calendar periods of the activity report (features/analytics/periods.ts).

  A local day is an integer: the number of days since 1970-01-01, which is what
  `Date.parse` of a date-only string is worth in whole days.  Years, months and
  days of the month come from that number as ECMAScript defines them.
 */
module Calendar {
  import opened Wrappers

  // ----- Civil dates -----

  predicate IsLeap(year: int) {
    year % 4 == 0 && (year % 100 != 0 || year % 400 == 0)
  }

  // The multiples of 4, 100 and 400 passed before `year`.

  function Fours(year: int): int {
    (year - 1969) / 4
  }

  function Hundreds(year: int): int {
    (year - 1901) / 100
  }

  function FourHundreds(year: int): int {
    (year - 1601) / 400
  }

  /** The number of 1 January of `year`. */
  function DayFromYear(year: int): int {
    365 * (year - 1970) + Fours(year) - Hundreds(year) + FourHundreds(year)
  }

  /** One more multiple is passed exactly when the year itself is one. */
  lemma MultiplesStep(year: int)
    ensures Fours(year + 1) == Fours(year) + if year % 4 == 0 then 1 else 0
    ensures Hundreds(year + 1) == Hundreds(year) + if year % 100 == 0 then 1 else 0
    ensures FourHundreds(year + 1) == FourHundreds(year) + if year % 400 == 0 then 1 else 0
  {
  }

  lemma MultiplesNest(year: int)
    ensures year % 100 == 0 ==> year % 4 == 0
    ensures year % 400 == 0 ==> year % 100 == 0
  {
    if year % 100 == 0 {
      var k := year / 100;
      assert year == 4 * (25 * k);
    }
    if year % 400 == 0 {
      var k := year / 400;
      assert year == 100 * (4 * k);
    }
  }

  lemma YearStep(year: int)
    ensures DayFromYear(year + 1) == DayFromYear(year) + if IsLeap(year) then 366 else 365
  {
    hide Fours, Hundreds, FourHundreds;
    MultiplesStep(year);
    MultiplesNest(year);
  }

  /** The year holding day `n`, searched from `year`. */
  function YearFrom(n: int, year: int): (r: int)
    ensures DayFromYear(r) <= n < DayFromYear(r + 1)
    decreases if n < DayFromYear(year) then DayFromYear(year) - n
              else if DayFromYear(year + 1) <= n then n - DayFromYear(year) + 1
              else 0
  {
    hide Fours, Hundreds, FourHundreds;
    YearStep(year - 1);
    YearStep(year);
    if n < DayFromYear(year) then YearFrom(n, year - 1)
    else if DayFromYear(year + 1) <= n then YearFrom(n, year + 1)
    else year
  }

  function YearOf(n: int): int {
    YearFrom(n, 1970)
  }

  /** Days of the year before month `m` (0 is January; 12 closes the year). */
  function MonthOffset(leap: bool, m: int): int
    requires 0 <= m <= 12
  {
    var l := if leap then 1 else 0;
    match m
    case 0 => 0
    case 1 => 31
    case 2 => 59 + l
    case 3 => 90 + l
    case 4 => 120 + l
    case 5 => 151 + l
    case 6 => 181 + l
    case 7 => 212 + l
    case 8 => 243 + l
    case 9 => 273 + l
    case 10 => 304 + l
    case 11 => 334 + l
    case _ => 365 + l
  }

  /** The month holding the day `d` days after 1 January, searched from `m`. */
  function MonthFrom(leap: bool, d: int, m: int): (r: int)
    requires 0 <= m < 12 && MonthOffset(leap, m) <= d < MonthOffset(leap, 12)
    ensures 0 <= r < 12 && MonthOffset(leap, r) <= d < MonthOffset(leap, r + 1)
    decreases 12 - m
  {
    if d < MonthOffset(leap, m + 1) then m else MonthFrom(leap, d, m + 1)
  }

  function MonthOf(n: int): (r: int)
    ensures 0 <= r < 12
  {
    YearStep(YearOf(n));
    MonthFrom(IsLeap(YearOf(n)), n - DayFromYear(YearOf(n)), 0)
  }

  /** The number of the first day of month `i`, months counted from January of year 0. */
  function MonthFirst(i: int): int {
    DayFromYear(i / 12) + MonthOffset(IsLeap(i / 12), i % 12)
  }

  /** `Date.UTC(year, month, date)` in days: months and dates may overflow either way. */
  function MakeDay(year: int, month: int, date: int): int {
    MonthFirst(12 * year + month) + date - 1
  }

  function DateOf(n: int): int {
    n - MonthFirst(MonthIndex(n)) + 1
  }

  function MonthIndex(n: int): int {
    12 * YearOf(n) + MonthOf(n)
  }

  lemma MonthStep(i: int)
    ensures 28 <= MonthFirst(i + 1) - MonthFirst(i) <= 31
  {
    if i % 12 == 11 {
      assert (i + 1) / 12 == i / 12 + 1 && (i + 1) % 12 == 0;
      YearStep(i / 12);
    } else {
      assert (i + 1) / 12 == i / 12 && (i + 1) % 12 == i % 12 + 1;
    }
  }

  /** The Gregorian year: thirty days in April, June, September and November, 28 or 29 in February, 31 in the rest. */
  lemma MonthLengths(year: int, month: int)
    requires 0 <= month < 12
    ensures var days := MonthFirst(12 * year + month + 1) - MonthFirst(12 * year + month);
            if month == 3 || month == 5 || month == 8 || month == 10 then days == 30
            else if month != 1 then days == 31
            else days == if year % 4 == 0 && (year % 100 == 0 ==> year % 400 == 0) then 29 else 28
  {
    hide DayFromYear;
    var i := 12 * year + month;
    assert i / 12 == year && i % 12 == month;
    if month == 11 {
      assert (i + 1) / 12 == year + 1 && (i + 1) % 12 == 0;
      YearStep(year);
    } else {
      assert (i + 1) / 12 == year && (i + 1) % 12 == month + 1;
    }
  }

  lemma {:induction false} MonthsApart(i: int, j: int)
    requires i <= j
    ensures MonthFirst(i) + 28 * (j - i) <= MonthFirst(j)
    decreases j - i
  {
    hide MonthFirst;
    if i < j {
      MonthStep(i);
      MonthsApart(i + 1, j);
    }
  }

  lemma MonthIndexBounds(n: int)
    ensures MonthFirst(MonthIndex(n)) <= n < MonthFirst(MonthIndex(n) + 1)
  {
    hide DayFromYear;
    var y, m := YearOf(n), MonthOf(n);
    var i := 12 * y + m;
    assert i / 12 == y && i % 12 == m;
    YearStep(y);
    if m == 11 {
      assert (i + 1) / 12 == y + 1 && (i + 1) % 12 == 0;
    } else {
      assert (i + 1) / 12 == y && (i + 1) % 12 == m + 1;
    }
  }

  lemma MonthIndexUnique(n: int, i: int)
    requires MonthFirst(i) <= n < MonthFirst(i + 1)
    ensures MonthIndex(n) == i
  {
    hide MonthFirst, MonthIndex;
    var j := MonthIndex(n);
    MonthIndexBounds(n);
    if i < j {
      MonthsApart(i + 1, j);
    } else if j < i {
      MonthsApart(j + 1, i);
    }
  }

  /** Reading a day's date and making the day again is the identity, and the other way round. */
  lemma CivilRoundTrip(n: int, year: int, month: int, date: int)
    ensures MakeDay(YearOf(n), MonthOf(n), DateOf(n)) == n
    ensures 0 <= month < 12 && 1 <= date <= MonthFirst(12 * year + month + 1) - MonthFirst(12 * year + month) ==>
              var d := MakeDay(year, month, date);
              YearOf(d) == year && MonthOf(d) == month && DateOf(d) == date
  {
    hide MonthFirst, YearOf;
    if 0 <= month < 12 && 1 <= date <= MonthFirst(12 * year + month + 1) - MonthFirst(12 * year + month) {
      var d := MakeDay(year, month, date);
      MonthIndexUnique(d, 12 * year + month);
      assert 12 * YearOf(d) + MonthOf(d) == 12 * year + month;
    }
  }

  /** `setUTCDate(getUTCDate() + k)`: the date part may leave the month. */
  function AddDays(day: int, k: int): (r: int)
    ensures r == day + k
  {
    CivilRoundTrip(day, 0, 0, 1);
    MakeDay(YearOf(day), MonthOf(day), DateOf(day) + k)
  }

  /** `getUTCDay`: 0 is Sunday; 1970-01-01 was a Thursday. */
  function Weekday(n: int): int {
    (n + 4) % 7
  }

  /** Where the count of days begins, and another day it reaches. */
  lemma KnownDays()
    ensures MakeDay(1970, 0, 1) == 0 && Weekday(0) == 4
    ensures MakeDay(2000, 0, 1) == 10957 && Weekday(10957) == 6
  {
    FirstOfYear(1970);
    FirstOfYear(2000);
    hide MonthFirst;
  }

  lemma FirstOfYear(year: int)
    ensures MonthFirst(12 * year) == DayFromYear(year)
  {
    assert 12 * year / 12 == year && 12 * year % 12 == 0;
  }

  // ----- Periods -----

  datatype PeriodKind = Week | Month | Quarter | All

  datatype Period = Period(kind: PeriodKind, start: int, end: int)

  /** The period of `kind` containing `day`; "all" runs from `launch`. */
  function PeriodOf(kind: PeriodKind, day: int, launch: int): Period {
    match kind
    case Week =>
      var start := AddDays(day, -((Weekday(day) + 6) % 7));
      Period(kind, start, AddDays(start, 6))
    case Month =>
      Period(kind, MakeDay(YearOf(day), MonthOf(day), 1), MakeDay(YearOf(day), MonthOf(day) + 1, 0))
    case Quarter =>
      var q := MonthOf(day) / 3 * 3;
      Period(kind, MakeDay(YearOf(day), q, 1), MakeDay(YearOf(day), q + 3, 0))
    case All =>
      Period(kind, launch, day)
  }

  function PreviousPeriod(p: Period, launch: int): Option<Period> {
    if p.kind == All then None else Some(PeriodOf(p.kind, AddDays(p.start, -1), launch))
  }

  // ----- Periods by number -----
  // The calendar periods of one kind, numbered in order of time: the reference
  // against which the date arithmetic above is proved.

  /** First day of calendar period number `i`. */
  function StartOf(kind: PeriodKind, i: int): int
    requires kind != All
  {
    if kind == Week then 7 * i - 3
    else if kind == Month then MonthFirst(i)
    else MonthFirst(3 * i)
  }

  /** The number of the calendar period holding `day`. */
  function IndexOf(kind: PeriodKind, day: int): int
    requires kind != All
  {
    if kind == Week then (day + 3) / 7
    else if kind == Month then MonthIndex(day)
    else MonthIndex(day) / 3
  }

  function Numbered(kind: PeriodKind, i: int): Period
    requires kind != All
  {
    Period(kind, StartOf(kind, i), StartOf(kind, i + 1) - 1)
  }

  lemma {:induction false} StartsApart(kind: PeriodKind, i: int, j: int)
    requires kind != All
    requires i <= j
    ensures StartOf(kind, i) + 7 * (j - i) <= StartOf(kind, j)
    ensures kind != Week ==> StartOf(kind, i) + 28 * (j - i) <= StartOf(kind, j)
  {
    hide MonthFirst;
    if kind == Month {
      MonthsApart(i, j);
    } else if kind == Quarter {
      MonthsApart(3 * i, 3 * j);
    }
  }

  lemma IndexBounds(kind: PeriodKind, day: int)
    requires kind != All
    ensures StartOf(kind, IndexOf(kind, day)) <= day < StartOf(kind, IndexOf(kind, day) + 1)
  {
    hide MonthFirst, MonthIndex;
    if kind != Week {
      MonthIndexBounds(day);
    }
    if kind == Quarter {
      var m := MonthIndex(day);
      MonthsApart(3 * (m / 3), m);
      MonthsApart(m + 1, 3 * (m / 3) + 3);
    }
  }

  lemma IndexUnique(kind: PeriodKind, day: int, i: int)
    requires kind != All
    requires StartOf(kind, i) <= day < StartOf(kind, i + 1)
    ensures IndexOf(kind, day) == i
  {
    hide MonthFirst, MonthIndex, StartOf, IndexOf;
    var j := IndexOf(kind, day);
    IndexBounds(kind, day);
    if i < j {
      StartsApart(kind, i + 1, j);
    } else if j < i {
      StartsApart(kind, j + 1, i);
    }
  }

  /** The order of days is the order of their periods. */
  lemma IndexMonotone(kind: PeriodKind, a: int, b: int)
    requires kind != All
    requires a <= b
    ensures IndexOf(kind, a) <= IndexOf(kind, b)
  {
    hide StartOf, IndexOf;
    IndexBounds(kind, a);
    IndexBounds(kind, b);
    if IndexOf(kind, b) < IndexOf(kind, a) {
      StartsApart(kind, IndexOf(kind, b) + 1, IndexOf(kind, a));
    }
  }

  lemma MondayBefore(day: int)
    ensures day - (Weekday(day) + 6) % 7 == 7 * ((day + 3) / 7) - 3
  {
  }

  lemma QuarterOfMonth(year: int, m: int)
    requires 0 <= m < 12
    ensures 12 * year + m / 3 * 3 == 3 * ((12 * year + m) / 3)
  {
  }

  /** The date arithmetic of `PeriodOf` lands on the numbered period. */
  lemma PeriodOfIsNumbered(kind: PeriodKind, day: int, launch: int)
    requires kind != All
    ensures PeriodOf(kind, day, launch) == Numbered(kind, IndexOf(kind, day))
  {
    hide MonthFirst, YearOf, MonthOf, AddDays, Weekday;
    if kind == Week {
      MondayBefore(day);
    } else if kind == Month {
      assert 12 * YearOf(day) + (MonthOf(day) + 1) == MonthIndex(day) + 1;
    } else {
      QuarterOfMonth(YearOf(day), MonthOf(day));
    }
  }

  // ----- The calendar tiles time -----

  /** A period holds its day, and every day inside it yields the same period. */
  lemma PeriodHoldsItsDays(kind: PeriodKind, day: int, other: int, launch: int)
    requires kind != All
    ensures var p := PeriodOf(kind, day, launch);
            p.start <= day <= p.end &&
            (p.start <= other <= p.end <==> PeriodOf(kind, other, launch) == p)
  {
    hide PeriodOf, StartOf, IndexOf;
    PeriodOfIsNumbered(kind, day, launch);
    PeriodOfIsNumbered(kind, other, launch);
    IndexBounds(kind, day);
    IndexBounds(kind, other);
    var p := PeriodOf(kind, day, launch);
    if p.start <= other <= p.end {
      IndexUnique(kind, other, IndexOf(kind, day));
    }
  }

  lemma BoundaryDays(kind: PeriodKind, i: int, launch: int)
    requires kind != All
    ensures PeriodOf(kind, StartOf(kind, i), launch) == Numbered(kind, i)
    ensures PeriodOf(kind, StartOf(kind, i) - 1, launch) == Numbered(kind, i - 1)
  {
    hide PeriodOf, StartOf, IndexOf;
    StartsApart(kind, i - 1, i);
    StartsApart(kind, i, i + 1);
    IndexUnique(kind, StartOf(kind, i), i);
    IndexUnique(kind, StartOf(kind, i) - 1, i - 1);
    PeriodOfIsNumbered(kind, StartOf(kind, i), launch);
    PeriodOfIsNumbered(kind, StartOf(kind, i) - 1, launch);
  }

  lemma PreviousIsNumbered(kind: PeriodKind, i: int, launch: int)
    requires kind != All
    ensures PreviousPeriod(Numbered(kind, i), launch) == Some(Numbered(kind, i - 1))
  {
    hide PeriodOf, StartOf, IndexOf, AddDays;
    BoundaryDays(kind, i, launch);
  }

  /** The previous period ends the day before this one starts, and the period after it is this one again. */
  lemma PreviousEndsTheDayBefore(kind: PeriodKind, day: int, launch: int)
    requires kind != All
    ensures var p := PeriodOf(kind, day, launch);
            var q := PreviousPeriod(p, launch);
            q.Some? && q.value.end + 1 == p.start && q.value.start <= q.value.end &&
            PeriodOf(kind, q.value.end + 1, launch) == p &&
            PreviousPeriod(PeriodOf(kind, p.end + 1, launch), launch) == Some(p)
  {
    hide PeriodOf, StartOf, IndexOf, PreviousPeriod;
    var i := IndexOf(kind, day);
    PeriodOfIsNumbered(kind, day, launch);
    PreviousIsNumbered(kind, i, launch);
    PreviousIsNumbered(kind, i + 1, launch);
    StartsApart(kind, i - 1, i);
    BoundaryDays(kind, i, launch);
    BoundaryDays(kind, i + 1, launch);
  }

  /** A week is Monday to Sunday. */
  lemma WeekShape(day: int, launch: int)
    ensures var w := PeriodOf(Week, day, launch);
            Weekday(w.start) == 1 && Weekday(w.end) == 0 && w.end - w.start == 6
  {
    hide PeriodOf, IndexOf;
    PeriodOfIsNumbered(Week, day, launch);
  }

  /** A month runs from its day 1 to the day before the next day 1. */
  lemma MonthShape(day: int, launch: int)
    ensures var p := PeriodOf(Month, day, launch);
            YearOf(p.start) == YearOf(day) && MonthOf(p.start) == MonthOf(day) && DateOf(p.start) == 1 &&
            MonthOf(p.end + 1) == (MonthOf(day) + 1) % 12 && DateOf(p.end + 1) == 1
  {
    hide MonthFirst, YearOf, MonthOf, DateOf, PeriodOf, IndexOf;
    PeriodOfIsNumbered(Month, day, launch);
    IndexParts(day);
    var i := 12 * YearOf(day) + MonthOf(day);
    MonthParts(YearOf(day), MonthOf(day));
    FirstDayDates(i);
    FirstDayDates(i + 1);
  }

  /** A quarter starts in January, April, July or October, and the next one three months later. */
  lemma QuarterShape(day: int, launch: int)
    ensures var p := PeriodOf(Quarter, day, launch);
            YearOf(p.start) == YearOf(day) && MonthOf(p.start) == MonthOf(day) / 3 * 3 && DateOf(p.start) == 1 &&
            MonthOf(p.end + 1) == (MonthOf(day) / 3 * 3 + 3) % 12 && DateOf(p.end + 1) == 1
  {
    hide MonthFirst, YearOf, MonthOf, DateOf, PeriodOf, IndexOf;
    PeriodOfIsNumbered(Quarter, day, launch);
    IndexParts(day);
    var q := 12 * YearOf(day) + MonthOf(day) / 3 * 3;
    QuarterOfMonth(YearOf(day), MonthOf(day));
    MonthParts(YearOf(day), MonthOf(day) / 3 * 3);
    FirstDayDates(q);
    FirstDayDates(q + 3);
  }

  lemma MonthParts(year: int, m: int)
    requires 0 <= m < 12
    ensures (12 * year + m) / 12 == year && (12 * year + m) % 12 == m
    ensures (12 * year + m + 1) % 12 == (m + 1) % 12 && (12 * year + m + 3) % 12 == (m + 3) % 12
  {
  }

  lemma IndexParts(day: int)
    ensures IndexOf(Week, day) == (day + 3) / 7
    ensures IndexOf(Month, day) == 12 * YearOf(day) + MonthOf(day)
    ensures IndexOf(Quarter, day) == (12 * YearOf(day) + MonthOf(day)) / 3
  {
  }

  lemma FirstDayDates(i: int)
    ensures DateOf(MonthFirst(i)) == 1
    ensures YearOf(MonthFirst(i)) == i / 12 && MonthOf(MonthFirst(i)) == i % 12
  {
    hide MonthFirst, YearOf, MonthOf;
    MonthStep(i);
    var y, m := i / 12, i % 12;
    assert 12 * y + m == i;
    assert MakeDay(y, m, 1) == MonthFirst(i);
    CivilRoundTrip(0, y, m, 1);
  }

  // ----- Every period from launch to today -----

  /** Periods number `i` to `j` of one kind. */
  function NumberedFrom(kind: PeriodKind, i: int, j: int): (r: seq<Period>)
    requires kind != All
    decreases j - i
  {
    if j < i then [] else [Numbered(kind, i)] + NumberedFrom(kind, i + 1, j)
  }

  /** The value `PeriodsBetween` computes. */
  function PeriodsFrom(kind: PeriodKind, launch: int, today: int): seq<Period> {
    if kind == All then [PeriodOf(All, today, launch)]
    else NumberedFrom(kind, IndexOf(kind, launch), IndexOf(kind, today))
  }

  method PeriodsBetween(kind: PeriodKind, launch: int, today: int) returns (out: seq<Period>)
    ensures out == PeriodsFrom(kind, launch, today)
  {
    hide PeriodOf, StartOf, IndexOf, AddDays;
    if kind == All {
      return [PeriodOf(All, today, launch)];
    }
    out := [];
    var p := PeriodOf(kind, launch, launch);
    ghost var i := IndexOf(kind, launch);
    ghost var last := IndexOf(kind, today);
    PeriodOfIsNumbered(kind, launch, launch);
    StartsBefore(kind, i, today);
    while p.start <= today
      invariant p == Numbered(kind, i)
      invariant p.start <= today <==> i <= last
      invariant out + NumberedFrom(kind, i, last) == PeriodsFrom(kind, launch, today)
      decreases today - p.start
    {
      out := out + [p];
      StartsApart(kind, i, i + 1);
      StartsApart(kind, i + 1, i + 2);
      IndexUnique(kind, p.end + 1, i + 1);
      PeriodOfIsNumbered(kind, p.end + 1, launch);
      p := PeriodOf(kind, AddDays(p.end, 1), launch);
      i := i + 1;
      StartsBefore(kind, i, today);
    }
  }

  /** A numbered period has started by `today` exactly when it is not after today's. */
  lemma StartsBefore(kind: PeriodKind, i: int, today: int)
    requires kind != All
    ensures StartOf(kind, i) <= today <==> i <= IndexOf(kind, today)
  {
    hide StartOf, IndexOf;
    var j := IndexOf(kind, today);
    IndexBounds(kind, today);
    if i <= j {
      StartsApart(kind, i, j);
    } else {
      StartsApart(kind, j + 1, i);
    }
  }

  lemma {:induction false} NumberedFromAt(kind: PeriodKind, i: int, j: int)
    requires kind != All
    ensures |NumberedFrom(kind, i, j)| == if j < i then 0 else j - i + 1
    ensures forall k :: 0 <= k < |NumberedFrom(kind, i, j)| ==> NumberedFrom(kind, i, j)[k] == Numbered(kind, i + k)
    decreases j - i
  {
    hide StartOf;
    if i <= j {
      NumberedFromAt(kind, i + 1, j);
    }
  }

  predicate Holds(p: Period, day: int) {
    p.start <= day <= p.end
  }

  /**
    From launch to today the periods are contiguous, the first holds launch and
    the last holds today, and every day between is held by exactly one of them.
   */
  lemma PeriodsTile(kind: PeriodKind, launch: int, today: int, day: int)
    requires kind != All
    requires launch <= today
    ensures var ps := PeriodsFrom(kind, launch, today);
            |ps| > 0 && Holds(ps[0], launch) && Holds(ps[|ps| - 1], today) &&
            (forall k :: 0 <= k < |ps| - 1 ==> ps[k].end + 1 == ps[k + 1].start) &&
            (launch <= day <= today ==>
               exists k :: 0 <= k < |ps| && Holds(ps[k], day) && forall l :: 0 <= l < |ps| && Holds(ps[l], day) ==> l == k)
  {
    hide StartOf, IndexOf, NumberedFrom;
    var i, j := IndexOf(kind, launch), IndexOf(kind, today);
    var ps := PeriodsFrom(kind, launch, today);
    IndexMonotone(kind, launch, today);
    NumberedFromAt(kind, i, j);
    IndexBounds(kind, launch);
    IndexBounds(kind, today);
    if launch <= day <= today {
      IndexMonotone(kind, launch, day);
      IndexMonotone(kind, day, today);
      IndexBounds(kind, day);
      var k := IndexOf(kind, day) - i;
      assert Holds(ps[k], day);
      forall l | 0 <= l < |ps| && Holds(ps[l], day) ensures l == k {
        IndexUnique(kind, day, i + l);
      }
    }
  }
}
