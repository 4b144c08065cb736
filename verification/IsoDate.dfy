/**
  Days as `YYYY-MM-DD` strings.  The periods and the rollup compare days as
  strings (features/analytics/periods.ts:72, rollup.ts:76); for four-digit years
  that is the order of the days themselves, so the other modules use numbers.
 */
module IsoDate {
  import opened Calendar
  import opened Text

  predicate FourDigitYear(n: int) {
    0 <= YearOf(n) < 10000
  }

  lemma DateInMonth(n: int)
    ensures 1 <= DateOf(n) <= 31
  {
    hide MonthFirst, MonthIndex;
    MonthIndexBounds(n);
    MonthStep(MonthIndex(n));
  }

  /** `toISOString().slice(0, 10)`. */
  function Iso(n: int): (s: string)
    requires FourDigitYear(n)
    ensures |s| == 10
  {
    DateInMonth(n);
    Pad(YearOf(n), 4) + ("-" + (Pad(MonthOf(n) + 1, 2) + ("-" + Pad(DateOf(n), 2))))
  }

  /** `new Date(s + "T00:00:00Z")` in days. */
  function DayOf(s: string): int
    requires |s| == 10 && AllDigits(s[..4]) && AllDigits(s[5..7]) && AllDigits(s[8..])
  {
    MakeDay(Value(s[..4]), Value(s[5..7]) - 1, Value(s[8..]))
  }

  lemma Powers()
    ensures Pow10(2) == 100 && Pow10(4) == 10000
  {
    assert Pow10(1) == 10;
    assert Pow10(3) == 1000;
  }

  /** Reading a printed day gives the day back. */
  lemma IsoRoundTrip(n: int)
    requires FourDigitYear(n)
    ensures var s := Iso(n);
            AllDigits(s[..4]) && AllDigits(s[5..7]) && AllDigits(s[8..]) && s[4] == s[7] == '-' && DayOf(s) == n
  {
    hide YearOf, MonthOf, DateOf, MonthFirst, Pow10;
    DateInMonth(n);
    Powers();
    var s := Iso(n);
    var y, m, d := Pad(YearOf(n), 4), Pad(MonthOf(n) + 1, 2), Pad(DateOf(n), 2);
    assert s[..4] == y;
    assert s[5..7] == m;
    assert s[8..] == d;
    PadRoundTrip(YearOf(n), 4);
    PadRoundTrip(MonthOf(n) + 1, 2);
    PadRoundTrip(DateOf(n), 2);
    CivilRoundTrip(n, 0, 0, 1);
  }

  /** Dates compare as year, then month, then day of the month. */
  lemma DateOrder(a: int, b: int)
    ensures a < b <==> YearOf(a) < YearOf(b) || (YearOf(a) == YearOf(b) &&
                       (MonthOf(a) < MonthOf(b) || (MonthOf(a) == MonthOf(b) && DateOf(a) < DateOf(b))))
  {
    hide MonthFirst, YearOf, MonthOf;
    MonthIndexBounds(a);
    MonthIndexBounds(b);
    if MonthIndex(a) < MonthIndex(b) {
      MonthsApart(MonthIndex(a) + 1, MonthIndex(b));
    } else if MonthIndex(b) < MonthIndex(a) {
      MonthsApart(MonthIndex(b) + 1, MonthIndex(a));
    }
  }

  /** String order is day order. */
  lemma IsoOrder(a: int, b: int)
    requires FourDigitYear(a) && FourDigitYear(b)
    ensures Less(Iso(a), Iso(b)) <==> a < b
    ensures Iso(a) == Iso(b) <==> a == b
  {
    hide YearOf, MonthOf, DateOf, MonthFirst, Pow10, Pad;
    DateInMonth(a);
    DateInMonth(b);
    Powers();
    DateOrder(a, b);
    IsoRoundTrip(a);
    IsoRoundTrip(b);
    var c, d := Pad(DateOf(a), 2), Pad(DateOf(b), 2);
    var m, n := Pad(MonthOf(a) + 1, 2), Pad(MonthOf(b) + 1, 2);
    DashLess(c, d);
    DashLess(m + ("-" + c), n + ("-" + d));
    PadLess(YearOf(a), YearOf(b), 4, "-" + (m + ("-" + c)), "-" + (n + ("-" + d)));
    PadLess(MonthOf(a) + 1, MonthOf(b) + 1, 2, "-" + c, "-" + d);
    PadLess(DateOf(a), DateOf(b), 2, "", "");
    assert c + "" == c && d + "" == d;
  }

  lemma DashLess(s: string, t: string)
    ensures Less("-" + s, "-" + t) <==> Less(s, t)
  {
    assert ("-" + s)[1..] == s && ("-" + t)[1..] == t;
  }
}
