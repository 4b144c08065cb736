/**
  What a report says: the same numbers whether it read the tables or counted
  live, each of them a count of the log's events, adding up across its rows.
 */
module ReportRuns {
  import opened Wrappers
  import opened Calendar
  import opened EventLog
  import opened Plan
  import opened ReportData
  import opened ReportBuilder
  import opened RollupRuns
  import Rollup

  // ----- Stored and live -----

  /** The stored days of a window are the live count of it. */
  lemma StoredDaysAreLive(log: Log, today: int, from: int, to: int)
    requires forall e :: e in log ==> Rollup.BEGINNING <= e.day
    requires to <= today
    ensures StoredDays(CountByDay(log, Rollup.BEGINNING, today), from, to) == CountByDay(log, from, to)
  {
    CountedAll(log, Rollup.BEGINNING, today);
    CountedAll(log, from, to);
    forall k ensures CountOf(log, k) > 0 ==> Rollup.BEGINNING <= k.day {
      CountOfPositive(log, k);
    }
    hide CountByDay, CountOf;
  }

  /** Exact rows read back as the counts they store. */
  lemma StoredCountsAreLive(t: Rollup.PeriodTable, c: Counter, log: Log, p: Period, today: int, launch: int)
    requires Exact(t, c, log, p, today, launch)
    ensures StoredCounts(t, p.kind, p.start) == CountActors(c, log, Rollup.WindowOf(p, Rollup.EndBy(p, today), launch))
  {
    hide CountActors, Rollup.WindowOf;
    var counts := CountActors(c, log, Rollup.WindowOf(p, Rollup.EndBy(p, today), launch));
    forall m ensures m in Rollup.MeasuresAt(t, p.kind, p.start) <==> m in counts {
      if m in counts {
        assert Rollup.PeriodKey(p.kind, p.start, m) in t;
      }
      if m in Rollup.MeasuresAt(t, p.kind, p.start) {
        var k :| k in t && k.kind == p.kind && k.start == p.start && k.measure == m;
        assert k == Rollup.PeriodKey(p.kind, p.start, m);
      }
    }
  }

  /** A period that reaches today and has begun is one the last run left exact. */
  lemma CurrentPeriodExact(c: Counter, launch: int, w: World, kind: PeriodKind, day: int)
    requires Right(c, launch, w) && w.last.Some?
    requires var p := PeriodOf(kind, day, launch); p.start <= w.last.value <= p.end
    ensures var p := PeriodOf(kind, day, launch);
            var q := if kind == All then PeriodOf(All, w.last.value, launch) else p;
            Exact(w.period, c, w.log[..w.seen], q, w.last.value, launch) &&
            q.kind == p.kind && q.start == p.start && Rollup.EndBy(q, w.last.value) == Rollup.EndBy(p, w.last.value)
  {
    if kind != All {
      hide Exact;
      var today := w.last.value;
      PeriodHoldsItsDays(kind, day, today, launch);
      PeriodOfIsNumbered(kind, today, launch);
      hide PeriodOf, StartOf, IndexOf;
      IndexMonotone(kind, launch, today);
      assert Since(kind, IndexOf(kind, today), today, launch);
    }
  }

  /** A period that has not begun stores nothing, so it is always counted live. */
  lemma FuturePeriodEmpty(c: Counter, launch: int, w: World, kind: PeriodKind, start: int)
    requires Right(c, launch, w) && w.last.Some?
    requires w.last.value < start
    ensures Rollup.MeasuresAt(w.period, kind, start) == {}
  {
    hide StartOf, IndexOf, Exact;
    var today := w.last.value;
    forall k | k in w.period && k.kind == kind ensures k.start != start {
      assert Known(k, today, launch);
      if kind != All {
        var i :| Since(kind, i, today, launch) && k.start == StartOf(kind, i);
        StartsBefore(kind, i, today);
      }
    }
  }

  /** The numbers of a report: all of it but when and how they were computed. */
  function Numbers(r: Report): Report {
    r.(computedAt := None, live := false)
  }

  lemma {:induction false} WordsIgnoreTheClock(m: map<Key, nat>, counts: map<string, nat>, q: Request, now: int, start: int, end: int, ids: seq<string>)
    ensures MeasureRows(m, counts, q, start, end, ids) == MeasureRows(m, counts, q.(now := now), start, end, ids)
  {
    hide MeasureResidents, MeasureRecords, Suppress;
    if ids != [] {
      WordsIgnoreTheClock(m, counts, q, now, start, end, ids[..|ids| - 1]);
    }
  }

  lemma NumbersOnly(q: Request, m: map<Key, nat>, counts: map<string, nat>, at: Option<int>, live: bool)
    ensures Numbers(ReportOf(q, m, counts, at, live)) == ReportOf(q, m, counts, None, false)
  {
    hide PeriodOf, PreviousPeriod, MeasureRows, TypeRows, TotalSum;
  }

  lemma ReportIgnoresTheClock(q: Request, now: int, m: map<Key, nat>, counts: map<string, nat>)
    ensures ReportOf(q, m, counts, None, false) == ReportOf(q.(now := now), m, counts, None, false)
  {
    var p := PeriodFor(q);
    hide PeriodOf, PreviousPeriod, MeasureRows, TypeRows, TotalSum;
    WordsIgnoreTheClock(m, counts, q, now, p.start, Rollup.EndBy(p, q.today), MEASURES);
  }

  /** The numbers of a live count. */
  ghost function LiveReport(c: Counter, log: Log, q: Request): Report {
    var p := PeriodFor(q);
    var end := Rollup.EndBy(p, q.today);
    ReportOf(q, CountByDay(log, p.start, end), CountActors(c, log, Rollup.WindowOf(p, end, q.launch)), None, false)
  }

  /** The numbers of the tables as they stand. */
  ghost function StoredReport(daily: map<Key, nat>, t: Rollup.PeriodTable, q: Request): Report {
    var p := PeriodFor(q);
    ReportOf(q, StoredDays(daily, p.start, Rollup.EndBy(p, q.today)), StoredCounts(t, q.kind, p.start), None, false)
  }

  /**
    Whatever the tables and the log hold, a report is counted live exactly when
    its period reaches today and nothing of it was computed in the last 90
    minutes; then its numbers are the log's, and else they are the tables'.
   */
  lemma CountedLiveIff(daily: map<Key, nat>, t: Rollup.PeriodTable, c: Counter, log: Log, q: Request, at: Option<int>)
    ensures var r := ReportFrom(daily, t, c, log, q, at);
            && (r.live <==> q.today <= PeriodFor(q).end && (at.None? || q.now - at.value >= 5_400_000))
            && (r.live ==> r.computedAt == Some(q.now) && Numbers(r) == LiveReport(c, log, q))
            && (!r.live ==> r.computedAt == at && Numbers(r) == StoredReport(daily, t, q))
  {
    hide PeriodFor, CountActors, CountByDay, StoredDays, StoredCounts, PreviousPeriod, MeasureRows, TypeRows, TotalSum;
    var p := PeriodFor(q);
    var end := Rollup.EndBy(p, q.today);
    var counts := CountActors(c, log, Rollup.WindowOf(p, end, q.launch));
    NumbersOnly(q, CountByDay(log, p.start, end), counts, Some(q.now), true);
    NumbersOnly(q, StoredDays(daily, p.start, end), StoredCounts(t, q.kind, p.start), at, false);
  }

  /** A live count of a week, month or quarter: the events of its days up to today, against the whole period before it. */
  lemma LiveCountOf(c: Counter, log: Log, q: Request)
    requires q.kind != All && q.today <= PeriodFor(q).end
    ensures var p := PeriodFor(q);
            var before := PeriodOf(q.kind, p.start - 1, q.launch);
            && before.end + 1 == p.start
            && LiveReport(c, log, q) ==
               ReportOf(q, CountByDay(log, p.start, q.today),
                        c.count(UpTo(log, q.today), Window(p.start, q.today, Some((before.start, before.end)))), None, false)
  {
    hide PeriodOf, Rollup.WindowOf, CountByDay, UpTo, ReportOf;
    ComparesWithThePeriodBefore(q.kind, if q.at.Some? then q.at.value else q.today, q.today, q.launch);
  }

  /** Where the tables are used for a period that has begun, they answer what a live count would. */
  lemma TablesAnswerLive(c: Counter, w: World, q: Request)
    requires Right(c, q.launch, w) && w.last == Some(q.today) && w.seen == |w.log|
    requires PeriodFor(q).start <= q.today <= PeriodFor(q).end
    ensures var p := PeriodFor(q);
            var end := Rollup.EndBy(p, q.today);
            StoredDays(w.daily, p.start, end) == CountByDay(w.log, p.start, end) &&
            StoredCounts(w.period, q.kind, p.start) == CountActors(c, w.log, Rollup.WindowOf(p, end, q.launch))
  {
    assert w.log[..w.seen] == w.log;
    var p := PeriodFor(q);
    var end := Rollup.EndBy(p, q.today);
    KindKept(q);
    CurrentPeriodExact(c, q.launch, w, q.kind, if q.at.Some? then q.at.value else q.today);
    hide PeriodOf, Rollup.WindowOf, CountActors, CountByDay, Exact, Coherent, StoredDays, StoredCounts;
    StoredDaysAreLive(w.log, q.today, p.start, end);
    var e := if q.kind == All then PeriodOf(All, q.today, q.launch) else p;
    StoredCountsAreLive(w.period, c, w.log, e, q.today, q.launch);
    SameWindow(p, e, end, q.launch);
  }

  lemma KindKept(q: Request)
    ensures PeriodFor(q).kind == q.kind
  {
  }

  lemma ReportIsLive(c: Counter, w: World, q: Request, at: Option<int>)
    requires Right(c, q.launch, w) && w.last == Some(q.today) && w.seen == |w.log|
    requires PeriodFor(q).end >= q.today
    requires LatestAt(w.period, q.kind, PeriodFor(q).start, at)
    ensures Numbers(ReportFrom(w.daily, w.period, c, w.log, q, at)) == LiveReport(c, w.log, q)
  {
    hide Rollup.WindowOf, CountActors, CountByDay, ReportOf, Exact, Coherent, StoredDays, StoredCounts, PeriodFor;
    var p := PeriodFor(q);
    var end := Rollup.EndBy(p, q.today);
    var m, counts := CountByDay(w.log, p.start, end), CountActors(c, w.log, Rollup.WindowOf(p, end, q.launch));
    NumbersOnly(q, m, counts, Some(q.now), true);
    NumbersOnly(q, m, counts, at, false);
    if p.start <= q.today {
      TablesAnswerLive(c, w, q);
    } else {
      FuturePeriodEmpty(c, q.launch, w, q.kind, p.start);
      NoRowsNoTime(w.period, q.kind, p.start, at);
    }
  }

  lemma NoRowsNoTime(t: Rollup.PeriodTable, kind: PeriodKind, start: int, at: Option<int>)
    requires LatestAt(t, kind, start, at)
    ensures at.Some? ==> Rollup.MeasuresAt(t, kind, start) != {}
  {
    if at.Some? {
      var k :| k in t && k.kind == kind && k.start == start;
      assert k.measure in Rollup.MeasuresAt(t, kind, start);
    }
  }

  /**
    Right after a rollup, for every kind of period that reaches today or lies
    ahead, the report reads the same whenever it is asked for, and the same as a
    live count: staleness decides where the numbers come from, never what they are.
   */
  lemma StalenessIsInvisible(c: Counter, w: World, q: Request, now: int, at: Option<int>)
    requires Right(c, q.launch, w) && w.last == Some(q.today) && w.seen == |w.log|
    requires PeriodFor(q).end >= q.today
    requires LatestAt(w.period, q.kind, PeriodFor(q).start, at)
    ensures Numbers(ReportFrom(w.daily, w.period, c, w.log, q, at)) == LiveReport(c, w.log, q)
    ensures Numbers(ReportFrom(w.daily, w.period, c, w.log, q.(now := now), at)) == LiveReport(c, w.log, q)
  {
    hide Rollup.WindowOf, CountActors, CountByDay, ReportOf, Right, ReportFrom, LatestAt;
    ReportIsLive(c, w, q, at);
    ReportIsLive(c, w, q.(now := now), at);
    var p := PeriodFor(q);
    var end := Rollup.EndBy(p, q.today);
    ReportIgnoresTheClock(q, now, CountByDay(w.log, p.start, end), CountActors(c, w.log, Rollup.WindowOf(p, end, q.launch)));
  }

  /** "All" reads the same window whatever day it is asked at. */
  lemma SameWindow(p: Period, e: Period, end: int, launch: int)
    requires p == e || (p.kind == All && e.kind == All && p.start == e.start)
    ensures Rollup.WindowOf(p, end, launch) == Rollup.WindowOf(e, end, launch)
  {
    hide PeriodOf;
  }

  /**
    Not so for "all" asked at a day gone by: its events are counted to that day,
    its residents to today.
   */
  lemma AllAtAPastDayMixesWindows(c: Counter, w: World, q: Request, at: Option<int>)
    requires Right(c, q.launch, w) && w.last == Some(q.today) && w.seen == |w.log|
    requires q.kind == All && q.at.Some? && q.at.value < q.today
    ensures ReportFrom(w.daily, w.period, c, w.log, q, at) ==
            ReportOf(q, CountByDay(w.log, q.launch, q.at.value), CountActors(c, w.log, Window(q.launch, q.today, None)), at, false)
  {
    assert w.log[..w.seen] == w.log;
    hide CountActors, CountByDay, ReportOf, Exact, Coherent, StoredDays, StoredCounts;
    StoredDaysAreLive(w.log, q.today, q.launch, q.at.value);
    var e := PeriodOf(All, q.today, q.launch);
    CurrentPeriodExact(c, q.launch, w, All, q.today);
    StoredCountsAreLive(w.period, c, w.log, e, q.today, q.launch);
  }

  // ----- When "all" at a past day reads as a live count -----

  /** Two counts of residents that one report shows alike. */
  ghost predicate SameShown(q: Request, m: map<Key, nat>, a: map<string, nat>, b: map<string, nat>) {
    && SameMeasure(q, a, b, "new_residents") && SameMeasure(q, a, b, "active") && SameMeasure(q, a, b, "multi_type")
    && (PreviousPeriod(PeriodFor(q), q.launch).Some? ==> SameMeasure(q, a, b, "returning"))
    && Suppress(TotalSum(m, a, q.types, TakingPart), q.exact) == Suppress(TotalSum(m, b, q.types, TakingPart), q.exact)
    && (forall i :: 0 <= i < |q.types| ==> SameTypeShown(q, m, a, b, q.types[i].name))
    && (forall i :: 0 <= i < |MEASURES| ==> SameMeasureShown(q, m, a, b, MEASURES[i]))
  }

  predicate SameMeasure(q: Request, a: map<string, nat>, b: map<string, nat>, measure: string) {
    Suppress(N(a, measure), q.exact) == Suppress(N(b, measure), q.exact)
  }

  ghost predicate SameTypeShown(q: Request, m: map<Key, nat>, a: map<string, nat>, b: map<string, nat>, name: string) {
    && SameMeasure(q, a, b, "active:" + name)
    && Suppress(TypeSum(m, a, q.types, name, TakingPart), q.exact) == Suppress(TypeSum(m, b, q.types, name, TakingPart), q.exact)
  }

  ghost predicate SameMeasureShown(q: Request, m: map<Key, nat>, a: map<string, nat>, b: map<string, nat>, id: string) {
    && Suppress(MeasureResidents(q.types, id, a), q.exact) == Suppress(MeasureResidents(q.types, id, b), q.exact)
    && Suppress(MeasureRecords(q.types, id, m, a), q.exact) == Suppress(MeasureRecords(q.types, id, m, b), q.exact)
  }

  lemma TypeRowsAlikeIff(q: Request, m: map<Key, nat>, a: map<string, nat>, b: map<string, nat>)
    ensures TypeRows(m, a, q.types, q.types, q.exact) == TypeRows(m, b, q.types, q.types, q.exact) <==>
            forall i :: 0 <= i < |q.types| ==> SameTypeShown(q, m, a, b, q.types[i].name)
  {
    hide TypeRows, Suppress, SumOver, Playing, ElsewhereSum;
    var xs, ys := TypeRows(m, a, q.types, q.types, q.exact), TypeRows(m, b, q.types, q.types, q.exact);
    forall i | 0 <= i < |q.types|
      ensures |xs| == |ys| == |q.types|
      ensures xs[i] == ys[i] <==> SameTypeShown(q, m, a, b, q.types[i].name)
    {
      RowsShowTheSums(m, a, q.types, q.types, q.exact, i);
      RowsShowTheSums(m, b, q.types, q.types, q.exact, i);
    }
    NoTypesNoRows(m, a, q.types, q.exact);
    NoTypesNoRows(m, b, q.types, q.exact);
    hide SameTypeShown;
  }

  lemma {:induction false} NoTypesNoRows(m: map<Key, nat>, counts: map<string, nat>, types: seq<ProcessType>, exact: bool)
    ensures |TypeRows(m, counts, types, types, exact)| == |types|
  {
    if types != [] {
      RowsShowTheSums(m, counts, types, types, exact, 0);
    }
  }

  lemma {:induction false} MeasureRowsAlikeIff(q: Request, m: map<Key, nat>, a: map<string, nat>, b: map<string, nat>, start: int, end: int, ids: seq<string>)
    ensures |MeasureRows(m, a, q, start, end, ids)| == |MeasureRows(m, b, q, start, end, ids)| == |ids|
    ensures MeasureRows(m, a, q, start, end, ids) == MeasureRows(m, b, q, start, end, ids) <==>
            forall i :: 0 <= i < |ids| ==> SameMeasureShown(q, m, a, b, ids[i])
  {
    hide Suppress, MeasureResidents, MeasureRecords;
    if ids != [] {
      var n := |ids| - 1;
      MeasureRowsAlikeIff(q, m, a, b, start, end, ids[..n]);
      var xs, ys := MeasureRows(m, a, q, start, end, ids), MeasureRows(m, b, q, start, end, ids);
      assert xs[..n] == MeasureRows(m, a, q, start, end, ids[..n]) && ys[..n] == MeasureRows(m, b, q, start, end, ids[..n]);
      assert xs == xs[..n] + [xs[n]] && ys == ys[..n] + [ys[n]];
      assert xs[n] == ys[n] <==> SameMeasureShown(q, m, a, b, ids[n]);
      hide SameMeasureShown;
    }
  }

  lemma ReportsAlikeIff(q: Request, m: map<Key, nat>, a: map<string, nat>, b: map<string, nat>)
    ensures ReportOf(q, m, a, None, false) == ReportOf(q, m, b, None, false) <==> SameShown(q, m, a, b)
  {
    hide PeriodOf, TypeRows, MeasureRows, Suppress, SumOver, PlayingAny, ElsewhereAll, SameTypeShown, SameMeasureShown;
    var p := PeriodFor(q);
    TypeRowsAlikeIff(q, m, a, b);
    MeasureRowsAlikeIff(q, m, a, b, p.start, Rollup.EndBy(p, q.today), MEASURES);
    hide N;
  }

  /** So "all" at a past day reads as a live count exactly when the residents counted to today and to that day show alike. */
  lemma AllAtAPastDayIff(c: Counter, w: World, q: Request, at: Option<int>)
    requires Right(c, q.launch, w) && w.last == Some(q.today) && w.seen == |w.log|
    requires q.kind == All && q.at.Some? && q.at.value < q.today
    ensures Numbers(ReportFrom(w.daily, w.period, c, w.log, q, at)) == LiveReport(c, w.log, q) <==>
            SameShown(q, CountByDay(w.log, q.launch, q.at.value),
                      CountActors(c, w.log, Window(q.launch, q.today, None)),
                      CountActors(c, w.log, Window(q.launch, q.at.value, None)))
  {
    AllAtAPastDayMixesWindows(c, w, q, at);
    var m := CountByDay(w.log, q.launch, q.at.value);
    var a := CountActors(c, w.log, Window(q.launch, q.today, None));
    var b := CountActors(c, w.log, Window(q.launch, q.at.value, None));
    NumbersOnly(q, m, a, at, false);
    LiveAllAt(c, w.log, q);
    ReportsAlikeIff(q, m, a, b);
    hide Right, ReportOf, ReportFrom, Numbers, LiveReport, SameShown, CountActors, CountByDay;
  }

  lemma LiveAllAt(c: Counter, log: Log, q: Request)
    requires q.kind == All && q.at.Some? && q.at.value < q.today
    ensures LiveReport(c, log, q) ==
            ReportOf(q, CountByDay(log, q.launch, q.at.value), CountActors(c, log, Window(q.launch, q.at.value, None)), None, false)
  {
    hide ReportOf, CountActors, CountByDay;
  }

  /** What is counted in a window that has none before it depends on the events it holds, not on the day it is said to end. */
  ghost predicate CountsEvents(c: Counter) {
    forall log, from, a, b :: c.count(log, Window(from, a, None)) == c.count(log, Window(from, b, None))
  }

  /** So if nothing was logged after that day up to today, "all" at it reads as a live count. */
  lemma QuietSinceReadsLive(c: Counter, w: World, q: Request, at: Option<int>)
    requires Right(c, q.launch, w) && w.last == Some(q.today) && w.seen == |w.log|
    requires q.kind == All && q.at.Some? && q.at.value < q.today
    requires CountsEvents(c) && forall e :: e in w.log ==> e.day <= q.at.value || q.today < e.day
    ensures Numbers(ReportFrom(w.daily, w.period, c, w.log, q, at)) == LiveReport(c, w.log, q)
  {
    hide Right, ReportFrom, LiveReport, Numbers, UpTo, CountByDay, SameShown;
    AllAtAPastDayIff(c, w, q, at);
    NothingBetween(w.log, q.at.value, q.today);
    var counts := CountActors(c, w.log, Window(q.launch, q.at.value, None));
    assert CountActors(c, w.log, Window(q.launch, q.today, None)) == counts;
    hide CountActors;
    ShownAsItself(q, CountByDay(w.log, q.launch, q.at.value), counts);
  }

  lemma ShownAsItself(q: Request, m: map<Key, nat>, counts: map<string, nat>)
    ensures SameShown(q, m, counts, counts)
  {
    hide Suppress, TotalSum, TypeSum, MeasureResidents, MeasureRecords, PeriodOf, PreviousPeriod;
  }

  lemma {:induction false} NothingBetween(log: Log, day: int, today: int)
    requires day <= today && forall e :: e in log ==> e.day <= day || today < e.day
    ensures UpTo(log, today) == UpTo(log, day)
  {
    if log != [] {
      var n := |log| - 1;
      forall e | e in log[..n]
        ensures e.day <= day || today < e.day
      {
        assert e in log;
      }
      NothingBetween(log[..n], day, today);
      assert log[n] in log;
    }
  }

  /** A counter that counts an active resident for every event. */
  const ONE_EACH := Counter((log: Log, w: Window) => map["active" := |log|])

  /** Two days, one event on each: "all" at the first of them, asked on the second, shows two residents where a live count shows one. */
  lemma AllAtAPastDayDiffers(e: Event, day: int, words: Words, at: Option<int>)
    requires Rollup.BEGINNING <= day == e.day
    ensures var steps := [Append([e, e.(day := day + 1)]), Run(day + 1, false, 0)];
            var w := After(ONE_EACH, day, START, steps);
            var q := Request(All, Some(day), true, 0, day + 1, day, [], words);
            && Right(ONE_EACH, day, w) && w.last == Some(q.today) && w.seen == |w.log|
            && Numbers(ReportFrom(w.daily, w.period, ONE_EACH, w.log, q, at)) != LiveReport(ONE_EACH, w.log, q)
  {
    hide Right, After, FairRun, ReportFrom, LiveReport, Numbers, CountActors, CountByDay, SameShown;
    var steps := [Append([e, e.(day := day + 1)]), Run(day + 1, false, 0)];
    FairTwoDays(e, day);
    RightFromTheStart(ONE_EACH, day, steps);
    var w := After(ONE_EACH, day, START, steps);
    TwoDaysLog(e, day);
    var q := Request(All, Some(day), true, 0, day + 1, day, [], words);
    TwoDaysCounted(e, day);
    AllAtAPastDayIff(ONE_EACH, w, q, at);
    TwoIsNotOne(q, CountByDay(w.log, day, day));
  }

  lemma TwoIsNotOne(q: Request, m: map<Key, nat>)
    requires q.exact
    ensures !SameShown(q, m, map["active" := 2], map["active" := 1])
  {
    assert !SameMeasure(q, map["active" := 2], map["active" := 1], "active");
    hide SameMeasure;
  }

  lemma FairTwoDays(e: Event, day: int)
    requires Rollup.BEGINNING <= day == e.day
    ensures FairRun(ONE_EACH, day, START, [Append([e, e.(day := day + 1)]), Run(day + 1, false, 0)])
  {
    hide After, Next, FairRun, NoGap, OnTime, Rollup.WindowStart;
    TwoSteps(ONE_EACH, day, START, Append([e, e.(day := day + 1)]), Run(day + 1, false, 0));
    FirstAppend(e, day);
  }

  lemma FirstAppend(e: Event, day: int)
    ensures Next(ONE_EACH, day, START, Append([e, e.(day := day + 1)])) == START.(log := [e, e.(day := day + 1)])
  {
    assert [] + [e, e.(day := day + 1)] == [e, e.(day := day + 1)];
  }

  lemma TwoDaysLog(e: Event, day: int)
    ensures var w := After(ONE_EACH, day, START, [Append([e, e.(day := day + 1)]), Run(day + 1, false, 0)]);
            w.log == [e, e.(day := day + 1)] && w.last == Some(day + 1) && w.seen == 2
  {
    hide After, FairRun, Rollup.TableAfter, Rollup.DailyAfter;
    TwoSteps(ONE_EACH, day, START, Append([e, e.(day := day + 1)]), Run(day + 1, false, 0));
    FirstAppend(e, day);
  }

  lemma TwoDaysCounted(e: Event, day: int)
    requires e.day == day
    ensures var log := [e, e.(day := day + 1)];
            CountActors(ONE_EACH, log, Window(day, day + 1, None)) == map["active" := 2] &&
            CountActors(ONE_EACH, log, Window(day, day, None)) == map["active" := 1]
  {
    var log := [e, e.(day := day + 1)];
    assert log[..1] == [e] && [e][..0] == [];
    assert UpTo([e], day) == [e];
    assert UpTo(log, day) == [e] && UpTo([e], day + 1) == [e];
  }

  // ----- Periods gone by -----

  /** A week, month or quarter that ended since the launch reads, from the tables, exactly as a live count of it would. */
  lemma EndedPeriodReadsLive(c: Counter, w: World, q: Request, at: Option<int>)
    requires Right(c, q.launch, w) && w.last == Some(q.today) && w.seen == |w.log|
    requires q.kind != All && q.launch <= PeriodFor(q).end < q.today
    ensures Numbers(ReportFrom(w.daily, w.period, c, w.log, q, at)) == LiveReport(c, w.log, q)
  {
    hide PeriodOf, IndexOf, StartOf, Rollup.WindowOf, CountActors, CountByDay, ReportOf, StoredDays, StoredCounts, Exact;
    assert w.log[..w.seen] == w.log;
    var day := if q.at.Some? then q.at.value else q.today;
    var p := PeriodFor(q);
    var i := IndexOf(q.kind, day);
    PeriodOfIsNumbered(q.kind, day, q.launch);
    IndexBounds(q.kind, day);
    IndexMonotone(q.kind, day, q.today);
    LaunchedBy(q.kind, day, q.launch);
    assert Exact(w.period, c, w.log, Numbered(q.kind, i), q.today, q.launch);
    StoredDaysAreLive(w.log, q.today, p.start, p.end);
    StoredCountsAreLive(w.period, c, w.log, p, q.today, q.launch);
    NumbersOnly(q, CountByDay(w.log, p.start, p.end), CountActors(c, w.log, Rollup.WindowOf(p, p.end, q.launch)), at, false);
  }

  lemma LaunchedBy(kind: PeriodKind, day: int, launch: int)
    requires kind != All && launch <= PeriodOf(kind, day, launch).end
    ensures IndexOf(kind, launch) <= IndexOf(kind, day)
  {
    PeriodOfIsNumbered(kind, day, launch);
    StartsBefore(kind, IndexOf(kind, day) + 1, launch);
    hide PeriodOf, IndexOf, StartOf;
  }

  // ----- The totals are counts of the log -----

  /** Each additive total is the number of the log's events in the window that play its role. */
  lemma TotalsCountTheLog(types: seq<ProcessType>, log: Log, from: int, to: int, counts: map<string, nat>, role: Role, name: string)
    ensures var m := CountByDay(log, from, to);
            var elsewhere := role == TakingPart;
            TotalSum(m, counts, types, role) ==
              LogCount(log, from, to, PlayingAny(types, role)) + (if elsewhere then ElsewhereAll(types, counts) else 0) &&
            TypeSum(m, counts, types, name, role) ==
              LogCount(log, from, to, Playing(types, name, role)) + if elsewhere then ElsewhereSum(types, name, counts) else 0
  {
    hide CountByDay, PlayingAny, Playing;
    SumsCountTheLog(log, from, to, PlayingAny(types, role));
    SumsCountTheLog(log, from, to, Playing(types, name, role));
  }

  // ----- The rows add up to the totals -----

  ghost function SumTypes(m: map<Key, nat>, counts: map<string, nat>, types: seq<ProcessType>, ts: seq<ProcessType>, role: Role): nat {
    if ts == [] then 0
    else SumTypes(m, counts, types, ts[..|ts| - 1], role) + TypeSum(m, counts, types, ts[|ts| - 1].name, role)
  }

  function PlayingAmong(types: seq<ProcessType>, ts: seq<ProcessType>, role: Role): Key -> bool {
    (k: Key) => Named(ts, k.processType) && role in RolesOf(types, k.processType, k.eventType)
  }

  predicate Named(ts: seq<ProcessType>, name: string) {
    exists i :: 0 <= i < |ts| && ts[i].name == name
  }

  /** The host's own events on types the hub does not list. */
  function HostOnUnlisted(types: seq<ProcessType>): Key -> bool {
    (k: Key) => !Named(types, k.processType) && k.eventType in HOST_PARTICIPATION
  }

  lemma {:induction false} SumsAdd(m: map<Key, nat>, f: Key -> bool, g: Key -> bool, h: Key -> bool)
    requires forall k :: h(k) <==> f(k) || g(k)
    requires forall k :: !(f(k) && g(k))
    ensures SumOver(m, h) == SumOver(m, f) + SumOver(m, g)
    decreases |m|
  {
    if m != map[] {
      var k :| k in m;
      SumOverRemove(m, f, k);
      SumOverRemove(m, g, k);
      SumOverRemove(m, h, k);
      SumsAdd(m - {k}, f, g, h);
    }
  }

  lemma {:induction false} SameSum(m: map<Key, nat>, f: Key -> bool, g: Key -> bool)
    requires forall k :: f(k) == g(k)
    ensures SumOver(m, f) == SumOver(m, g)
    decreases |m|
  {
    if m != map[] {
      var k :| k in m;
      SumOverRemove(m, f, k);
      SumOverRemove(m, g, k);
      SameSum(m - {k}, f, g);
    }
  }

  lemma {:induction false} NothingSums(m: map<Key, nat>, f: Key -> bool)
    requires forall k :: !f(k)
    ensures SumOver(m, f) == 0
    decreases |m|
  {
    if m != map[] {
      var k :| k in m;
      SumOverRemove(m, f, k);
      NothingSums(m - {k}, f);
    }
  }

  lemma {:induction false} TypesSum(m: map<Key, nat>, counts: map<string, nat>, types: seq<ProcessType>, ts: seq<ProcessType>, role: Role)
    requires forall i, j :: 0 <= i < j < |ts| ==> ts[i].name != ts[j].name
    ensures SumTypes(m, counts, types, ts, role) ==
              SumOver(m, PlayingAmong(types, ts, role)) + if role == TakingPart then ElsewhereSums(types, ts, counts) else 0
  {
    if ts == [] {
      NothingSums(m, PlayingAmong(types, ts, role));
    } else {
      var n := |ts| - 1;
      TypesSum(m, counts, types, ts[..n], role);
      forall name ensures Named(ts, name) <==> Named(ts[..n], name) || name == ts[n].name {
        NamedStep(ts, name);
      }
      hide RolesOf, SumOver, ElsewhereSum;
      SumsAdd(m, PlayingAmong(types, ts[..n], role), Playing(types, ts[n].name, role), PlayingAmong(types, ts, role));
    }
  }

  lemma NamedStep(ts: seq<ProcessType>, name: string)
    requires ts != []
    ensures Named(ts, name) <==> Named(ts[..|ts| - 1], name) || name == ts[|ts| - 1].name
  {
    var rest := ts[..|ts| - 1];
    if i :| 0 <= i < |ts| && ts[i].name == name && i < |rest| {
      assert rest[i].name == name;
    }
    if i :| 0 <= i < |rest| && rest[i].name == name {
      assert ts[i].name == name;
    }
  }

  function ElsewhereSums(types: seq<ProcessType>, ts: seq<ProcessType>, counts: map<string, nat>): nat {
    if ts == [] then 0
    else ElsewhereSums(types, ts[..|ts| - 1], counts) + ElsewhereSum(types, ts[|ts| - 1].name, counts)
  }

  lemma {:induction false} ElsewhereSumAbsent(types: seq<ProcessType>, name: string, counts: map<string, nat>)
    requires !Named(types, name)
    ensures ElsewhereSum(types, name, counts) == 0
  {
    if types != [] {
      NamedStep(types, name);
      ElsewhereSumAbsent(types[..|types| - 1], name, counts);
    }
  }

  lemma {:induction false} ElsewhereSumsAppend(types: seq<ProcessType>, t: ProcessType, ts: seq<ProcessType>, counts: map<string, nat>)
    requires !Named(ts, t.name)
    ensures ElsewhereSums(types + [t], ts, counts) == ElsewhereSums(types, ts, counts)
  {
    if ts != [] {
      NamedStep(ts, t.name);
      ElsewhereSumsAppend(types, t, ts[..|ts| - 1], counts);
      ElsewhereAppend(types, t, ts[|ts| - 1].name, counts);
    }
  }

  /** Types of distinct names: the recorded totals of each, added, are all of them. */
  lemma {:induction false} ElsewhereAddsUp(types: seq<ProcessType>, counts: map<string, nat>)
    requires DistinctNames(types)
    ensures ElsewhereSums(types, types, counts) == ElsewhereAll(types, counts)
  {
    if types != [] {
      var n := |types| - 1;
      var t := types[n];
      assert types == types[..n] + [t];
      assert !Named(types[..n], t.name);
      ElsewhereAddsUp(types[..n], counts);
      ElsewhereSumsAppend(types[..n], t, types[..n], counts);
      ElsewhereAppend(types[..n], t, t.name, counts);
      ElsewhereSumAbsent(types[..n], t.name, counts);
    }
  }

  /** A type the hub does not list has only the host's participation. */
  lemma UnlistedRoles(types: seq<ProcessType>, name: string, event: string)
    requires !Named(types, name)
    ensures RolesOf(types, name, event) == if event in HOST_PARTICIPATION then [TakingPart] else []
  {
    LookUpAbsent(types, name);
  }

  /**
    In an exact report the created, closed and outcome totals are the sums of
    the rows by type; participations exceed theirs by exactly the host's events
    on types the hub does not list.
   */
  lemma RowsAddUp(m: map<Key, nat>, counts: map<string, nat>, types: seq<ProcessType>, role: Role)
    requires DistinctNames(types)
    ensures TotalSum(m, counts, types, role) ==
              SumTypes(m, counts, types, types, role) + if role == TakingPart then SumOver(m, HostOnUnlisted(types)) else 0
  {
    TypesSum(m, counts, types, types, role);
    ElsewhereAddsUp(types, counts);
    forall k: Key ensures !Named(types, k.processType) ==>
              (role in RolesOf(types, k.processType, k.eventType) <==> role == TakingPart && k.eventType in HOST_PARTICIPATION)
    {
      if !Named(types, k.processType) {
        UnlistedRoles(types, k.processType, k.eventType);
      }
    }
    hide RolesOf, SumOver, Named;
    if role == TakingPart {
      SumsAdd(m, PlayingAmong(types, types, role), HostOnUnlisted(types), PlayingAny(types, role));
    } else {
      SameSum(m, PlayingAmong(types, types, role), PlayingAny(types, role));
    }
  }

  /** The printed rows are those sums, suppressed below admin. */
  lemma {:induction false} RowsShowTheSums(m: map<Key, nat>, counts: map<string, nat>, types: seq<ProcessType>, ts: seq<ProcessType>, exact: bool, i: nat)
    requires i < |ts|
    ensures |TypeRows(m, counts, types, ts, exact)| == |ts|
    ensures TypeRows(m, counts, types, ts, exact)[i] == TypeRowOf(m, counts, types, ts[i], exact)
  {
    hide TypeRowOf;
    if |ts| > 1 {
      RowsShowTheSums(m, counts, types, ts[..|ts| - 1], exact, if i < |ts| - 1 then i else 0);
    }
  }

  // ----- On the report itself -----

  function Shown(c: Count): nat {
    if c.Number? then c.n else 0
  }

  function Column(row: TypeRow, role: Role): Count {
    match role
    case TakingPart => row.participations
    case Creation => row.created
    case Closing => row.closed
    case Outcome => row.outcomes
  }

  function SumColumn(rows: seq<TypeRow>, role: Role): nat {
    if rows == [] then 0 else SumColumn(rows[..|rows| - 1], role) + Shown(Column(rows[|rows| - 1], role))
  }

  function TotalOf(t: Totals, role: Role): Count {
    match role
    case TakingPart => t.participations
    case Creation => t.created
    case Closing => t.closed
    case Outcome => t.outcomes
  }

  lemma {:induction false} ColumnIsSum(m: map<Key, nat>, counts: map<string, nat>, types: seq<ProcessType>, ts: seq<ProcessType>, role: Role)
    ensures SumColumn(TypeRows(m, counts, types, ts, true), role) == SumTypes(m, counts, types, ts, role)
  {
    hide TypeSum;
    if ts != [] {
      var n := |ts| - 1;
      var rows := TypeRows(m, counts, types, ts[..n], true);
      ColumnIsSum(m, counts, types, ts[..n], role);
      assert TypeRows(m, counts, types, ts, true)[..|rows|] == rows;
    }
  }

  /** In an exact report each total is the sum of its column, participations with the host's own on unlisted types added. */
  lemma ExactReportAddsUp(q: Request, m: map<Key, nat>, counts: map<string, nat>, at: Option<int>, live: bool, role: Role)
    requires q.exact && DistinctNames(q.types)
    ensures var r := ReportOf(q, m, counts, at, live);
            TotalOf(r.totals, role) ==
              Number(SumColumn(r.byType, role) + if role == TakingPart then SumOver(m, HostOnUnlisted(q.types)) else 0)
  {
    hide TypeRows, MeasureRows, TotalSum, SumTypes, SumOver, PeriodOf, PreviousPeriod;
    RowsAddUp(m, counts, q.types, role);
    ColumnIsSum(m, counts, q.types, q.types, role);
  }

  // ----- For how long a run's numbers are read -----

  /**
    After a run the current period of any kind is read from the tables for 90
    minutes, and said to be as of that run, if the run counted anyone in it; from
    then on, or if it counted no one, it is counted live.
   */
  lemma ReadForNinetyMinutes(c: Counter, w: World, q: Request, full: bool, now: int, at: Option<int>)
    requires q.launch <= q.today && PeriodFor(q).start <= q.today <= PeriodFor(q).end
    requires LatestAt(Next(c, q.launch, w, Run(q.today, full, now)).period, q.kind, PeriodFor(q).start, at)
    ensures var after := Next(c, q.launch, w, Run(q.today, full, now));
            var r := ReportFrom(after.daily, after.period, c, w.log, q, at);
            var counted := CountActors(c, w.log, Rollup.WindowOf(PeriodFor(q), q.today, q.launch));
            (r.live <==> counted == map[] || q.now - now >= 5_400_000) &&
            (!r.live ==> r.computedAt == Some(now))
  {
    var after := Next(c, q.launch, w, Run(q.today, full, now));
    var p, e := PeriodFor(q), PeriodOf(q.kind, q.today, q.launch);
    hide PeriodFor, PeriodOf, Rollup.TableAfter, Rollup.DailyAfter, CountActors, Exact, ReportFrom, LatestAt, Rollup.WindowOf;
    hide Rollup.EndBy, Rollup.MeasuresAt, Numbers, LiveReport, StoredReport;
    CurrentOf(q);
    RollupRuns.RunStamps(w.period, c, w.log, q.today, q.launch, full, now, q.kind);
    ExactMeasures(after.period, c, w.log, e, q.today, q.launch);
    SameWindow(p, e, q.today, q.launch);
    LatestIsNow(after.period, q.kind, p.start, now, at);
    CountedLiveIff(after.daily, after.period, c, w.log, q, at);
    assert CountActors(c, w.log, Rollup.WindowOf(p, q.today, q.launch)).Keys == {} <==>
           CountActors(c, w.log, Rollup.WindowOf(p, q.today, q.launch)) == map[];
  }

  lemma CurrentOf(q: Request)
    requires PeriodFor(q).start <= q.today <= PeriodFor(q).end
    ensures var p, e := PeriodFor(q), PeriodOf(q.kind, q.today, q.launch);
            && p.kind == e.kind == q.kind && p.start == e.start && (p == e || q.kind == All)
            && Rollup.EndBy(p, q.today) == Rollup.EndBy(e, q.today) == q.today
  {
    KindKept(q);
    if q.kind != All {
      PeriodHoldsItsDays(q.kind, if q.at.Some? then q.at.value else q.today, q.today, q.launch);
      hide PeriodOf;
    }
  }

  lemma LatestIsNow(t: Rollup.PeriodTable, kind: PeriodKind, start: int, now: int, at: Option<int>)
    requires LatestAt(t, kind, start, at)
    requires forall k :: k in t && k.kind == kind && k.start == start ==> t[k].computedAt == now
    ensures at == if Rollup.MeasuresAt(t, kind, start) == {} then None else Some(now)
  {
    if at.Some? {
      var k :| k in t && k.kind == kind && k.start == start && t[k].computedAt == at.value;
      assert k.measure in Rollup.MeasuresAt(t, kind, start);
    }
  }

  // ----- Which count stands where -----

  /** What the counts hold under a name, nothing where they have no such name. */
  function Held(counts: map<string, nat>, measure: string): Count {
    Number(if measure in counts then counts[measure] else 0)
  }

  /**
    An exact report shows each count of residents where it belongs, for the period's days up to today; the
    returning ones only where there is a period before.
   */
  lemma CountsStandWhereTheyBelong(q: Request, m: map<Key, nat>, counts: map<string, nat>, at: Option<int>, live: bool, i: nat)
    requires q.exact
    ensures var r, p := ReportOf(q, m, counts, at, live), PeriodFor(q);
            && r.totals.newResidents == Held(counts, "new_residents") && r.totals.active == Held(counts, "active")
            && r.retention.inMoreThanOneType == Held(counts, "multi_type")
            && r.retention.returning == (if q.kind == All then Number(0) else Held(counts, "returning"))
            && |r.byType| == |q.types|
            && (i < |q.types| ==>
                  && r.byType[i].name == q.types[i].name && r.byType[i].plural == q.types[i].plural
                  && r.byType[i].active == Held(counts, "active:" + q.types[i].name))
            && r.period.kind == q.kind && r.period.start == p.start
            && r.period.end == (if q.today <= p.end then q.today else p.end)
            && (r.toDate <==> q.today <= p.end)
            && r.previous == (if q.kind == All then None else Some(PeriodOf(q.kind, p.start - 1, q.launch)))
  {
    hide TypeRows, MeasureRows, TotalSum, TypeRowOf, PeriodOf, AddDays;
    KindKept(q);
    if i < |q.types| {
      RowsShowTheSums(m, counts, q.types, q.types, q.exact, i);
      ActiveOfRow(m, counts, q.types, q.types[i]);
    }
    NoTypesNoRows(m, counts, q.types, q.exact);
  }

  lemma ActiveOfRow(m: map<Key, nat>, counts: map<string, nat>, types: seq<ProcessType>, t: ProcessType)
    ensures var row := TypeRowOf(m, counts, types, t, true);
            row.name == t.name && row.plural == t.plural && row.active == Held(counts, "active:" + t.name)
  {
    hide TypeSum;
  }

  // ----- What a funder measure counts -----

  /** The type feeds a measure by participation counted on the hub. */
  predicate FeedsHere(t: ProcessType, id: string) {
    Feeds(t, id, TakingPart) && !TakesPartElsewhere(t)
  }

  /** The keys by which some of the types feed a measure on the hub. */
  function FeedingHere(types: seq<ProcessType>, ts: seq<ProcessType>, id: string): Key -> bool {
    (k: Key) => NamedHere(ts, id, k.processType) && TakingPart in RolesOf(types, k.processType, k.eventType)
  }

  predicate NamedHere(ts: seq<ProcessType>, id: string, name: string) {
    exists i :: 0 <= i < |ts| && FeedsHere(ts[i], id) && ts[i].name == name
  }

  /** The keys by which some of the types feed a measure by their outcomes. */
  function FeedingOutcome(types: seq<ProcessType>, ts: seq<ProcessType>, id: string): Key -> bool {
    (k: Key) => NamedOutcome(ts, id, k.processType) && Outcome in RolesOf(types, k.processType, k.eventType)
  }

  predicate NamedOutcome(ts: seq<ProcessType>, id: string, name: string) {
    exists i :: 0 <= i < |ts| && Feeds(ts[i], id, Outcome) && ts[i].name == name
  }

  lemma NamedHereStep(ts: seq<ProcessType>, id: string, name: string)
    requires ts != []
    ensures var n := |ts| - 1;
            (NamedHere(ts, id, name) <==> NamedHere(ts[..n], id, name) || (FeedsHere(ts[n], id) && ts[n].name == name)) &&
            (NamedOutcome(ts, id, name) <==> NamedOutcome(ts[..n], id, name) || (Feeds(ts[n], id, Outcome) && ts[n].name == name))
  {
    hide FeedsHere, Feeds;
    var rest := ts[..|ts| - 1];
    forall i | 0 <= i < |rest| ensures rest[i] == ts[i] {
    }
    if i :| 0 <= i < |rest| && FeedsHere(rest[i], id) && rest[i].name == name {
      assert FeedsHere(ts[i], id);
    }
    if i :| 0 <= i < |ts| && FeedsHere(ts[i], id) && ts[i].name == name && i < |rest| {
      assert FeedsHere(rest[i], id);
    }
    if i :| 0 <= i < |rest| && Feeds(rest[i], id, Outcome) && rest[i].name == name {
      assert Feeds(ts[i], id, Outcome);
    }
    if i :| 0 <= i < |ts| && Feeds(ts[i], id, Outcome) && ts[i].name == name && i < |rest| {
      assert Feeds(rest[i], id, Outcome);
    }
  }

  /** A type counted on the hub has no totals recorded for it elsewhere, where no other type has its name. */
  lemma {:induction false} NoneElsewhere(types: seq<ProcessType>, t: ProcessType, counts: map<string, nat>)
    requires DistinctNames(types) && !TakesPartElsewhere(t)
    requires t in types || !Named(types, t.name)
    ensures ElsewhereSum(types, t.name, counts) == 0
  {
    if types != [] {
      var n := |types| - 1;
      assert types == types[..n] + [types[n]];
      NamedStep(types, t.name);
      if types[n].name == t.name {
        assert types[n] == t by {
          var i :| 0 <= i < |types| && types[i] == t;
        }
        assert !Named(types[..n], t.name);
      }
      NoneElsewhere(types[..n], t, counts);
    }
  }

  lemma {:induction false} HubRecordsCount(types: seq<ProcessType>, ts: seq<ProcessType>, id: string, m: map<Key, nat>, counts: map<string, nat>)
    requires DistinctNames(types) && ts <= types
    ensures HubRecords(Feeders(ts, id, TakingPart), m, counts, types) == SumOver(m, FeedingHere(types, ts, id))
  {
    if ts == [] {
      NothingSums(m, FeedingHere(types, ts, id));
    } else {
      var n := |ts| - 1;
      var t := ts[n];
      HubRecordsCount(types, ts[..n], id, m, counts);
      forall name ensures NamedHere(ts, id, name) <==> NamedHere(ts[..n], id, name) || (FeedsHere(t, id) && t.name == name) {
        NamedHereStep(ts, id, name);
      }
      assert types[n] == t && t in types;
      FeederStep(ts, id, TakingPart);
      hide RolesOf, SumOver, ElsewhereSum, Feeders, NamedHere, DistinctNames;
      if FeedsHere(t, id) {
        NotNamedBefore(types, n, id);
        NoneElsewhere(types, t, counts);
        SumsAdd(m, FeedingHere(types, ts[..n], id), Playing(types, t.name, TakingPart), FeedingHere(types, ts, id));
        LastRecords(Feeders(ts[..n], id, TakingPart), t, m, counts, types);
      } else {
        SameSum(m, FeedingHere(types, ts[..n], id), FeedingHere(types, ts, id));
        LastRecords(Feeders(ts[..n], id, TakingPart), t, m, counts, types);
      }
    }
  }

  lemma FeederStep(ts: seq<ProcessType>, id: string, role: Role)
    requires ts != []
    ensures var n := |ts| - 1;
            Feeders(ts, id, role) == if Feeds(ts[n], id, role) then Feeders(ts[..n], id, role) + [ts[n]] else Feeders(ts[..n], id, role)
  {
  }

  lemma LastRecords(via: seq<ProcessType>, t: ProcessType, m: map<Key, nat>, counts: map<string, nat>, types: seq<ProcessType>)
    ensures HubRecords(via + [t], m, counts, types) ==
              HubRecords(via, m, counts, types) + if TakesPartElsewhere(t) then 0 else TypeSum(m, counts, types, t.name, TakingPart)
    ensures OutcomeRecords(via + [t], m, counts, types) == OutcomeRecords(via, m, counts, types) + TypeSum(m, counts, types, t.name, Outcome)
  {
    hide TypeSum;
    assert (via + [t])[..|via|] == via;
  }

  lemma NotNamedBefore(types: seq<ProcessType>, n: nat, id: string)
    requires DistinctNames(types) && n < |types|
    ensures !NamedHere(types[..n], id, types[n].name) && !NamedOutcome(types[..n], id, types[n].name)
  {
    hide FeedsHere, Feeds;
  }

  lemma {:induction false} OutcomeRecordsCount(types: seq<ProcessType>, ts: seq<ProcessType>, id: string, m: map<Key, nat>, counts: map<string, nat>)
    requires DistinctNames(types) && ts <= types
    ensures OutcomeRecords(Feeders(ts, id, Outcome), m, counts, types) == SumOver(m, FeedingOutcome(types, ts, id))
  {
    hide RolesOf, SumOver, ElsewhereSum, Feeders, NamedOutcome, DistinctNames, Feeds, OutcomeRecords;
    if ts == [] {
      NoOutcome(types, id, m, counts);
    } else {
      var n := |ts| - 1;
      var t := ts[n];
      assert types[n] == t;
      OutcomeRecordsCount(types, ts[..n], id, m, counts);
      forall name ensures NamedOutcome(ts, id, name) <==> NamedOutcome(ts[..n], id, name) || (Feeds(t, id, Outcome) && t.name == name) {
        NamedHereStep(ts, id, name);
      }
      FeederStep(ts, id, Outcome);
      OutcomeStep(types, ts[..n], t, id, m, counts);
      if Feeds(t, id, Outcome) {
        NotNamedBefore(types, n, id);
        assert ts[..n] == types[..n];
        SumsAdd(m, FeedingOutcome(types, ts[..n], id), Playing(types, t.name, Outcome), FeedingOutcome(types, ts, id));
      } else {
        SameSum(m, FeedingOutcome(types, ts[..n], id), FeedingOutcome(types, ts, id));
      }
    }
  }

  lemma NoOutcome(types: seq<ProcessType>, id: string, m: map<Key, nat>, counts: map<string, nat>)
    ensures OutcomeRecords(Feeders([], id, Outcome), m, counts, types) == SumOver(m, FeedingOutcome(types, [], id))
  {
    NothingSums(m, FeedingOutcome(types, [], id));
  }

  lemma OutcomeStep(types: seq<ProcessType>, ts: seq<ProcessType>, t: ProcessType, id: string, m: map<Key, nat>, counts: map<string, nat>)
    ensures OutcomeRecords(Feeders(ts, id, Outcome) + [t], m, counts, types) ==
            OutcomeRecords(Feeders(ts, id, Outcome), m, counts, types) + SumOver(m, Playing(types, t.name, Outcome))
  {
    LastRecords(Feeders(ts, id, Outcome), t, m, counts, types);
  }

  /** A measure's records are the events of the log by which its types feed it, on the hub or by their outcomes. */
  lemma MeasureRecordsCountTheLog(types: seq<ProcessType>, id: string, log: Log, from: int, to: int, counts: map<string, nat>)
    requires DistinctNames(types)
    ensures MeasureRecords(types, id, CountByDay(log, from, to), counts) ==
            LogCount(log, from, to, FeedingHere(types, types, id)) + LogCount(log, from, to, FeedingOutcome(types, types, id))
  {
    hide CountByDay, HubRecords, OutcomeRecords, Feeders, FeedingHere, FeedingOutcome;
    var m := CountByDay(log, from, to);
    HubRecordsCount(types, types, id, m, counts);
    OutcomeRecordsCount(types, types, id, m, counts);
    SumsCountTheLog(log, from, to, FeedingHere(types, types, id));
    SumsCountTheLog(log, from, to, FeedingOutcome(types, types, id));
  }

  /** The totals recorded for the types that feed a measure from elsewhere. */
  function RecordedFor(types: seq<ProcessType>, id: string, counts: map<string, nat>): nat {
    if types == [] then 0
    else
      var t := types[|types| - 1];
      RecordedFor(types[..|types| - 1], id, counts) +
      if Feeds(t, id, TakingPart) && t.participation.value.participation.Elsewhere? && "total:" + t.name in counts then counts["total:" + t.name] else 0
  }

  lemma {:induction false} ElsewhereOfFeeders(types: seq<ProcessType>, id: string, counts: map<string, nat>)
    ensures ElsewhereAll(Feeders(types, id, TakingPart), counts) == RecordedFor(types, id, counts)
  {
    if types != [] {
      var n := |types| - 1;
      ElsewhereOfFeeders(types[..n], id, counts);
      FeederStep(types, id, TakingPart);
      ElsewhereAppend(Feeders(types[..n], id, TakingPart), types[n], "", counts);
    }
  }

  /**
    A measure's residents: the totals recorded for the types that feed it from elsewhere, those counted on the
    hub where one of its types lists participation, and the sources of its outcomes where one of them names a field.
   */
  lemma MeasureResidentsAre(types: seq<ProcessType>, id: string, counts: map<string, nat>)
    ensures MeasureResidents(types, id, counts) ==
            RecordedFor(types, id, counts) +
            (if (exists i :: 0 <= i < |types| && Feeds(types[i], id, TakingPart) && types[i].participation.value.participation.Listed?)
                && "measure:" + id in counts then counts["measure:" + id] else 0) +
            (if (exists i :: 0 <= i < |types| && Feeds(types[i], id, Outcome) && SourceField(types[i]).Some?)
                && "source:" + id in counts then counts["source:" + id] else 0)
  {
    var via, out := Feeders(types, id, TakingPart), Feeders(types, id, Outcome);
    ElsewhereOfFeeders(types, id, counts);
    ListedFeeder(types, id);
    SourcedFeeder(types, id);
    hide Feeders, Residents, SourceField, Feeds, ElsewhereAll, RecordedFor, SummarizesSources;
  }

  lemma ListedFeeder(types: seq<ProcessType>, id: string)
    ensures Residents(Feeders(types, id, TakingPart)) != [] <==>
            exists i :: 0 <= i < |types| && Feeds(types[i], id, TakingPart) && types[i].participation.value.participation.Listed?
  {
    hide Feeders, Residents;
    var rs := Residents(Feeders(types, id, TakingPart));
    if rs != [] {
      ResidentFeeders(types, id, rs[0]);
      var i :| 0 <= i < |types| && types[i] == rs[0];
    }
    if i :| 0 <= i < |types| && Feeds(types[i], id, TakingPart) && types[i].participation.value.participation.Listed? {
      ResidentFeeders(types, id, types[i]);
      assert types[i] in rs;
    }
  }

  lemma SourcedFeeder(types: seq<ProcessType>, id: string)
    ensures SummarizesSources(Feeders(types, id, Outcome)) <==>
            exists i :: 0 <= i < |types| && Feeds(types[i], id, Outcome) && SourceField(types[i]).Some?
  {
    hide Feeders, SourceField, Feeds;
    var via := Feeders(types, id, Outcome);
    if i :| 0 <= i < |via| && SourceField(via[i]).Some? {
      FeedersIn(types, id, Outcome, via[i]);
      var k :| 0 <= k < |types| && types[k] == via[i];
      assert Feeds(types[k], id, Outcome);
    }
    if i :| 0 <= i < |types| && Feeds(types[i], id, Outcome) && SourceField(types[i]).Some? {
      FeedersIn(types, id, Outcome, types[i]);
      var k :| 0 <= k < |via| && via[k] == types[i];
      assert SourceField(via[k]).Some?;
    }
  }

  /** One row to each of the three funder measures, showing these two numbers. */
  lemma MeasureRowsShow(q: Request, m: map<Key, nat>, counts: map<string, nat>, at: Option<int>, live: bool)
    requires q.exact
    ensures var r := ReportOf(q, m, counts, at, live);
            && |r.measures| == 3
            && r.measures[0].id == "met_in_public" && r.measures[1].id == "worked_with_neighbours"
            && r.measures[2].id == "contacted_an_official"
            && forall i :: 0 <= i < 3 ==>
                 && r.measures[i].residents == Number(MeasureResidents(q.types, r.measures[i].id, counts))
                 && r.measures[i].records == Number(MeasureRecords(q.types, r.measures[i].id, m, counts))
                 && r.measures[i].derivation == q.words.derivation(r.measures[i].id, r.period.start, r.period.end)
  {
    hide TypeRows, TotalSum, MeasureResidents, MeasureRecords, PeriodOf, PreviousPeriod, MeasureRows;
    var p := PeriodFor(q);
    MeasureRowAt(q, m, counts, p.start, Rollup.EndBy(p, q.today), MEASURES);
  }

  lemma {:induction false} MeasureRowAt(q: Request, m: map<Key, nat>, counts: map<string, nat>, start: int, end: int, ids: seq<string>)
    requires q.exact
    ensures var rows := MeasureRows(m, counts, q, start, end, ids);
            |rows| == |ids| &&
            forall i :: 0 <= i < |ids| ==>
              rows[i] == MeasureRow(ids[i], q.words.measure(ids[i]), Number(MeasureResidents(q.types, ids[i], counts)),
                                    Number(MeasureRecords(q.types, ids[i], m, counts)), q.words.derivation(ids[i], start, end))
  {
    hide MeasureResidents, MeasureRecords;
    if ids != [] {
      MeasureRowAt(q, m, counts, start, end, ids[..|ids| - 1]);
    }
  }
}
