/**
  What the analytics job keeps over whole runs: after every rollup, however
  little it re-read, both tables are what recounting the whole log would give.
 */
module RollupRuns {
  import opened Wrappers
  import opened Calendar
  import opened EventLog
  import opened Rollup

  // ----- Days -----

  /** What an incremental run stores for one key. */
  lemma StoredAfter(daily: map<Key, nat>, log: Log, more: Log, before: int, today: int, k: Key)
    requires daily == CountByDay(log, BEGINNING, before) && before <= today
    ensures var from, after := WindowStart(daily, false), DailyAfter(daily, log + more, today, false);
            var stored := if from <= k.day then CountOf(log, k) + CountOf(more, k) else CountOf(log, k);
            BEGINNING - 1 <= from && (from < BEGINNING ==> from <= today) &&
            (k in after <==> stored > 0 && (BEGINNING <= k.day || from <= k.day) && k.day <= today) &&
            (k in after ==> after[k] == stored)
  {
    var from := WindowStart(daily, false);
    CountedAll(log, BEGINNING, before);
    CountedAll(log + more, from, today);
    CountOfAppend(log, more, k);
    hide CountByDay, CountOf;
    if daily != map[] {
      var last :| last in daily && last.day == LastDay(daily);
    }
  }

  /** Nothing of `more` lies on the days `low` to before `from`. */
  ghost predicate NoneIn(more: Log, low: int, from: int) {
    forall e :: e in more && !e.sample && low <= e.day ==> from <= e.day
  }

  /** Nothing is counted under `k` where a run starting at `from` does not look, or looks too far back. */
  predicate Clean(log: Log, more: Log, from: int, k: Key) {
    (BEGINNING <= k.day < from ==> CountOf(more, k) == 0) &&
    (from <= k.day < BEGINNING ==> CountOf(log + more, k) == 0)
  }

  lemma CleanIff(log: Log, more: Log, from: int)
    ensures (forall k :: Clean(log, more, from, k)) <==> NoneIn(more, BEGINNING, from) && NoneIn(log + more, from, BEGINNING)
  {
    hide CountOf;
    if NoneIn(more, BEGINNING, from) && NoneIn(log + more, from, BEGINNING) {
      forall k ensures Clean(log, more, from, k) {
        CountOfPositive(more, k);
        CountOfPositive(log + more, k);
      }
    } else if e :| e in more && !e.sample && BEGINNING <= e.day < from {
      CountOfPositive(more, KeyOf(e));
      assert !Clean(log, more, from, KeyOf(e));
    } else {
      var e :| e in log + more && !e.sample && from <= e.day < BEGINNING;
      CountOfPositive(log + more, KeyOf(e));
      assert !Clean(log, more, from, KeyOf(e));
    }
  }

  predicate SameEntry(a: map<Key, nat>, b: map<Key, nat>, k: Key) {
    (k in a <==> k in b) && (k in a ==> a[k] == b[k])
  }

  lemma SameEntries(a: map<Key, nat>, b: map<Key, nat>)
    ensures a == b <==> forall k :: SameEntry(a, b, k)
  {
    if forall k :: SameEntry(a, b, k) {
      forall k ensures k in a <==> k in b {
        assert SameEntry(a, b, k);
      }
      forall k | k in a ensures a[k] == b[k] {
        assert SameEntry(a, b, k);
      }
    }
  }

  /** One key is right after an incremental run unless something was logged under it where the run does not look. */
  lemma EntryIff(daily: map<Key, nat>, log: Log, more: Log, before: int, today: int, k: Key)
    requires daily == CountByDay(log, BEGINNING, before) && before <= today
    ensures var from := WindowStart(daily, false);
            SameEntry(DailyAfter(daily, log + more, today, false), CountByDay(log + more, BEGINNING, today), k) <==>
              Clean(log, more, from, k)
  {
    StoredAfter(daily, log, more, before, today, k);
    CountOfAppend(log, more, k);
    CountedIff(log + more, BEGINNING, today, k);
    StartWithin(daily, log, before, today);
    hide CountOf, WindowStart, DailyAfter, KeysIn;
  }

  lemma StartWithin(daily: map<Key, nat>, log: Log, before: int, today: int)
    requires daily == CountByDay(log, BEGINNING, before) && before <= today
    ensures WindowStart(daily, false) <= today || WindowStart(daily, false) == BEGINNING
  {
    if daily != map[] {
      var last :| last in daily && last.day == LastDay(daily);
    }
  }

  /**
    An incremental run over a table that was right leaves it right exactly when
    nothing was logged since into the days it does not re-read, and nothing at
    all on the day before the beginning in the one case the window reaches it.
   */
  lemma DailyExactIff(daily: map<Key, nat>, log: Log, more: Log, before: int, today: int)
    requires daily == CountByDay(log, BEGINNING, before) && before <= today
    ensures var from := WindowStart(daily, false);
            DailyAfter(daily, log + more, today, false) == CountByDay(log + more, BEGINNING, today) <==>
              NoneIn(more, BEGINNING, from) && NoneIn(log + more, from, BEGINNING)
  {
    var from, all := WindowStart(daily, false), log + more;
    var after, whole := DailyAfter(daily, all, today, false), CountByDay(all, BEGINNING, today);
    CleanIff(log, more, from);
    forall k ensures SameEntry(after, whole, k) <==> Clean(log, more, from, k) {
      EntryIff(daily, log, more, before, today, k);
    }
    hide CountByDay, CountOf, WindowStart, DailyAfter, NoneIn, Clean;
    SameEntries(after, whole);
  }

  /** Two days of it, in one order and the other: an event dated two days before the last stored one is missed. */
  lemma LateEventIsMissed(e: Event, today: int)
    requires !e.sample && BEGINNING + 2 <= e.day == today
    ensures var log, late := [e], [e.(day := e.day - 2)];
            var daily := CountByDay(log, BEGINNING, today);
            DailyAfter(daily, log + late, today, false) != CountByDay(log + late, BEGINNING, today)
  {
    var log, late := [e], [e.(day := e.day - 2)];
    var daily := CountByDay(log, BEGINNING, today);
    LastIs(log, e, today);
    DailyExactIff(daily, log, late, today, today);
    assert late[0] in late;
    hide CountByDay, DailyAfter, WindowStart;
  }

  lemma LastIs(log: Log, e: Event, today: int)
    requires log == [e] && !e.sample && BEGINNING <= e.day <= today
    ensures WindowStart(CountByDay(log, BEGINNING, today), false) == e.day - 1
  {
    var daily := CountByDay(log, BEGINNING, today);
    assert e in log && KeyOf(e) in daily;
    var last :| last in daily && last.day == LastDay(daily);
    hide CountOf;
  }

  /** The window reaches the day before the beginning: an event dated there is stored, and no recount has it. */
  lemma DayBeforeBeginningIsStored(e: Event)
    requires !e.sample && e.day == BEGINNING
    ensures var log, early := [e], [e.(day := BEGINNING - 1)];
            var daily := CountByDay(log, BEGINNING, BEGINNING);
            DailyAfter(daily, log + early, BEGINNING, false) != CountByDay(log + early, BEGINNING, BEGINNING)
  {
    var log, early := [e], [e.(day := BEGINNING - 1)];
    LastIs(log, e, BEGINNING);
    DailyExactIff(CountByDay(log, BEGINNING, BEGINNING), log, early, BEGINNING, BEGINNING);
    assert early[0] in log + early;
    hide CountByDay, DailyAfter, WindowStart;
  }

  /** A full run is right whatever was logged exactly when every day stored before it lies between the beginning and today. */
  lemma FullDailyExactIff(daily: map<Key, nat>, log: Log, today: int)
    ensures DailyAfter(daily, log, today, true) == CountByDay(log, BEGINNING, today) <==>
            forall k :: k in daily ==> BEGINNING <= k.day <= today
  {
    var after, whole := DailyAfter(daily, log, today, true), CountByDay(log, BEGINNING, today);
    CountedAll(log, BEGINNING, today);
    hide CountByDay, CountOf;
    if k :| k in daily && !(BEGINNING <= k.day <= today) {
      assert k in after && k !in whole;
    }
  }

  // ----- Periods -----

  /** The rows of one period are `counts`, each with the day they were counted to, and no others. */
  ghost predicate Stores(t: PeriodTable, kind: PeriodKind, start: int, end: int, counts: map<string, nat>) {
    (forall m :: PeriodKey(kind, start, m) in t <==> m in counts) &&
    (forall m :: m in counts ==> t[PeriodKey(kind, start, m)].end == end && t[PeriodKey(kind, start, m)].value == counts[m])
  }

  /** A period's stored rows are its counts up to `today`, over its whole span once it is over. */
  ghost predicate Exact(t: PeriodTable, c: Counter, log: Log, p: Period, today: int, launch: int) {
    var end := EndBy(p, today);
    var counts := CountActors(c, log, WindowOf(p, end, launch));
    Stores(t, p.kind, p.start, end, counts)
  }

  predicate Since(kind: PeriodKind, i: int, today: int, launch: int)
    requires kind != All
  {
    IndexOf(kind, launch) <= i <= IndexOf(kind, today)
  }

  ghost predicate Known(k: PeriodKey, today: int, launch: int) {
    if k.kind == All then k.start == launch
    else exists i :: Since(k.kind, i, today, launch) && k.start == StartOf(k.kind, i)
  }

  /** The table holds every period from launch to today, each exact, and nothing else. */
  ghost predicate Coherent(t: PeriodTable, c: Counter, log: Log, today: int, launch: int) {
    Exact(t, c, log, PeriodOf(All, today, launch), today, launch) &&
    (forall kind, i :: kind != All && Since(kind, i, today, launch) ==> Exact(t, c, log, Numbered(kind, i), today, launch)) &&
    (forall k :: k in t ==> Known(k, today, launch))
  }

  ghost predicate SameRows(t: PeriodTable, u: PeriodTable, kind: PeriodKind, start: int) {
    forall m :: (PeriodKey(kind, start, m) in t <==> PeriodKey(kind, start, m) in u) &&
                (PeriodKey(kind, start, m) in t ==> t[PeriodKey(kind, start, m)] == u[PeriodKey(kind, start, m)])
  }

  lemma {:induction false} RolledRows(t: PeriodTable, c: Counter, ps: seq<Period>, p: Period, log: Log, today: int, launch: int, now: int)
    requires forall q :: q in ps && q.kind == p.kind && q.start == p.start ==> q == p
    ensures var u := RollEach(t, c, ps, log, today, launch, now);
            if p in ps then Exact(u, c, log, p, today, launch) else SameRows(t, u, p.kind, p.start)
  {
    hide CountActors, WindowOf, PeriodAfter, Exact;
    if ps != [] {
      var n := |ps| - 1;
      RolledRows(t, c, ps[..n], p, log, today, launch, now);
      assert ps == ps[..n] + [ps[n]];
      var before := RollEach(t, c, ps[..n], log, today, launch, now);
      AfterRows(before, c, ps[n], p, log, today, launch, now);
      if p != ps[n] && p in ps[..n] {
        ExactCarries(before, PeriodAfter(before, c, ps[n], log, today, launch, now), c, log, p, today, launch);
      }
    }
  }

  lemma ExactCarries(t: PeriodTable, u: PeriodTable, c: Counter, log: Log, p: Period, today: int, launch: int)
    requires Exact(t, c, log, p, today, launch) && SameRows(t, u, p.kind, p.start)
    ensures Exact(u, c, log, p, today, launch)
  {
    hide CountActors, WindowOf;
  }

  lemma AfterRows(t: PeriodTable, c: Counter, q: Period, p: Period, log: Log, today: int, launch: int, now: int)
    requires q.kind == p.kind && q.start == p.start ==> q == p
    ensures var u := PeriodAfter(t, c, q, log, today, launch, now);
            if q == p then Exact(u, c, log, p, today, launch) else SameRows(t, u, p.kind, p.start)
  {
    hide CountActors, WindowOf;
  }

  lemma {:induction false} RolledKeys(t: PeriodTable, c: Counter, ps: seq<Period>, log: Log, today: int, launch: int, now: int, k: PeriodKey)
    requires k in RollEach(t, c, ps, log, today, launch, now)
    ensures k in t || exists q :: q in ps && q.kind == k.kind && q.start == k.start
  {
    hide CountActors, WindowOf;
    if ps != [] {
      var n := |ps| - 1;
      assert ps == ps[..n] + [ps[n]];
      if k.kind == ps[n].kind && k.start == ps[n].start {
        assert ps[n] in ps;
      } else {
        RolledKeys(t, c, ps[..n], log, today, launch, now, k);
      }
    }
  }

  /** A recounted period's rows carry the run's time; any other row is the one there was. */
  lemma {:induction false} RolledStamp(t: PeriodTable, c: Counter, ps: seq<Period>, log: Log, today: int, launch: int, now: int, k: PeriodKey)
    requires k in RollEach(t, c, ps, log, today, launch, now)
    ensures var u := RollEach(t, c, ps, log, today, launch, now);
            if exists q :: q in ps && q.kind == k.kind && q.start == k.start then u[k].computedAt == now else k in t && u[k] == t[k]
  {
    hide CountActors, WindowOf;
    if ps != [] {
      var n := |ps| - 1;
      assert ps == ps[..n] + [ps[n]];
      var before := RollEach(t, c, ps[..n], log, today, launch, now);
      if k.kind == ps[n].kind && k.start == ps[n].start {
        StampedNow(before, c, ps[n], log, today, launch, now, k);
        assert ps[n] in ps;
      } else {
        RolledStamp(t, c, ps[..n], log, today, launch, now, k);
      }
    }
  }

  lemma StampedNow(t: PeriodTable, c: Counter, p: Period, log: Log, today: int, launch: int, now: int, k: PeriodKey)
    requires k in PeriodAfter(t, c, p, log, today, launch, now) && k.kind == p.kind && k.start == p.start
    ensures PeriodAfter(t, c, p, log, today, launch, now)[k].computedAt == now
  {
    hide CountActors, WindowOf;
  }

  // ----- Which periods a run recounts -----

  predicate Due(kind: PeriodKind, i: int, first: bool, today: int, launch: int)
    requires kind != All
  {
    if first then Since(kind, i, today, launch)
    else i == IndexOf(kind, today) || (i == IndexOf(kind, today) - 1 && IndexOf(kind, launch) <= i)
  }

  lemma KindDue(kind: PeriodKind, first: bool, today: int, launch: int, p: Period)
    requires kind != All
    ensures p in KindPeriods(kind, first, today, launch) <==> exists i :: Due(kind, i, first, today, launch) && p == Numbered(kind, i)
  {
    hide PeriodOf, StartOf, IndexOf;
    var l, j := IndexOf(kind, launch), IndexOf(kind, today);
    if first {
      hide NumberedFrom;
      NumberedFromAt(kind, l, j);
      var ps := NumberedFrom(kind, l, j);
      if p in ps {
        var n :| 0 <= n < |ps| && ps[n] == p;
        assert Due(kind, l + n, first, today, launch) && p == Numbered(kind, l + n);
      }
      if i :| Due(kind, i, first, today, launch) && p == Numbered(kind, i) {
        assert ps[i - l] == p;
      }
    } else {
      PeriodOfIsNumbered(kind, today, launch);
      PreviousIsNumbered(kind, j, launch);
      StartsBefore(kind, j, launch);
      assert Due(kind, j, first, today, launch);
      if l < j {
        assert Due(kind, j - 1, first, today, launch);
      }
    }
  }

  lemma DueIff(first: bool, today: int, launch: int, p: Period)
    ensures p in PeriodsToRoll(first, today, launch) <==>
              (p.kind == All && p == PeriodOf(All, today, launch)) ||
              (p.kind != All && exists i :: Due(p.kind, i, first, today, launch) && p == Numbered(p.kind, i))
  {
    hide KindPeriods, Due, StartOf;
    KindDue(Week, first, today, launch, p);
    KindDue(Month, first, today, launch, p);
    KindDue(Quarter, first, today, launch, p);
  }

  lemma StartInjective(kind: PeriodKind, i: int, j: int)
    requires kind != All && StartOf(kind, i) == StartOf(kind, j)
    ensures i == j
  {
    hide StartOf;
    if i < j {
      StartsApart(kind, i, j);
    } else {
      StartsApart(kind, j, i);
    }
  }

  lemma OnePerStart(first: bool, today: int, launch: int, p: Period, q: Period)
    requires p == PeriodOf(All, today, launch) || (p.kind != All && exists i :: p == Numbered(p.kind, i))
    requires q in PeriodsToRoll(first, today, launch) && q.kind == p.kind && q.start == p.start
    ensures q == p
  {
    hide PeriodsToRoll, StartOf, Due;
    DueIff(first, today, launch, q);
    if p.kind != All {
      var i :| p == Numbered(p.kind, i);
      var j :| Due(q.kind, j, first, today, launch) && q == Numbered(q.kind, j);
      StartInjective(p.kind, i, j);
    }
  }

  lemma RolledPeriod(t: PeriodTable, c: Counter, first: bool, log: Log, today: int, launch: int, now: int, p: Period)
    requires p == PeriodOf(All, today, launch) || (p.kind != All && exists i :: p == Numbered(p.kind, i))
    ensures var ps := PeriodsToRoll(first, today, launch);
            var u := RollEach(t, c, ps, log, today, launch, now);
            if p in ps then Exact(u, c, log, p, today, launch) else SameRows(t, u, p.kind, p.start)
  {
    hide PeriodsToRoll, StartOf, RollEach, Exact, PeriodOf, SameRows;
    var ps := PeriodsToRoll(first, today, launch);
    forall r | r in ps && r.kind == p.kind && r.start == p.start ensures r == p {
      OnePerStart(first, today, launch, p, r);
    }
    RolledRows(t, c, ps, p, log, today, launch, now);
  }

  /** After a run, a period it recounts is exact, and one it does not keeps its rows. */
  lemma AfterRun(t: PeriodTable, c: Counter, log: Log, today: int, launch: int, full: bool, now: int, kind: PeriodKind, i: int)
    requires kind != All
    ensures var u := TableAfter(t, c, log, today, launch, full, now);
            if Due(kind, i, full || t == map[], today, launch) then Exact(u, c, log, Numbered(kind, i), today, launch)
            else SameRows(t, u, kind, StartOf(kind, i))
  {
    hide PeriodsToRoll, StartOf, Due, RollEach, Exact, PeriodOf;
    var first := full || t == map[];
    var p := Numbered(kind, i);
    DueIff(first, today, launch, p);
    RolledPeriod(WithoutStaleAll(t, launch), c, first, log, today, launch, now, p);
    if p in PeriodsToRoll(first, today, launch) {
      var j :| Due(kind, j, first, today, launch) && p == Numbered(kind, j);
      StartInjective(kind, i, j);
    }
  }

  lemma AllAfterRun(t: PeriodTable, c: Counter, log: Log, today: int, launch: int, full: bool, now: int)
    ensures Exact(TableAfter(t, c, log, today, launch, full, now), c, log, PeriodOf(All, today, launch), today, launch)
  {
    assert PeriodOf(All, today, launch).kind == All;
    hide PeriodsToRoll, RollEach, Exact, PeriodOf;
    var first := full || t == map[];
    DueIff(first, today, launch, PeriodOf(All, today, launch));
    RolledPeriod(WithoutStaleAll(t, launch), c, first, log, today, launch, now, PeriodOf(All, today, launch));
  }

  lemma CurrentIsDue(kind: PeriodKind, first: bool, today: int, launch: int)
    requires launch <= today
    ensures PeriodOf(kind, today, launch) in PeriodsToRoll(first, today, launch) && PeriodOf(kind, today, launch).kind == kind
  {
    KindOf(kind, today, launch);
    hide PeriodOf, PeriodsToRoll, StartOf, IndexOf;
    var p := PeriodOf(kind, today, launch);
    if kind != All {
      PeriodOfIsNumbered(kind, today, launch);
      IndexMonotone(kind, launch, today);
      assert Due(kind, IndexOf(kind, today), first, today, launch);
    }
    DueIff(first, today, launch, p);
  }

  /** A run leaves the current period of each kind exact, every row of it with the run's time. */
  lemma RunStamps(t: PeriodTable, c: Counter, log: Log, today: int, launch: int, full: bool, now: int, kind: PeriodKind)
    requires launch <= today
    ensures var u, p := TableAfter(t, c, log, today, launch, full, now), PeriodOf(kind, today, launch);
            Exact(u, c, log, p, today, launch) &&
            forall k :: k in u && k.kind == kind && k.start == p.start ==> u[k].computedAt == now
  {
    var u, p := TableAfter(t, c, log, today, launch, full, now), PeriodOf(kind, today, launch);
    hide PeriodOf, PeriodsToRoll, RollEach, Exact, StartOf, IndexOf, WithoutStaleAll;
    var first := full || t == map[];
    CurrentIsDue(kind, first, today, launch);
    if kind != All {
      PeriodOfIsNumbered(kind, today, launch);
    }
    RolledPeriod(WithoutStaleAll(t, launch), c, first, log, today, launch, now, p);
    forall k | k in u && k.kind == kind && k.start == p.start
      ensures u[k].computedAt == now
    {
      RolledStamp(WithoutStaleAll(t, launch), c, PeriodsToRoll(first, today, launch), log, today, launch, now, k);
    }
  }

  /** Rows that already counted the whole period stay exact when nothing was logged into it. */
  lemma ExactStays(t: PeriodTable, u: PeriodTable, c: Counter, log: Log, more: Log, p: Period, before: int, today: int, launch: int)
    requires Exact(t, c, log, p, before, launch)
    requires SameRows(t, u, p.kind, p.start)
    requires p.end <= before <= today
    requires forall e :: e in more ==> p.end < e.day
    ensures Exact(u, c, log + more, p, today, launch)
  {
    UpToAppend(log, more, p.end);
  }

  lemma WeeksApart(a: int, b: int)
    requires IndexOf(Week, b) <= IndexOf(Week, a) + 1
    ensures b - a <= 13
  {
    hide MonthIndex;
  }

  /** Runs in the same or adjacent weeks are in the same or adjacent months and quarters. */
  lemma WeeksSuffice(kind: PeriodKind, a: int, b: int)
    requires kind != All && a <= b
    requires IndexOf(Week, b) <= IndexOf(Week, a) + 1
    ensures IndexOf(kind, b) <= IndexOf(kind, a) + 1
  {
    hide IndexOf, StartOf;
    WeeksApart(a, b);
    if kind != Week {
      IndexBounds(kind, a);
      IndexBounds(kind, b);
      if IndexOf(kind, a) + 1 < IndexOf(kind, b) {
        StartsApart(kind, IndexOf(kind, a) + 1, IndexOf(kind, b));
      }
    }
  }

  /** The week before today's starts no earlier than the month or quarter before today's. */
  lemma WeekStartsLatest(kind: PeriodKind, today: int)
    requires kind != All
    ensures StartOf(kind, IndexOf(kind, today) - 1) <= StartOf(Week, IndexOf(Week, today) - 1)
  {
    var floor := StartOf(Week, IndexOf(Week, today) - 1);
    assert today - 13 <= floor;
    if kind != Week {
      hide StartOf, IndexOf;
      IndexBounds(kind, today);
      StartsApart(kind, IndexOf(kind, today) - 1, IndexOf(kind, today));
    }
  }

  /** No calendar week between two runs goes unvisited once it is over. */
  predicate NoGap(before: int, today: int) {
    IndexOf(Week, today) <= IndexOf(Week, before + 1) + 1
  }

  /** Everything logged since is dated in the week before today's or later. */
  ghost predicate OnTime(more: Log, today: int) {
    forall e :: e in more ==> StartOf(Week, IndexOf(Week, today) - 1) <= e.day
  }

  lemma RunKeepsCoherence(t: PeriodTable, c: Counter, log: Log, more: Log, before: int, today: int, launch: int, full: bool, now: int)
    requires launch <= before <= today
    requires Coherent(t, c, log, before, launch)
    requires full || t == map[] || (NoGap(before, today) && OnTime(more, today))
    ensures Coherent(TableAfter(t, c, log + more, today, launch, full, now), c, log + more, today, launch)
  {
    hide Exact, TableAfter, StartOf, IndexOf, SameRows, PeriodOf;
    var all := log + more;
    var u := TableAfter(t, c, all, today, launch, full, now);
    AllAfterRun(t, c, all, today, launch, full, now);
    forall kind, i | kind != All && Since(kind, i, today, launch)
      ensures Exact(u, c, all, Numbered(kind, i), today, launch)
    {
      AfterRun(t, c, all, today, launch, full, now, kind, i);
      if !Due(kind, i, full || t == map[], today, launch) {
        OldPeriod(more, kind, i, before, today, launch);
        ExactStays(t, u, c, log, more, Numbered(kind, i), before, today, launch);
      }
    }
    forall k | k in u ensures Known(k, today, launch) {
      KnownAfter(t, c, all, before, today, launch, full, now, k);
    }
  }

  /** A period an incremental run skips had ended by the run before, and nothing was logged into it since. */
  lemma OldPeriod(more: Log, kind: PeriodKind, i: int, before: int, today: int, launch: int)
    requires kind != All && launch <= before <= today
    requires NoGap(before, today) && OnTime(more, today)
    requires Since(kind, i, today, launch) && !Due(kind, i, false, today, launch)
    ensures Since(kind, i, before, launch) && Numbered(kind, i).end <= before
    ensures forall e :: e in more ==> Numbered(kind, i).end < e.day
  {
    hide StartOf, IndexOf;
    var j := IndexOf(kind, today);
    assert i <= j - 2;
    if before + 1 <= today {
      WeeksSuffice(kind, before + 1, today);
    } else {
      IndexMonotone(kind, before, before + 1);
    }
    assert j <= IndexOf(kind, before + 1) + 1;
    IndexBounds(kind, before + 1);
    StartsApart(kind, i + 1, IndexOf(kind, before + 1));
    assert StartOf(kind, i + 1) <= before + 1;
    StartsBefore(kind, i, before);
    StartsApart(kind, i, i + 1);
    WeekStartsLatest(kind, today);
    StartsApart(kind, i + 1, j - 1);
  }

  lemma KnownAfter(t: PeriodTable, c: Counter, log: Log, before: int, today: int, launch: int, full: bool, now: int, k: PeriodKey)
    requires launch <= before <= today
    requires forall j :: j in t ==> Known(j, before, launch)
    requires k in TableAfter(t, c, log, today, launch, full, now)
    ensures Known(k, today, launch)
  {
    hide RollEach, PeriodsToRoll, StartOf, IndexOf;
    var first := full || t == map[];
    var ps := PeriodsToRoll(first, today, launch);
    RolledKeys(WithoutStaleAll(t, launch), c, ps, log, today, launch, now, k);
    if k in WithoutStaleAll(t, launch) {
      if k.kind != All {
        var i :| Since(k.kind, i, before, launch) && k.start == StartOf(k.kind, i);
        IndexMonotone(k.kind, before, today);
        assert Since(k.kind, i, today, launch);
      }
    } else {
      var q :| q in ps && q.kind == k.kind && q.start == k.start;
      DueIff(first, today, launch, q);
      if k.kind != All {
        var i :| Due(q.kind, i, first, today, launch) && q == Numbered(q.kind, i);
        IndexMonotone(k.kind, launch, today);
        assert Since(k.kind, i, today, launch);
      }
    }
  }

  /** A first run over an empty table counts everything. */
  lemma FirstRunCoherent(c: Counter, log: Log, today: int, launch: int, full: bool, now: int)
    requires launch <= today
    ensures Coherent(TableAfter(map[], c, log, today, launch, full, now), c, log, today, launch)
  {
    hide Exact, TableAfter, StartOf, IndexOf, SameRows, PeriodOf;
    var u := TableAfter(map[], c, log, today, launch, full, now);
    AllAfterRun(map[], c, log, today, launch, full, now);
    forall kind, i | kind != All && Since(kind, i, today, launch)
      ensures Exact(u, c, log, Numbered(kind, i), today, launch)
    {
      AfterRun(map[], c, log, today, launch, full, now, kind, i);
    }
    forall k | k in u ensures Known(k, today, launch) {
      KnownAfter(map[], c, log, today, today, launch, full, now, k);
    }
  }

  lemma CoherentNotEmpty(t: PeriodTable, c: Counter, log: Log, today: int, launch: int)
    requires Coherent(t, c, log, today, launch)
    requires forall l, w :: c.count(l, w) != map[]
    ensures t != map[]
  {
    hide CountActors, WindowOf, StartOf, IndexOf;
    var p := PeriodOf(All, today, launch);
    NonEmptyCount(c, log, WindowOf(p, EndBy(p, today), launch));
    var m :| m in CountActors(c, log, WindowOf(p, EndBy(p, today), launch));
    assert PeriodKey(All, launch, m) in t;
  }

  /** A run that skips a finished week misses the one two before today's. */
  lemma GapSkips(before: int, today: int, launch: int)
    requires launch <= before <= today && !NoGap(before, today)
    ensures var i := IndexOf(Week, today) - 2;
            Since(Week, i, today, launch) && !Due(Week, i, false, today, launch) && before < Numbered(Week, i).end < today
  {
    hide StartOf, IndexOf;
    var i := IndexOf(Week, today) - 2;
    IndexMonotone(Week, launch, before + 1);
    IndexBounds(Week, today);
    IndexBounds(Week, before + 1);
    StartsApart(Week, IndexOf(Week, before + 1) + 1, i + 1);
    StartsApart(Week, i + 1, i + 2);
  }

  /** A stored row says up to which day its period was counted. */
  lemma StoredEnd(t: PeriodTable, c: Counter, log: Log, k: PeriodKey, i: int, today: int, launch: int)
    requires Coherent(t, c, log, today, launch)
    requires k in t && k.kind == Week && k.start == StartOf(Week, i)
    ensures t[k].end == EndBy(Numbered(Week, i), today)
  {
    hide CountActors, WindowOf, StartOf, IndexOf, PeriodOf;
    assert Known(k, today, launch);
    var j :| Since(Week, j, today, launch) && k.start == StartOf(Week, j);
    StartInjective(Week, i, j);
    assert Exact(t, c, log, Numbered(Week, i), today, launch);
    assert k == PeriodKey(Week, Numbered(Week, i).start, k.measure);
  }

  lemma SkippedNotExact(t: PeriodTable, u: PeriodTable, c: Counter, log: Log, i: int, before: int, today: int, launch: int)
    requires Coherent(t, c, log, before, launch)
    requires forall l, w :: c.count(l, w) != map[]
    requires SameRows(t, u, Week, StartOf(Week, i))
    requires before < Numbered(Week, i).end < today
    ensures !Exact(u, c, log, Numbered(Week, i), today, launch)
  {
    hide CountActors, WindowOf, StartOf, Coherent;
    var p := Numbered(Week, i);
    NonEmptyCount(c, log, WindowOf(p, p.end, launch));
    var m :| m in CountActors(c, log, WindowOf(p, p.end, launch));
    var k := PeriodKey(Week, p.start, m);
    if k in t {
      StoredEnd(t, c, log, k, i, before, launch);
      assert u[k] == t[k];
    }
  }

  lemma NothingIsOnTime(today: int)
    ensures OnTime([], today)
  {
  }

  /**
    With nothing new logged, an incremental run keeps the table right exactly
    when it comes no later than the week after the one following the last run:
    a week left half counted and then skipped stays half counted.
   */
  lemma GapIff(t: PeriodTable, c: Counter, log: Log, before: int, today: int, launch: int, now: int)
    requires launch <= before <= today
    requires Coherent(t, c, log, before, launch)
    requires forall l, w :: c.count(l, w) != map[]
    ensures Coherent(TableAfter(t, c, log, today, launch, false, now), c, log, today, launch) <==> NoGap(before, today)
  {
    hide TableAfter, StartOf, IndexOf, PeriodOf, Exact, SameRows, Due, Known, OnTime;
    CoherentNotEmpty(t, c, log, before, launch);
    assert log + [] == log;
    NothingIsOnTime(today);
    if NoGap(before, today) {
      RunKeepsCoherence(t, c, log, [], before, today, launch, false, now);
    } else {
      var i := IndexOf(Week, today) - 2;
      GapSkips(before, today, launch);
      AfterRun(t, c, log, today, launch, false, now, Week, i);
      SkippedNotExact(t, TableAfter(t, c, log, today, launch, false, now), c, log, i, before, today, launch);
    }
  }

  /** Launched and first run on Thursday 1 January 1970, run again on Monday 19 January: the weeks between stay half counted or uncounted. */
  lemma SkippedWeekStaysHalfCounted(c: Counter, log: Log, now: int)
    requires forall l, w :: c.count(l, w) != map[]
    ensures var t := TableAfter(map[], c, log, 0, 0, false, now);
            Coherent(t, c, log, 0, 0) && !Coherent(TableAfter(t, c, log, 18, 0, false, now), c, log, 18, 0)
  {
    hide TableAfter, Coherent;
    FirstRunCoherent(c, log, 0, 0, false, now);
    GapIff(TableAfter(map[], c, log, 0, 0, false, now), c, log, 0, 18, 0, now);
  }

  lemma NonEmptyCount(c: Counter, log: Log, w: Window)
    requires forall l, v :: c.count(l, v) != map[]
    ensures exists m :: m in CountActors(c, log, w)
  {
    var counts := CountActors(c, log, w);
    assert counts.Keys != {};
    var m :| m in counts.Keys;
  }

  /** After any run "all" has one start, whatever launch day it was counted from before. */
  lemma AllHasOneStart(t: PeriodTable, c: Counter, log: Log, today: int, launch: int, full: bool, now: int, k: PeriodKey)
    requires k in TableAfter(t, c, log, today, launch, full, now) && k.kind == All
    ensures k.start == launch
  {
    hide RollEach, PeriodsToRoll, StartOf, IndexOf;
    var first := full || t == map[];
    RolledKeys(WithoutStaleAll(t, launch), c, PeriodsToRoll(first, today, launch), log, today, launch, now, k);
    if k !in WithoutStaleAll(t, launch) {
      var q :| q in PeriodsToRoll(first, today, launch) && q.kind == k.kind && q.start == k.start;
      DueIff(first, today, launch, q);
    }
  }

  // ----- Whole runs -----

  /** The log, how much of it the last run saw, that run's day, and the tables. */
  datatype World = World(log: Log, seen: nat, last: Option<int>, daily: map<Key, nat>, period: PeriodTable)

  datatype Step = Append(events: Log) | Run(today: int, full: bool, now: int)

  const START: World := World([], 0, None, map[], map[])

  ghost function Next(c: Counter, launch: int, w: World, s: Step): World {
    match s
    case Append(events) => w.(log := w.log + events)
    case Run(today, full, now) =>
      World(w.log, |w.log|, Some(today),
            DailyAfter(w.daily, w.log, today, full),
            TableAfter(w.period, c, w.log, today, launch, full, now))
  }

  /** What each run may rely on: the clock, and what was logged since the last one. */
  ghost predicate Fair(launch: int, w: World, s: Step) {
    match s
    case Append(events) => forall e :: e in events ==> BEGINNING <= e.day
    case Run(today, full, _) =>
      launch <= today && w.seen <= |w.log| &&
      (w.last.Some? ==>
         w.last.value <= today &&
         (full || ((forall e :: e in w.log[w.seen..] ==> WindowStart(w.daily, false) <= e.day) &&
                   (w.period == map[] || (NoGap(w.last.value, today) && OnTime(w.log[w.seen..], today))))))
  }

  ghost predicate FairRun(c: Counter, launch: int, w: World, steps: seq<Step>)
    decreases |steps|
  {
    steps == [] || (Fair(launch, w, steps[0]) && FairRun(c, launch, Next(c, launch, w, steps[0]), steps[1..]))
  }

  ghost function After(c: Counter, launch: int, w: World, steps: seq<Step>): World
    decreases |steps|
  {
    if steps == [] then w else After(c, launch, Next(c, launch, w, steps[0]), steps[1..])
  }

  lemma TwoSteps(c: Counter, launch: int, w: World, s: Step, t: Step)
    ensures After(c, launch, w, [s, t]) == Next(c, launch, Next(c, launch, w, s), t)
    ensures FairRun(c, launch, w, [s, t]) <==> Fair(launch, w, s) && Fair(launch, Next(c, launch, w, s), t)
  {
    hide Next, Fair;
    var u := Next(c, launch, w, s);
    assert [s, t][1..] == [t] && [t][1..] == [];
    assert After(c, launch, u, [t]) == After(c, launch, Next(c, launch, u, t), []);
    assert FairRun(c, launch, u, [t]) <==> Fair(launch, u, t) && FairRun(c, launch, Next(c, launch, u, t), []);
  }

  ghost predicate Right(c: Counter, launch: int, w: World) {
    w.seen <= |w.log| &&
    (forall e :: e in w.log ==> BEGINNING <= e.day) &&
    match w.last
    case None => w.daily == map[] && w.period == map[]
    case Some(today) =>
      launch <= today &&
      w.daily == CountByDay(w.log[..w.seen], BEGINNING, today) &&
      Coherent(w.period, c, w.log[..w.seen], today, launch)
  }

  lemma StepKeepsRight(c: Counter, launch: int, w: World, s: Step)
    requires Right(c, launch, w) && Fair(launch, w, s)
    ensures Right(c, launch, Next(c, launch, w, s))
  {
    hide Coherent, TableAfter, DailyAfter, CountByDay, NoGap, OnTime, WindowStart;
    match s
    case Append(events) =>
      assert (w.log + events)[..w.seen] == w.log[..w.seen];
    case Run(today, full, now) =>
      assert w.log[..|w.log|] == w.log;
      var log, more := w.log[..w.seen], w.log[w.seen..];
      assert log + more == w.log;
      if w.last.None? {
        FirstRunCoherent(c, w.log, today, launch, full, now);
        FirstDailyExact(w.log, today, full);
      } else {
        RunKeepsCoherence(w.period, c, log, more, w.last.value, today, launch, full, now);
        RunKeepsDaily(w.daily, log, more, w.last.value, today, full);
      }
  }

  lemma FirstDailyExact(log: Log, today: int, full: bool)
    ensures DailyAfter(map[], log, today, full) == CountByDay(log, BEGINNING, today)
  {
  }

  lemma RunKeepsDaily(daily: map<Key, nat>, log: Log, more: Log, before: int, today: int, full: bool)
    requires daily == CountByDay(log, BEGINNING, before) && before <= today
    requires forall e :: e in log + more ==> BEGINNING <= e.day
    requires full || forall e :: e in more ==> WindowStart(daily, false) <= e.day
    ensures DailyAfter(daily, log + more, today, full) == CountByDay(log + more, BEGINNING, today)
  {
    CountedAll(log, BEGINNING, before);
    if full {
      FullDailyExactIff(daily, log + more, today);
    } else {
      DailyExactIff(daily, log, more, before, today);
    }
  }

  /**
    The main result.  Over any fair sequence of appends and runs, after each run
    the day table is a full recount of the log, every period from launch to today
    holds exactly its counts (over its whole span once it is over), no other row
    survives, and "all" has one start.
   */
  lemma {:induction false} RunsStayRight(c: Counter, launch: int, w: World, steps: seq<Step>)
    requires Right(c, launch, w) && FairRun(c, launch, w, steps)
    ensures Right(c, launch, After(c, launch, w, steps))
    decreases |steps|
  {
    hide Right, Fair, Next;
    if steps != [] {
      StepKeepsRight(c, launch, w, steps[0]);
      RunsStayRight(c, launch, Next(c, launch, w, steps[0]), steps[1..]);
    }
  }

  lemma RightFromTheStart(c: Counter, launch: int, steps: seq<Step>)
    requires FairRun(c, launch, START, steps)
    ensures Right(c, launch, After(c, launch, START, steps))
  {
    RunsStayRight(c, launch, START, steps);
  }

  // ----- What a stored count is a count of -----

  /** A week, month or quarter compares its residents with those of the whole period that ends the day before it. */
  lemma ComparesWithThePeriodBefore(kind: PeriodKind, day: int, end: int, launch: int)
    requires kind != All
    ensures var p := PeriodOf(kind, day, launch);
            var before := PeriodOf(kind, p.start - 1, launch);
            && WindowOf(p, end, launch) == Window(p.start, end, Some((before.start, before.end)))
            && before.start <= before.end && before.end + 1 == p.start
  {
    hide PeriodOf, AddDays;
    PreviousEndsTheDayBefore(kind, day, launch);
    KindOf(kind, day, launch);
  }

  lemma KindOf(kind: PeriodKind, day: int, launch: int)
    ensures PeriodOf(kind, day, launch).kind == kind
  {
  }

  /** "All" compares with nothing: it runs from the launch day, and no one was there before. */
  lemma AllComparesWithNothing(day: int, end: int, launch: int)
    ensures WindowOf(PeriodOf(All, day, launch), end, launch) == Window(launch, end, None)
  {
  }

  /**
    In particular: a period that ended before the last run's day stores exactly
    its counts over its whole span, against the whole period before it.
   */
  lemma EndedPeriodsWhole(c: Counter, launch: int, w: World, kind: PeriodKind, day: int)
    requires Right(c, launch, w) && w.last.Some? && kind != All
    requires launch <= day && PeriodOf(kind, day, launch).end < w.last.value
    ensures var p := PeriodOf(kind, day, launch);
            var before := PeriodOf(kind, p.start - 1, launch);
            && before.end + 1 == p.start
            && Stores(w.period, kind, p.start, p.end,
                      c.count(UpTo(w.log[..w.seen], p.end), Window(p.start, p.end, Some((before.start, before.end)))))
  {
    hide WindowOf, StartOf, IndexOf, PeriodOf, UpTo, Stores, CountByDay, Known;
    ComparesWithThePeriodBefore(kind, day, PeriodOf(kind, day, launch).end, launch);
    var i := IndexOf(kind, day);
    PeriodOfIsNumbered(kind, day, launch);
    IndexMonotone(kind, launch, day);
    IndexBounds(kind, day);
    IndexMonotone(kind, day, w.last.value);
    assert Exact(w.period, c, w.log[..w.seen], Numbered(kind, i), w.last.value, launch);
  }

  /** And the one today is in stores its counts so far, up to and with today, against the same. */
  lemma CurrentPeriodSoFar(c: Counter, launch: int, w: World, kind: PeriodKind)
    requires Right(c, launch, w) && w.last.Some? && kind != All
    ensures var today := w.last.value;
            var p := PeriodOf(kind, today, launch);
            var before := PeriodOf(kind, p.start - 1, launch);
            && before.end + 1 == p.start
            && Stores(w.period, kind, p.start, today,
                      c.count(UpTo(w.log[..w.seen], today), Window(p.start, today, Some((before.start, before.end)))))
  {
    var today := w.last.value;
    ComparesWithThePeriodBefore(kind, today, today, launch);
    hide WindowOf, StartOf, IndexOf, PeriodOf, UpTo, Stores, CountByDay, Known;
    PeriodHoldsItsDays(kind, today, today, launch);
    PeriodOfIsNumbered(kind, today, launch);
    IndexMonotone(kind, launch, today);
    assert Exact(w.period, c, w.log[..w.seen], Numbered(kind, IndexOf(kind, today)), today, launch);
  }

  /** "All" stores the counts since launch. */
  lemma AllSinceLaunch(c: Counter, launch: int, w: World)
    requires Right(c, launch, w) && w.last.Some?
    ensures var today := w.last.value;
            Stores(w.period, All, launch, today, c.count(UpTo(w.log[..w.seen], today), Window(launch, today, None)))
  {
    var today := w.last.value;
    AllComparesWithNothing(today, today, launch);
    hide WindowOf, StartOf, IndexOf, UpTo;
    assert Exact(w.period, c, w.log[..w.seen], PeriodOf(All, today, launch), today, launch);
  }

  // ----- The read limit over runs -----

  /** The measures a period holds when a run begins: what it counted in the last one, if it had begun by then. */
  function HeldSince(c: Counter, launch: int, w: World, p: Period): set<string>
    requires w.seen <= |w.log|
  {
    if w.last.Some? && p.start <= w.last.value then CountsOf(c, p, w.log[..w.seen], w.last.value, launch).Keys else {}
  }

  /** Each period due is read whole, with what it held and what it counts now, or has lost no measure. */
  predicate FitsRead(c: Counter, launch: int, w: World, today: int, full: bool)
    requires w.seen <= |w.log|
  {
    forall p :: p in PeriodsToRoll(full || w.period == map[], today, launch) ==>
      ReadClears(HeldSince(c, launch, w, p), CountsOf(c, p, w.log, today, launch).Keys)
  }

  lemma HeldIsStored(c: Counter, launch: int, w: World, first: bool, today: int, p: Period)
    requires Right(c, launch, w) && launch <= today
    requires p in PeriodsToRoll(first, today, launch)
    requires w.last.Some? ==> w.last.value <= today
    ensures MeasuresAt(WithoutStaleAll(w.period, launch), p.kind, p.start) == HeldSince(c, launch, w, p)
  {
    hide CountActors, WindowOf, StartOf, IndexOf, PreviousPeriod, KindPeriods, PeriodsToRoll, DailyAfter, CountByDay;
    DueIff(first, today, launch, p);
    if w.last.Some? {
      var log, last := w.log[..w.seen], w.last.value;
      if p.kind == All {
        assert Exact(w.period, c, log, PeriodOf(All, last, launch), last, launch);
        AllHeld(c, launch, w, today, p);
      } else {
        var i :| Due(p.kind, i, first, today, launch) && p == Numbered(p.kind, i);
        NumberedHeld(c, launch, w, p.kind, i, first, today);
      }
    }
  }

  lemma ExactMeasures(t: PeriodTable, c: Counter, log: Log, p: Period, today: int, launch: int)
    requires Exact(t, c, log, p, today, launch)
    ensures MeasuresAt(t, p.kind, p.start) == CountsOf(c, p, log, today, launch).Keys
  {
    hide CountActors, WindowOf, EndBy;
    var counts := CountsOf(c, p, log, today, launch);
    forall m
      ensures m in MeasuresAt(t, p.kind, p.start) <==> m in counts
    {
      if m in counts {
        assert PeriodKey(p.kind, p.start, m) in t;
      }
    }
  }

  lemma StaleAllAside(t: PeriodTable, launch: int, kind: PeriodKind, start: int)
    requires kind == All ==> start == launch
    ensures MeasuresAt(WithoutStaleAll(t, launch), kind, start) == MeasuresAt(t, kind, start)
  {
    var u := WithoutStaleAll(t, launch);
    forall k | k in t && k.kind == kind && k.start == start
      ensures k in u
    {
    }
  }

  lemma AllHeld(c: Counter, launch: int, w: World, today: int, p: Period)
    requires Right(c, launch, w) && w.last.Some? && w.last.value <= today && p == PeriodOf(All, today, launch)
    ensures MeasuresAt(WithoutStaleAll(w.period, launch), p.kind, p.start) == HeldSince(c, launch, w, p)
  {
    hide CountActors, DailyAfter, CountByDay, IndexOf, StartOf, Known;
    var log, last := w.log[..w.seen], w.last.value;
    var q := PeriodOf(All, last, launch);
    ExactMeasures(w.period, c, log, q, last, launch);
    StaleAllAside(w.period, launch, All, launch);
    assert WindowOf(q, EndBy(q, last), launch) == WindowOf(p, EndBy(p, last), launch);
  }

  lemma NumberedHeld(c: Counter, launch: int, w: World, kind: PeriodKind, i: int, first: bool, today: int)
    requires kind != All && Right(c, launch, w) && w.last.Some? && launch <= w.last.value <= today
    requires Due(kind, i, first, today, launch)
    ensures var p := Numbered(kind, i);
            MeasuresAt(WithoutStaleAll(w.period, launch), p.kind, p.start) == HeldSince(c, launch, w, p)
  {
    hide CountActors, WindowOf, DailyAfter, CountByDay, StartOf, IndexOf;
    var log, last, p := w.log[..w.seen], w.last.value, Numbered(kind, i);
    StaleAllAside(w.period, launch, kind, p.start);
    StartsBefore(kind, i, last);
    IndexMonotone(kind, launch, today);
    if Since(kind, i, last, launch) {
      assert Exact(w.period, c, log, p, last, launch);
      ExactMeasures(w.period, c, log, p, last, launch);
    } else {
      NotYetStored(w.period, c, log, kind, i, last, launch);
    }
  }

  lemma NotYetStored(t: PeriodTable, c: Counter, log: Log, kind: PeriodKind, i: int, last: int, launch: int)
    requires kind != All && Coherent(t, c, log, last, launch) && !Since(kind, i, last, launch)
    ensures MeasuresAt(t, kind, StartOf(kind, i)) == {}
  {
    hide Exact, StartOf, IndexOf;
    forall k | k in t && k.kind == kind && k.start == StartOf(kind, i)
      ensures false
    {
      assert Known(k, last, launch);
      var j :| Since(kind, j, last, launch) && k.start == StartOf(kind, j);
      StartInjective(kind, i, j);
    }
  }

  /** The turn of a period makes no difference to whether it clears: no other one touches its rows. */
  lemma {:induction false} ClearsInTurn(t: PeriodTable, c: Counter, ps: seq<Period>, log: Log, today: int, launch: int, now: int)
    requires forall p, q :: p in ps && q in ps && p.kind == q.kind && p.start == q.start ==> p == q
    requires forall p :: p in ps ==> Clears(t, c, p, log, today, launch)
    ensures EachClears(t, c, ps, log, today, launch, now)
    decreases |ps|
  {
    hide Clears, RollEach;
    if ps != [] {
      var n := |ps| - 1;
      forall p | p in ps[..n]
        ensures p in ps
      {
      }
      ClearsInTurn(t, c, ps[..n], log, today, launch, now);
      RolledRows(t, c, ps[..n], ps[n], log, today, launch, now);
      var u := RollEach(t, c, ps[..n], log, today, launch, now);
      if ps[n] in ps[..n] {
        ExactClears(u, c, ps[n], log, today, launch);
      } else {
        SameRowsClear(t, u, c, ps[n], log, today, launch);
      }
    }
  }

  lemma ExactClears(u: PeriodTable, c: Counter, p: Period, log: Log, today: int, launch: int)
    requires Exact(u, c, log, p, today, launch)
    ensures Clears(u, c, p, log, today, launch)
  {
    hide CountActors, WindowOf, Exact;
    ExactMeasures(u, c, log, p, today, launch);
  }

  lemma SameRowsClear(t: PeriodTable, u: PeriodTable, c: Counter, p: Period, log: Log, today: int, launch: int)
    requires SameRows(t, u, p.kind, p.start) && Clears(t, c, p, log, today, launch)
    ensures Clears(u, c, p, log, today, launch)
  {
    hide CountActors, WindowOf, ReadClears;
    forall m
      ensures m in MeasuresAt(t, p.kind, p.start) <==> m in MeasuresAt(u, p.kind, p.start)
    {
      if m in MeasuresAt(t, p.kind, p.start) {
        assert PeriodKey(p.kind, p.start, m) in u;
      }
      if m in MeasuresAt(u, p.kind, p.start) {
        assert PeriodKey(p.kind, p.start, m) in t;
      }
    }
    assert MeasuresAt(t, p.kind, p.start) == MeasuresAt(u, p.kind, p.start);
  }

  /**
    In a world a run has left right, the next run is sure to leave the whole period table as its counts say when,
    for each period due, what it last counted and what it counts now are at most 500 measures or none is lost.
   */
  lemma FittingRunClears(c: Counter, launch: int, w: World, today: int, full: bool, now: int)
    requires Right(c, launch, w) && launch <= today && (w.last.Some? ==> w.last.value <= today)
    requires FitsRead(c, launch, w, today, full)
    ensures RunClears(w.period, c, w.log, today, launch, full, now)
  {
    assert w.seen <= |w.log|;
    hide Right, PeriodsToRoll, Clears, EachClears, CountsOf, MeasuresAt, ReadClears, WithoutStaleAll;
    var first := full || w.period == map[];
    var ps := PeriodsToRoll(first, today, launch);
    forall p | p in ps
      ensures Clears(WithoutStaleAll(w.period, launch), c, p, w.log, today, launch)
    {
      HeldIsStored(c, launch, w, first, today, p);
      ClearsWhere(WithoutStaleAll(w.period, launch), c, p, w.log, today, launch, HeldSince(c, launch, w, p));
    }
    forall p, q | p in ps && q in ps && p.kind == q.kind && p.start == q.start
      ensures p == q
    {
      DueIff(first, today, launch, p);
      OnePerStart(first, today, launch, p, q);
    }
    ClearsInTurn(WithoutStaleAll(w.period, launch), c, ps, w.log, today, launch, now);
  }

  /** Every run of a sequence finds its periods fitting the read. */
  ghost predicate FittingRun(c: Counter, launch: int, w: World, steps: seq<Step>)
    decreases |steps|
  {
    steps == [] ||
    ((steps[0].Run? ==> w.seen <= |w.log| && FitsRead(c, launch, w, steps[0].today, steps[0].full)) &&
     FittingRun(c, launch, Next(c, launch, w, steps[0]), steps[1..]))
  }

  /** Every run of a sequence is sure to leave the table its counts. */
  ghost predicate ClearRun(c: Counter, launch: int, w: World, steps: seq<Step>)
    decreases |steps|
  {
    steps == [] ||
    ((steps[0].Run? ==> RunClears(w.period, c, w.log, steps[0].today, launch, steps[0].full, steps[0].now)) &&
     ClearRun(c, launch, Next(c, launch, w, steps[0]), steps[1..]))
  }

  /** Over any fair and fitting sequence the job leaves, run after run, the tables of which the main result speaks. */
  lemma {:induction false} FittingRunsClear(c: Counter, launch: int, w: World, steps: seq<Step>)
    requires Right(c, launch, w) && FairRun(c, launch, w, steps) && FittingRun(c, launch, w, steps)
    ensures ClearRun(c, launch, w, steps)
    decreases |steps|
  {
    hide Right, Next, RunClears, FitsRead;
    if steps != [] {
      var s := steps[0];
      if s.Run? {
        FittingRunClears(c, launch, w, s.today, s.full, s.now);
      }
      StepKeepsRight(c, launch, w, s);
      FittingRunsClear(c, launch, Next(c, launch, w, s), steps[1..]);
    }
  }

  lemma ClearsWhere(t: PeriodTable, c: Counter, p: Period, log: Log, today: int, launch: int, held: set<string>)
    requires MeasuresAt(t, p.kind, p.start) == held && ReadClears(held, CountsOf(c, p, log, today, launch).Keys)
    ensures Clears(t, c, p, log, today, launch)
  {
  }

  predicate SameStored(t: PeriodTable, u: PeriodTable, k: PeriodKey) {
    (k in t <==> k in u) && (k in t ==> t[k].end == u[k].end && t[k].value == u[k].value)
  }

  lemma SameWhereExact(t: PeriodTable, u: PeriodTable, c: Counter, log: Log, p: Period, today: int, launch: int, m: string)
    requires Exact(t, c, log, p, today, launch) && Exact(u, c, log, p, today, launch)
    ensures SameStored(t, u, PeriodKey(p.kind, p.start, m))
  {
    hide CountActors, WindowOf, EndBy;
  }

  lemma SameAt(t: PeriodTable, u: PeriodTable, c: Counter, log: Log, today: int, launch: int, k: PeriodKey)
    requires Coherent(t, c, log, today, launch) && Coherent(u, c, log, today, launch)
    requires Known(k, today, launch)
    ensures SameStored(t, u, k)
  {
    hide StartOf, IndexOf, Exact, SameStored;
    if k.kind == All {
      var p := PeriodOf(All, today, launch);
      SameWhereExact(t, u, c, log, p, today, launch, k.measure);
      assert k == PeriodKey(p.kind, p.start, k.measure);
    } else {
      var i :| Since(k.kind, i, today, launch) && k.start == StartOf(k.kind, i);
      var p := Numbered(k.kind, i);
      SameWhereExact(t, u, c, log, p, today, launch, k.measure);
      assert k == PeriodKey(p.kind, p.start, k.measure);
    }
  }

  /** Two tables right for the same log and day hold the same numbers. */
  lemma CoherentUnique(t: PeriodTable, u: PeriodTable, c: Counter, log: Log, today: int, launch: int)
    requires Coherent(t, c, log, today, launch) && Coherent(u, c, log, today, launch)
    ensures t.Keys == u.Keys
    ensures forall k :: k in t ==> t[k].end == u[k].end && t[k].value == u[k].value
  {
    hide Exact;
    forall k | k in t || k in u
      ensures SameStored(t, u, k)
    {
      hide Known, SameStored;
      SameAt(t, u, c, log, today, launch, k);
    }
  }

  /** Running again over the same log changes no count. */
  lemma RerunChangesNothing(c: Counter, launch: int, w: World, full: bool, now: int)
    requires Right(c, launch, w) && w.last.Some? && w.seen == |w.log|
    ensures var again := Next(c, launch, w, Run(w.last.value, full, now));
            again.daily == w.daily && again.period.Keys == w.period.Keys &&
            forall k :: k in w.period ==> again.period[k].end == w.period[k].end && again.period[k].value == w.period[k].value
  {
    var today := w.last.value;
    assert w.log[w.seen..] == [] && w.log[..w.seen] == w.log;
    var s := Run(today, full, now);
    assert NoGap(today, today) by {
      hide IndexOf;
      IndexMonotone(Week, today, today + 1);
    }
    StepKeepsRight(c, launch, w, s);
    CoherentUnique(w.period, Next(c, launch, w, s).period, c, w.log, today, launch);
  }
}
