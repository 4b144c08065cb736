/**
  The analytics job (features/analytics/rollup.ts): two derived tables kept up to
  date over the append-only event log, re-reading only from the day before the
  last stored day and only the current and the previous period of each kind.
 */
module Rollup {
  import opened Wrappers
  import opened Calendar
  import opened EventLog

  /** 2000-01-01, "before any hub's first event". */
  const BEGINNING: int := 10957

  lemma BeginningIsNewYear2000()
    ensures BEGINNING == MakeDay(2000, 0, 1)
  {
    KnownDays();
    hide MakeDay;
  }

  const CHUNK: nat := 500

  /** What one read of a period's stored measures returns at most. */
  const MEASURE_LIMIT: nat := 500

  datatype PeriodKey = PeriodKey(kind: PeriodKind, start: int, measure: string)

  datatype PeriodRow = PeriodRow(end: int, value: nat, computedAt: int)

  type PeriodTable = map<PeriodKey, PeriodRow>

  datatype DaysResult = DaysResult(from: int, to: int, rows: nat, removed: nat)

  datatype RollupResult = RollupResult(days: DaysResult, periods: nat, launch: int)

  // ----- The day table -----

  ghost predicate IsLastDay(daily: map<Key, nat>, day: int) {
    (exists k :: k in daily && k.day == day) && forall k :: k in daily ==> k.day <= day
  }

  lemma {:induction false} LastDayExists(keys: set<Key>)
    requires keys != {}
    ensures exists k :: k in keys && forall j :: j in keys ==> j.day <= k.day
  {
    var k :| k in keys;
    var rest := keys - {k};
    if rest == {} {
      assert keys == {k};
    } else {
      LastDayExists(rest);
      var m :| m in rest && forall j :: j in rest ==> j.day <= m.day;
      if k.day <= m.day {
        assert forall j :: j in keys ==> j == k || j in rest;
      } else {
        assert forall j :: j in keys ==> j == k || j in rest;
      }
    }
  }

  ghost function LastDay(daily: map<Key, nat>): (day: int)
    requires daily != map[]
    ensures IsLastDay(daily, day)
  {
    assert daily.Keys != {};
    LastDayExists(daily.Keys);
    var k :| k in daily.Keys && forall j :: j in daily.Keys ==> j.day <= k.day;
    k.day
  }

  /** The first day a run re-reads. */
  ghost function WindowStart(daily: map<Key, nat>, full: bool): int {
    if full || daily == map[] then BEGINNING else LastDay(daily) - 1
  }

  /** The day table after a run: the window replaced by its recount, the rest kept. */
  ghost function DailyAfter(daily: map<Key, nat>, log: Log, today: int, full: bool): map<Key, nat> {
    var from := WindowStart(daily, full);
    (map k | k in daily && !(from <= k.day <= today) :: daily[k]) + CountByDay(log, from, today)
  }

  // ----- The period table -----

  function WindowOf(p: Period, end: int, launch: int): Window {
    var prev := PreviousPeriod(p, launch);
    Window(p.start, end, if prev.None? then None else Some((prev.value.start, prev.value.end)))
  }

  function EndBy(p: Period, today: int): int {
    if p.end < today then p.end else today
  }

  function MeasuresAt(t: PeriodTable, kind: PeriodKind, start: int): set<string> {
    set k | k in t && k.kind == kind && k.start == start :: k.measure
  }

  function CountRowsOf(kind: PeriodKind, start: int, end: int, counts: map<string, nat>, now: int): PeriodTable {
    map m | m in counts :: PeriodKey(kind, start, m) := PeriodRow(end, counts[m], now)
  }

  /** The period table with one period's rows replaced by its counts. */
  function PeriodAfter(t: PeriodTable, c: Counter, p: Period, log: Log, today: int, launch: int, now: int): PeriodTable {
    var end := EndBy(p, today);
    (map k | k in t && !(k.kind == p.kind && k.start == p.start) :: t[k]) +
    CountRowsOf(p.kind, p.start, end, CountActors(c, log, WindowOf(p, end, launch)), now)
  }

  /** The periods of one calendar kind a run recounts. */
  function KindPeriods(kind: PeriodKind, first: bool, today: int, launch: int): seq<Period>
    requires kind != All
  {
    if first then PeriodsFrom(kind, launch, today)
    else
      var current := PeriodOf(kind, today, launch);
      var prev := PreviousPeriod(current, launch);
      (if prev.Some? && prev.value.end >= launch then [prev.value] else []) + [current]
  }

  function PeriodsToRoll(first: bool, today: int, launch: int): seq<Period> {
    KindPeriods(Week, first, today, launch) + KindPeriods(Month, first, today, launch) +
    KindPeriods(Quarter, first, today, launch) + [PeriodOf(All, today, launch)]
  }

  function WithoutStaleAll(t: PeriodTable, launch: int): PeriodTable {
    map k | k in t && !(k.kind == All && k.start != launch) :: t[k]
  }

  function RollEach(t: PeriodTable, c: Counter, ps: seq<Period>, log: Log, today: int, launch: int, now: int): PeriodTable {
    if ps == [] then t
    else PeriodAfter(RollEach(t, c, ps[..|ps| - 1], log, today, launch, now), c, ps[|ps| - 1], log, today, launch, now)
  }

  function TableAfter(t: PeriodTable, c: Counter, log: Log, today: int, launch: int, full: bool, now: int): PeriodTable {
    RollEach(WithoutStaleAll(t, launch), c, PeriodsToRoll(full || t == map[], today, launch), log, today, launch, now)
  }

  // ----- The read of a period's stored measures -----

  /** What a period counts in a run. */
  function CountsOf(c: Counter, p: Period, log: Log, today: int, launch: int): map<string, nat> {
    CountActors(c, log, WindowOf(p, EndBy(p, today), launch))
  }

  /** What `limit(500)` may return of some rows: all of them, or some 500. */
  predicate IsRead(read: set<string>, rows: set<string>) {
    read <= rows && |read| == if |rows| <= MEASURE_LIMIT then |rows| else MEASURE_LIMIT
  }

  /** The stored and the counted measures together are read whole, or nothing stored has vanished. */
  predicate ReadClears(stored: set<string>, counted: set<string>) {
    |stored + counted| <= MEASURE_LIMIT || stored <= counted
  }

  /** Exactly then every read there may be, made after the upsert, finds all that the counts no longer return. */
  lemma ReadClearsIff(stored: set<string>, counted: set<string>)
    ensures ReadClears(stored, counted) <==> forall read :: IsRead(read, stored + counted) ==> stored - counted <= read
  {
    var rows := stored + counted;
    if |rows| <= MEASURE_LIMIT {
      forall read | IsRead(read, rows)
        ensures read == rows
      {
        SubsetOfSize(read, rows);
      }
    } else if !(stored <= counted) {
      var missed :| missed in stored && missed !in counted;
      var read := Pick(rows - {missed}, MEASURE_LIMIT);
      assert IsRead(read, rows) && missed !in read;
    }
  }

  lemma {:induction false} SubsetOfSize<T>(a: set<T>, b: set<T>)
    requires a <= b && |a| == |b|
    ensures a == b
  {
    if a != {} {
      var x :| x in a;
      SubsetOfSize(a - {x}, b - {x});
    } else {
      assert |b| == 0;
    }
  }

  /** Some `n` of a set. */
  ghost function Pick<T>(s: set<T>, n: nat): (r: set<T>)
    requires n <= |s|
    ensures r <= s && |r| == n
    decreases |s|
  {
    if |s| == n then s
    else
      var x :| x in s;
      Pick(s - {x}, n)
  }

  /** `n` measures under one letter. */
  function Measures(letter: char, n: nat): (ms: set<string>)
    requires n <= 1000
    ensures |ms| == n
    ensures forall m :: m in ms ==> |m| == 2 && m[0] == letter && (m[1] as int) < n
  {
    if n == 0 then {} else Measures(letter, n - 1) + {[letter, (n - 1) as char]}
  }

  /** Two counts of 300 measures each, say, none in common: a read after the second may leave some of the first. */
  lemma TwoCountsMayStay(n: nat)
    requires 251 <= n <= 500
    ensures var was, counted := Measures('a', n), Measures('b', n);
            && |was| <= 500 && |counted| <= 500 && !ReadClears(was, counted)
            && exists read :: IsRead(read, was + counted) && !(was - counted <= read)
  {
    hide Measures;
    var was, counted := Measures('a', n), Measures('b', n);
    assert was !! counted;
    assert |was + counted| == 2 * n;
    assert was != {};
    ReadClearsIff(was, counted);
  }

  /** And a read always finds everything while the two together are at most 500. */
  lemma FiveHundredFit(stored: set<string>, counted: set<string>, read: set<string>)
    requires |stored + counted| <= 500 && IsRead(read, stored + counted)
    ensures stored - counted <= read
  {
    ReadClearsIff(stored, counted);
  }

  /** Recounting a period is sure to leave it its counts and nothing else. */
  predicate Clears(t: PeriodTable, c: Counter, p: Period, log: Log, today: int, launch: int) {
    ReadClears(MeasuresAt(t, p.kind, p.start), CountsOf(c, p, log, today, launch).Keys)
  }

  /** So it is for each of a run's periods in its turn. */
  predicate EachClears(t: PeriodTable, c: Counter, ps: seq<Period>, log: Log, today: int, launch: int, now: int) {
    ps == [] ||
    var n := |ps| - 1;
    EachClears(t, c, ps[..n], log, today, launch, now) &&
    Clears(RollEach(t, c, ps[..n], log, today, launch, now), c, ps[n], log, today, launch)
  }

  lemma {:induction false} ClearsUpTo(t: PeriodTable, c: Counter, ps: seq<Period>, n: nat, log: Log, today: int, launch: int, now: int)
    requires EachClears(t, c, ps, log, today, launch, now) && n < |ps|
    ensures Clears(RollEach(t, c, ps[..n], log, today, launch, now), c, ps[n], log, today, launch)
    decreases |ps|
  {
    hide Clears;
    var last := |ps| - 1;
    if n < last {
      ClearsUpTo(t, c, ps[..last], n, log, today, launch, now);
      assert ps[..last][..n] == ps[..n];
    }
  }

  predicate RunClears(t: PeriodTable, c: Counter, log: Log, today: int, launch: int, full: bool, now: int) {
    EachClears(WithoutStaleAll(t, launch), c, PeriodsToRoll(full || t == map[], today, launch), log, today, launch, now)
  }

  // ----- The job -----

  class Job {
    const counter: Counter
    var daily: map<Key, nat>
    var period: PeriodTable

    constructor (counter: Counter)
      ensures this.counter == counter && daily == map[] && period == map[]
    {
      this.counter := counter;
      daily, period := map[], map[];
    }

    /** The last stored day (`order by day desc limit 1`). */
    method LastStored() returns (day: Option<int>)
      ensures day.None? <==> daily == map[]
      ensures day.Some? ==> day.value == LastDay(daily)
    {
      day := None;
      var left := daily.Keys;
      while left != {}
        invariant left <= daily.Keys
        invariant day.None? ==> left == daily.Keys
        invariant day.Some? ==> exists k :: k in daily && k.day == day.value
        invariant forall k :: k in daily && k !in left ==> day.Some? && k.day <= day.value
        decreases left
      {
        var k :| k in left;
        if day.None? || day.value < k.day {
          day := Some(k.day);
        }
        left := left - {k};
      }
      assert day.None? ==> daily.Keys == {};
    }

    method UpsertDays(rows: seq<Row>)
      modifies this`daily
      ensures daily == old(daily) + MapOf(rows)
    {
      var i := 0;
      while i < |rows|
        invariant 0 <= i <= |rows|
        invariant daily == old(daily) + MapOf(rows[..i])
      {
        assert rows[..i + 1][..i] == rows[..i];
        daily := daily[rows[i].key := rows[i].events];
        i := i + 1;
      }
      assert rows[..|rows|] == rows;
    }

    /** The stored keys of a window, each once (`readAll`). */
    method StoredKeys(from: int, to: int) returns (keys: seq<Key>)
      ensures forall k :: k in keys <==> k in daily && from <= k.day <= to
      ensures forall i, j :: 0 <= i < j < |keys| ==> keys[i] != keys[j]
    {
      keys := [];
      var left := set k | k in daily && from <= k.day <= to;
      while left != {}
        invariant forall k :: k in keys || k in left <==> k in daily && from <= k.day <= to
        invariant forall k :: k in left ==> k !in keys
        invariant forall i, j :: 0 <= i < j < |keys| ==> keys[i] != keys[j]
        decreases left
      {
        var k :| k in left;
        keys := keys + [k];
        left := left - {k};
      }
    }

    /** The recount written in chunks. */
    method UpsertInChunks(counted: seq<Row>)
      modifies this`daily
      ensures daily == old(daily) + MapOf(counted)
    {
      assert MapOf(counted[..0]) == map[];
      hide MapOf;
      var i := 0;
      while i < |counted|
        invariant 0 <= i <= |counted|
        invariant daily == old(daily) + MapOf(counted[..i])
      {
        var j := if i + CHUNK < |counted| then i + CHUNK else |counted|;
        ChunkAppend(counted, i, j);
        UpsertDays(counted[i..j]);
        i := j;
      }
      assert counted[..|counted|] == counted;
    }

    /** Delete the stored rows the recount no longer returns. */
    method DeleteVanished(stored: seq<Key>, keep: set<Key>) returns (removed: nat)
      requires forall i, j :: 0 <= i < j < |stored| ==> stored[i] != stored[j]
      modifies this`daily
      ensures daily == Without(old(daily), Gone(stored, keep))
      ensures removed == |Gone(stored, keep)|
    {
      removed := 0;
      var n := 0;
      assert Gone(stored[..0], keep) == {};
      assert Without(daily, {}) == daily;
      hide Without, Gone;
      while n < |stored|
        invariant 0 <= n <= |stored|
        invariant daily == Without(old(daily), Gone(stored[..n], keep))
        invariant removed == |Gone(stored[..n], keep)|
      {
        var k := stored[n];
        GoneStep(old(daily), stored, keep, n);
        if k !in keep {
          daily := Without(daily, {k});
          removed := removed + 1;
        }
        n := n + 1;
      }
      assert stored[..|stored|] == stored;
    }

    method RollDays(log: Log, today: int, full: bool) returns (r: DaysResult)
      modifies this`daily
      ensures daily == DailyAfter(old(daily), log, today, full)
      ensures r.from == WindowStart(old(daily), full) && r.to == today
      ensures r.rows == |CountByDay(log, r.from, today)|
      ensures r.removed == |Vanished(old(daily), CountByDay(log, r.from, today), r.from, today)|
    {
      var last := LastStored();
      var from := if full || last.None? then BEGINNING else AddDays(last.value, -1);
      ghost var counts := CountByDay(log, from, today);
      hide CountByDay, AddDays;
      var counted := CountRows(log, from, today);
      UpsertInChunks(counted);
      var stored := StoredKeys(from, today);
      var keep := set x | x in counted :: x.key;
      RowKeys(counted, counts);
      RowCount(counted, counts);
      ghost var upserted := daily;
      var removed := DeleteVanished(stored, keep);
      DaysAssembled(old(daily), log, from, today, upserted, stored, daily);
      r := DaysResult(from, today, |counted|, removed);
    }

    /** One period's stored measures, at most 500 of them in no order asked for. */
    method SelectMeasures(kind: PeriodKind, start: int) returns (ms: seq<string>)
      ensures IsRead((set m | m in ms), MeasuresAt(period, kind, start))
    {
      ms := [];
      var all := MeasuresAt(period, kind, start);
      var left := all;
      while left != {} && |ms| < MEASURE_LIMIT
        invariant left <= all && |ms| <= MEASURE_LIMIT
        invariant |ms| + |left| == |all|
        invariant (set m | m in ms) == all - left
        decreases left
      {
        var m :| m in left;
        assert (set x | x in ms + [m]) == (set x | x in ms) + {m};
        ms := ms + [m];
        left := left - {m};
      }
    }

    method DeleteMeasures(kind: PeriodKind, start: int, stored: seq<string>, keep: set<string>)
      modifies this`period
      ensures period == map k | k in old(period) &&
                                !(k.kind == kind && k.start == start && k.measure in stored && k.measure !in keep) :: old(period)[k]
    {
      var n := 0;
      while n < |stored|
        invariant 0 <= n <= |stored|
        invariant period == map k | k in old(period) &&
                                    !(k.kind == kind && k.start == start && k.measure in stored[..n] && k.measure !in keep)
                                  :: old(period)[k]
      {
        var m := stored[n];
        assert stored[..n + 1] == stored[..n] + [m];
        if m !in keep {
          period := map k | k in period && !(k.kind == kind && k.start == start && k.measure == m) :: period[k];
        }
        n := n + 1;
      }
      assert stored[..|stored|] == stored;
    }

    method RollPeriod(p: Period, log: Log, today: int, launch: int, now: int)
      modifies this`period
      ensures Clears(old(period), counter, p, log, today, launch) ==>
                period == PeriodAfter(old(period), counter, p, log, today, launch, now)
      ensures (map k | k in period && !(k.kind == p.kind && k.start == p.start) :: period[k]) ==
              (map k | k in old(period) && !(k.kind == p.kind && k.start == p.start) :: old(period)[k])
      ensures var end := EndBy(p, today);
              var counts := CountActors(counter, log, WindowOf(p, end, launch));
              forall m :: m in counts ==>
                PeriodKey(p.kind, p.start, m) in period && period[PeriodKey(p.kind, p.start, m)] == PeriodRow(end, counts[m], now)
    {
      hide CountActors, WindowOf, PreviousPeriod, IsRead, ReadClears, Cleaned, CountRowsOf, MeasuresAt;
      var end := EndBy(p, today);
      var counts := CountActors(counter, log, WindowOf(p, end, launch));
      period := period + CountRowsOf(p.kind, p.start, end, counts, now);
      ghost var upserted := period;
      UpsertedMeasures(old(period), p.kind, p.start, end, counts, now);
      var stored := SelectMeasures(p.kind, p.start);
      DeleteMeasures(p.kind, p.start, stored, counts.Keys);
      CleanedIs(old(period), p.kind, p.start, end, counts, now, stored);
      CleanedElsewhere(old(period), p.kind, p.start, end, counts, now, stored);
      CleanedCounted(old(period), p.kind, p.start, end, counts, now, stored);
      if Clears(old(period), counter, p, log, today, launch) {
        ReadReplaces(old(period), p.kind, p.start, end, counts, now, stored);
      }
    }

    /** The periods a run recounts, kind by kind. */
    method PeriodsDue(first: bool, today: int, launch: int) returns (periods: seq<Period>)
      ensures periods == PeriodsToRoll(first, today, launch)
    {
      hide PeriodsFrom, PeriodOf, PreviousPeriod;
      periods := [];
      var kinds := [Week, Month, Quarter, All];
      var i := 0;
      while i < 4
        invariant 0 <= i <= 4
        invariant i == 0 ==> periods == []
        invariant i == 1 ==> periods == KindPeriods(Week, first, today, launch)
        invariant i == 2 ==> periods == KindPeriods(Week, first, today, launch) + KindPeriods(Month, first, today, launch)
        invariant i == 3 ==> periods == KindPeriods(Week, first, today, launch) + KindPeriods(Month, first, today, launch) +
                                        KindPeriods(Quarter, first, today, launch)
        invariant i == 4 ==> periods == PeriodsToRoll(first, today, launch)
      {
        var kind := kinds[i];
        if kind == All {
          periods := periods + [PeriodOf(All, today, launch)];
        } else if first {
          var all := PeriodsBetween(kind, launch, today);
          periods := periods + all;
        } else {
          var current := PeriodOf(kind, today, launch);
          var prev := PreviousPeriod(current, launch);
          ghost var before := periods;
          if prev.Some? && prev.value.end >= launch {
            periods := periods + [prev.value];
          }
          periods := periods + [current];
          assert periods == before + KindPeriods(kind, first, today, launch);
        }
        i := i + 1;
      }
    }

    method RollPeriods(periods: seq<Period>, log: Log, today: int, launch: int, now: int)
      modifies this`period
      ensures EachClears(old(period), counter, periods, log, today, launch, now) ==>
                period == RollEach(old(period), counter, periods, log, today, launch, now)
    {
      hide PeriodAfter, Clears, EachClears;
      var n := 0;
      while n < |periods|
        invariant 0 <= n <= |periods|
        invariant EachClears(old(period), counter, periods, log, today, launch, now) ==>
                    period == RollEach(old(period), counter, periods[..n], log, today, launch, now)
      {
        var p := periods[n];
        assert periods[..n + 1][..n] == periods[..n];
        if EachClears(old(period), counter, periods, log, today, launch, now) {
          ClearsUpTo(old(period), counter, periods, n, log, today, launch, now);
        }
        RollPeriod(p, log, today, launch, now);
        n := n + 1;
      }
      assert periods[..|periods|] == periods;
    }

    /** One hub's rollup; `full` recomputes every day and every period. */
    method Rollup(log: Log, today: int, launch: int, full: bool, now: int) returns (r: RollupResult)
      modifies this
      ensures daily == DailyAfter(old(daily), log, today, full)
      ensures RunClears(old(period), counter, log, today, launch, full, now) ==>
                period == TableAfter(old(period), counter, log, today, launch, full, now)
      ensures r.launch == launch && r.periods == |PeriodsToRoll(full || old(period) == map[], today, launch)|
    {
      hide DailyAfter, PeriodsToRoll, RollEach, EachClears;
      var days := RollDays(log, today, full);
      var periods := PeriodsDue(full || period == map[], today, launch);
      period := WithoutStaleAll(period, launch);
      RollPeriods(periods, log, today, launch, now);
      r := RollupResult(days, |periods|, launch);
    }
  }

  // ----- Steps of the job on values -----

  function Gone(stored: seq<Key>, keep: set<Key>): set<Key> {
    set k | k in stored && k !in keep
  }

  function Without(daily: map<Key, nat>, gone: set<Key>): map<Key, nat> {
    map k | k in daily && k !in gone :: daily[k]
  }

  /** One more stored key looked at: kept, or one more gone. */
  lemma GoneStep(daily: map<Key, nat>, stored: seq<Key>, keep: set<Key>, n: nat)
    requires n < |stored|
    requires forall i, j :: 0 <= i < j < |stored| ==> stored[i] != stored[j]
    ensures var gone, next := Gone(stored[..n], keep), Gone(stored[..n + 1], keep);
            if stored[n] in keep then next == gone
            else |next| == |gone| + 1 && Without(Without(daily, gone), {stored[n]}) == Without(daily, next)
  {
    var gone, next := Gone(stored[..n], keep), Gone(stored[..n + 1], keep);
    assert stored[..n + 1] == stored[..n] + [stored[n]];
    assert stored[n] !in stored[..n];
    assert next == gone + if stored[n] in keep then {} else {stored[n]};
  }

  /** The stored keys of the window the recount does not have. */
  function Vanished(daily: map<Key, nat>, counts: map<Key, nat>, from: int, today: int): set<Key> {
    set k | k in daily && from <= k.day <= today && k !in counts
  }

  lemma ChunkAppend(rows: seq<Row>, i: int, j: int)
    requires 0 <= i <= j <= |rows|
    ensures MapOf(rows[..i]) + MapOf(rows[i..j]) == MapOf(rows[..j])
  {
    assert rows[..i] + rows[i..j] == rows[..j];
    MapOfAppend(rows[..i], rows[i..j]);
  }

  lemma RowKeys(rows: seq<Row>, m: map<Key, nat>)
    requires Lists(rows, m)
    ensures (set x | x in rows :: x.key) == m.Keys
  {
    MapOfKeys(rows);
    forall k ensures k in (set x | x in rows :: x.key) <==> k in m {
      if k in m {
        var i :| 0 <= i < |rows| && rows[i].key == k;
        assert rows[i] in rows;
      }
    }
  }

  lemma CountedInWindow(log: Log, from: int, today: int)
    ensures forall k :: k in CountByDay(log, from, today) ==> from <= k.day <= today
  {
  }

  /** Upserting the recount and deleting what it lacks replaces the window. */
  lemma DaysAssembled(daily: map<Key, nat>, log: Log, from: int, today: int, upserted: map<Key, nat>, stored: seq<Key>, after: map<Key, nat>)
    requires upserted == daily + CountByDay(log, from, today)
    requires forall k :: k in stored <==> k in upserted && from <= k.day <= today
    requires after == Without(upserted, Gone(stored, CountByDay(log, from, today).Keys))
    ensures after == (map k | k in daily && !(from <= k.day <= today) :: daily[k]) + CountByDay(log, from, today)
    ensures Gone(stored, CountByDay(log, from, today).Keys) == Vanished(daily, CountByDay(log, from, today), from, today)
  {
    CountedInWindow(log, from, today);
    hide CountByDay;
  }

  /** A period's rows once its counts are upserted and `stored` ones the counts lack are deleted. */
  function Cleaned(t: PeriodTable, kind: PeriodKind, start: int, end: int, counts: map<string, nat>, now: int, stored: seq<string>): PeriodTable {
    var upserted := t + CountRowsOf(kind, start, end, counts, now);
    map k | k in upserted && !(k.kind == kind && k.start == start && k.measure in stored && k.measure !in counts.Keys) :: upserted[k]
  }

  lemma CleanedElsewhere(t: PeriodTable, kind: PeriodKind, start: int, end: int, counts: map<string, nat>, now: int, stored: seq<string>)
    ensures var after := Cleaned(t, kind, start, end, counts, now, stored);
            (map k | k in after && !(k.kind == kind && k.start == start) :: after[k]) ==
            (map k | k in t && !(k.kind == kind && k.start == start) :: t[k])
  {
  }

  lemma CleanedCounted(t: PeriodTable, kind: PeriodKind, start: int, end: int, counts: map<string, nat>, now: int, stored: seq<string>)
    ensures var after := Cleaned(t, kind, start, end, counts, now, stored);
            forall m :: m in counts ==>
              PeriodKey(kind, start, m) in after && after[PeriodKey(kind, start, m)] == PeriodRow(end, counts[m], now)
  {
  }

  lemma CleanedReplaces(t: PeriodTable, kind: PeriodKind, start: int, end: int, counts: map<string, nat>, now: int, stored: seq<string>)
    requires forall m :: m in MeasuresAt(t, kind, start) - counts.Keys ==> m in stored
    ensures Cleaned(t, kind, start, end, counts, now, stored) ==
            (map k | k in t && !(k.kind == kind && k.start == start) :: t[k]) + CountRowsOf(kind, start, end, counts, now)
  {
    var upserted := t + CountRowsOf(kind, start, end, counts, now);
    UpsertedMeasures(t, kind, start, end, counts, now);
    forall k | k in upserted && k.kind == kind && k.start == start
      ensures k.measure in stored || k.measure in counts
    {
      assert k.measure in MeasuresAt(upserted, kind, start);
    }
  }

  lemma CleanedIs(t: PeriodTable, kind: PeriodKind, start: int, end: int, counts: map<string, nat>, now: int, stored: seq<string>)
    ensures var upserted := t + CountRowsOf(kind, start, end, counts, now);
            Cleaned(t, kind, start, end, counts, now, stored) ==
            map k | k in upserted && !(k.kind == kind && k.start == start && k.measure in stored && k.measure !in counts.Keys) :: upserted[k]
  {
  }

  /** A read that is sure to find what vanished leaves the period its counts. */
  lemma ReadReplaces(t: PeriodTable, kind: PeriodKind, start: int, end: int, counts: map<string, nat>, now: int, stored: seq<string>)
    requires ReadClears(MeasuresAt(t, kind, start), counts.Keys)
    requires IsRead((set m | m in stored), MeasuresAt(t, kind, start) + counts.Keys)
    ensures Cleaned(t, kind, start, end, counts, now, stored) ==
            (map k | k in t && !(k.kind == kind && k.start == start) :: t[k]) + CountRowsOf(kind, start, end, counts, now)
  {
    hide IsRead, ReadClears, Cleaned, CountRowsOf, MeasuresAt;
    ReadClearsIff(MeasuresAt(t, kind, start), counts.Keys);
    var read := set m | m in stored;
    assert MeasuresAt(t, kind, start) - counts.Keys <= read;
    CleanedReplaces(t, kind, start, end, counts, now, stored);
  }

  lemma {:induction false} RowCount(rows: seq<Row>, m: map<Key, nat>)
    requires Lists(rows, m)
    ensures |rows| == |m|
  {
    if rows != [] {
      var n := |rows| - 1;
      var rest := MapOf(rows[..n]);
      MapOfKeys(rows[..n]);
      RowCount(rows[..n], rest);
      assert rows[n].key !in rest;
      assert m == rest[rows[n].key := rows[n].events];
      assert m.Keys == rest.Keys + {rows[n].key};
    }
  }

  lemma UpsertedMeasures(t: PeriodTable, kind: PeriodKind, start: int, end: int, counts: map<string, nat>, now: int)
    ensures MeasuresAt(t + CountRowsOf(kind, start, end, counts, now), kind, start) == MeasuresAt(t, kind, start) + counts.Keys
  {
    var u := t + CountRowsOf(kind, start, end, counts, now);
    forall m ensures m in MeasuresAt(u, kind, start) <==> m in MeasuresAt(t, kind, start) + counts.Keys {
      if m in MeasuresAt(t, kind, start) + counts.Keys {
        assert PeriodKey(kind, start, m) in u;
      }
    }
  }
}
