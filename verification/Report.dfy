/**
  One hub's numbers for one period (features/analytics/report.ts): read from the
  rollup's tables, or counted live when they are stale.
 */
module ReportBuilder {
  import opened Wrappers
  import opened Calendar
  import opened EventLog
  import opened Plan
  import opened ReportData
  import Rollup

  /** The rollup runs hourly; older than this, the current period is counted live. */
  const STALE_AFTER_MS: int := 90 * 60000

  /** The sentences a report carries: text, not counts. */
  datatype Words = Words(
    periodLabel: Period -> string, measure: string -> MeasureWords, derivation: (string, int, int) -> string)

  /** What a report is asked for, and where: the hub's types, its launch day and its clock. */
  datatype Request = Request(
    kind: PeriodKind, at: Option<int>, exact: bool, now: int, today: int, launch: int, types: seq<ProcessType>, words: Words)

  // ----- Sums over the day counts -----

  ghost function SumOver(m: map<Key, nat>, f: Key -> bool): nat
    decreases |m|
  {
    if m == map[] then 0
    else
      var k :| k in m;
      (if f(k) then m[k] else 0) + SumOver(m - {k}, f)
  }

  lemma {:induction false} SumOverRemove(m: map<Key, nat>, f: Key -> bool, k: Key)
    requires k in m
    ensures SumOver(m, f) == (if f(k) then m[k] else 0) + SumOver(m - {k}, f)
    decreases |m|
  {
    var j :| j in m && SumOver(m, f) == (if f(j) then m[j] else 0) + SumOver(m - {j}, f);
    if j != k {
      SumOverRemove(m - {j}, f, k);
      SumOverRemove(m - {k}, f, j);
      assert m - {j} - {k} == m - {k} - {j};
    }
  }

  /** The sum as the report's loop makes it, row by row. */
  function RowSum(rows: seq<Row>, f: Key -> bool): nat {
    if rows == [] then 0
    else var r := rows[|rows| - 1]; RowSum(rows[..|rows| - 1], f) + if f(r.key) then r.events else 0
  }

  lemma {:induction false} RowSumIsSum(rows: seq<Row>, m: map<Key, nat>, f: Key -> bool)
    requires Lists(rows, m)
    ensures RowSum(rows, f) == SumOver(m, f)
  {
    if rows != [] {
      var n := |rows| - 1;
      var rest := MapOf(rows[..n]);
      MapOfKeys(rows[..n]);
      RowSumIsSum(rows[..n], rest, f);
      SumOverRemove(m, f, rows[n].key);
      assert rows[n].key !in rest;
      assert m - {rows[n].key} == rest;
    }
  }

  /** The events of the log on the days `from` to `to` that `f` picks, samples left out. */
  function LogCount(log: Log, from: int, to: int, f: Key -> bool): nat {
    if log == [] then 0
    else
      var e := log[|log| - 1];
      LogCount(log[..|log| - 1], from, to, f) + if !e.sample && from <= e.day <= to && f(KeyOf(e)) then 1 else 0
  }

  /** Nothing is lost or counted twice between the log and the sums of its day counts. */
  lemma {:induction false} SumsCountTheLog(log: Log, from: int, to: int, f: Key -> bool)
    ensures SumOver(CountByDay(log, from, to), f) == LogCount(log, from, to, f)
  {
    if log == [] {
      assert CountByDay(log, from, to) == map[];
    } else {
      var n := |log| - 1;
      var e, k := log[n], KeyOf(log[n]);
      var before, after := CountByDay(log[..n], from, to), CountByDay(log, from, to);
      SumsCountTheLog(log[..n], from, to, f);
      assert log == log[..n] + [e];
      CountByDayStep(log, from, to);
      hide CountByDay, SumOver;
      if !e.sample && from <= e.day <= to {
        SumOverRemove(after, f, k);
        if k in before {
          SumOverRemove(before, f, k);
        } else {
          assert before - {k} == before;
        }
      }
    }
  }

  lemma CountByDayStep(log: Log, from: int, to: int)
    requires log != []
    ensures var n := |log| - 1;
            var e, k := log[n], KeyOf(log[n]);
            var before, after := CountByDay(log[..n], from, to), CountByDay(log, from, to);
            if !e.sample && from <= e.day <= to
            then k in after && after[k] == (if k in before then before[k] else 0) + 1 && after - {k} == before - {k}
            else after == before
  {
    hide CountByDay, CountOf;
    var n := |log| - 1;
    var e, k := log[n], KeyOf(log[n]);
    var before, after := CountByDay(log[..n], from, to), CountByDay(log, from, to);
    forall j: Key
      ensures (j in before <==> CountOf(log[..n], j) > 0 && from <= j.day <= to) && (j in before ==> before[j] == CountOf(log[..n], j))
      ensures (j in after <==> CountOf(log, j) > 0 && from <= j.day <= to) && (j in after ==> after[j] == CountOf(log, j))
      ensures CountOf(log, j) == CountOf(log[..n], j) + if !e.sample && k == j then 1 else 0
    {
      CountedAll(log, from, to);
      CountedAll(log[..n], from, to);
      CountOfLast(log, j);
    }
    assert after - {k} == before - {k};
    if !(!e.sample && from <= e.day <= to) {
      assert after == before;
    }
  }

  lemma CountOfLast(log: Log, j: Key)
    requires log != []
    ensures var e := log[|log| - 1];
            CountOf(log, j) == CountOf(log[..|log| - 1], j) + if !e.sample && KeyOf(e) == j then 1 else 0
  {
  }

  // ----- The report as a function of its inputs -----

  /** The keys of one type whose events play `role`. */
  function Playing(types: seq<ProcessType>, name: string, role: Role): Key -> bool {
    (k: Key) => k.processType == name && role in RolesOf(types, k.processType, k.eventType)
  }

  /** The keys, of whatever type, whose events play `role`. */
  function PlayingAny(types: seq<ProcessType>, role: Role): Key -> bool {
    (k: Key) => role in RolesOf(types, k.processType, k.eventType)
  }

  function N(counts: map<string, nat>, measure: string): nat {
    if measure in counts then counts[measure] else 0
  }

  predicate TakesPartElsewhere(t: ProcessType) {
    t.participation.Some? && t.participation.value.participation.Elsewhere?
  }

  /** The totals recorded for the types of a name whose participants act outside the hub. */
  function ElsewhereSum(types: seq<ProcessType>, name: string, counts: map<string, nat>): nat {
    if types == [] then 0
    else
      var t := types[|types| - 1];
      ElsewhereSum(types[..|types| - 1], name, counts) + if TakesPartElsewhere(t) && t.name == name then N(counts, "total:" + t.name) else 0
  }

  function ElsewhereAll(types: seq<ProcessType>, counts: map<string, nat>): nat {
    if types == [] then 0
    else
      var t := types[|types| - 1];
      ElsewhereAll(types[..|types| - 1], counts) + if TakesPartElsewhere(t) then N(counts, "total:" + t.name) else 0
  }

  ghost function TypeSum(m: map<Key, nat>, counts: map<string, nat>, types: seq<ProcessType>, name: string, role: Role): nat {
    SumOver(m, Playing(types, name, role)) + if role == TakingPart then ElsewhereSum(types, name, counts) else 0
  }

  ghost function TotalSum(m: map<Key, nat>, counts: map<string, nat>, types: seq<ProcessType>, role: Role): nat {
    SumOver(m, PlayingAny(types, role)) + if role == TakingPart then ElsewhereAll(types, counts) else 0
  }

  ghost function TypeRowOf(m: map<Key, nat>, counts: map<string, nat>, types: seq<ProcessType>, t: ProcessType, exact: bool): TypeRow {
    TypeRow(t.name, t.plural,
            Suppress(TypeSum(m, counts, types, t.name, Creation), exact),
            Suppress(TypeSum(m, counts, types, t.name, Closing), exact),
            Suppress(TypeSum(m, counts, types, t.name, TakingPart), exact),
            Suppress(TypeSum(m, counts, types, t.name, Outcome), exact),
            Suppress(N(counts, "active:" + t.name), exact))
  }

  ghost function TypeRows(m: map<Key, nat>, counts: map<string, nat>, types: seq<ProcessType>, ts: seq<ProcessType>, exact: bool): seq<TypeRow> {
    if ts == [] then []
    else TypeRows(m, counts, types, ts[..|ts| - 1], exact) + [TypeRowOf(m, counts, types, ts[|ts| - 1], exact)]
  }

  function ElsewhereResidents(via: seq<ProcessType>, counts: map<string, nat>): nat {
    ElsewhereAll(via, counts)
  }

  /** The participation of the feeding types that count it on the hub. */
  ghost function HubRecords(via: seq<ProcessType>, m: map<Key, nat>, counts: map<string, nat>, types: seq<ProcessType>): nat {
    if via == [] then 0
    else
      var t := via[|via| - 1];
      HubRecords(via[..|via| - 1], m, counts, types) +
      if TakesPartElsewhere(t) then 0 else TypeSum(m, counts, types, t.name, TakingPart)
  }

  ghost function OutcomeRecords(via: seq<ProcessType>, m: map<Key, nat>, counts: map<string, nat>, types: seq<ProcessType>): nat {
    if via == [] then 0
    else OutcomeRecords(via[..|via| - 1], m, counts, types) + TypeSum(m, counts, types, via[|via| - 1].name, Outcome)
  }

  function SummarizesSources(via: seq<ProcessType>): bool {
    exists i :: 0 <= i < |via| && SourceField(via[i]).Some?
  }

  function MeasureResidents(types: seq<ProcessType>, id: string, counts: map<string, nat>): nat {
    var via := Feeders(types, id, TakingPart);
    ElsewhereResidents(via, counts) +
    (if Residents(via) != [] then N(counts, "measure:" + id) else 0) +
    (if SummarizesSources(Feeders(types, id, Outcome)) then N(counts, "source:" + id) else 0)
  }

  ghost function MeasureRecords(types: seq<ProcessType>, id: string, m: map<Key, nat>, counts: map<string, nat>): nat {
    HubRecords(Feeders(types, id, TakingPart), m, counts, types) + OutcomeRecords(Feeders(types, id, Outcome), m, counts, types)
  }

  ghost function MeasureRows(m: map<Key, nat>, counts: map<string, nat>, q: Request, start: int, end: int, ids: seq<string>): seq<MeasureRow> {
    if ids == [] then []
    else
      var id := ids[|ids| - 1];
      MeasureRows(m, counts, q, start, end, ids[..|ids| - 1]) +
      [MeasureRow(id, q.words.measure(id), Suppress(MeasureResidents(q.types, id, counts), q.exact),
                  Suppress(MeasureRecords(q.types, id, m, counts), q.exact), q.words.derivation(id, start, end))]
  }

  function PeriodFor(q: Request): Period {
    PeriodOf(q.kind, if q.at.Some? then q.at.value else q.today, q.launch)
  }

  /** The report made of day counts `m` and resident counts `counts`. */
  ghost function ReportOf(q: Request, m: map<Key, nat>, counts: map<string, nat>, computedAt: Option<int>, live: bool): Report {
    var p := PeriodFor(q);
    var end := Rollup.EndBy(p, q.today);
    var prev := PreviousPeriod(p, q.launch);
    Report(
      Period(p.kind, p.start, end), q.words.periodLabel(p), p.end >= q.today, prev, computedAt, live,
      Totals(Suppress(N(counts, "new_residents"), q.exact), Suppress(N(counts, "active"), q.exact),
             Suppress(TotalSum(m, counts, q.types, Creation), q.exact), Suppress(TotalSum(m, counts, q.types, Closing), q.exact),
             Suppress(TotalSum(m, counts, q.types, TakingPart), q.exact), Suppress(TotalSum(m, counts, q.types, Outcome), q.exact)),
      TypeRows(m, counts, q.types, q.types, q.exact),
      MeasureRows(m, counts, q, p.start, end, MEASURES),
      Retention(Suppress(N(counts, "multi_type"), q.exact), Suppress(if prev.Some? then N(counts, "returning") else 0, q.exact)))
  }

  // ----- What the tables answer -----

  function StoredDays(daily: map<Key, nat>, from: int, to: int): map<Key, nat> {
    map k | k in daily && from <= k.day <= to :: daily[k]
  }

  function StoredCounts(t: Rollup.PeriodTable, kind: PeriodKind, start: int): map<string, nat> {
    map m | m in Rollup.MeasuresAt(t, kind, start) :: ValueAt(t, kind, start, m)
  }

  function ValueAt(t: Rollup.PeriodTable, kind: PeriodKind, start: int, m: string): nat {
    var k := Rollup.PeriodKey(kind, start, m);
    if k in t then t[k].value else 0
  }

  /** The latest time any of a period's rows was computed. */
  ghost predicate LatestAt(t: Rollup.PeriodTable, kind: PeriodKind, start: int, at: Option<int>) {
    var rows := Rollup.MeasuresAt(t, kind, start);
    if at.None? then rows == {}
    else
      (exists k :: k in t && k.kind == kind && k.start == start && t[k].computedAt == at.value) &&
      (forall k :: k in t && k.kind == kind && k.start == start ==> t[k].computedAt <= at.value)
  }

  predicate Fresh(computedAt: Option<int>, now: int) {
    computedAt.Some? && now - computedAt.value < STALE_AFTER_MS
  }

  /** The report as the tables stand, counted live where they are stale. */
  ghost predicate Reports(daily: map<Key, nat>, t: Rollup.PeriodTable, c: Counter, log: Log, q: Request, r: Report) {
    exists at :: LatestAt(t, q.kind, PeriodFor(q).start, at) && r == ReportFrom(daily, t, c, log, q, at)
  }

  ghost function ReportFrom(daily: map<Key, nat>, t: Rollup.PeriodTable, c: Counter, log: Log, q: Request, at: Option<int>): Report {
    var p := PeriodFor(q);
    var end := Rollup.EndBy(p, q.today);
    if p.end >= q.today && !Fresh(at, q.now) then
      ReportOf(q, CountByDay(log, p.start, end), CountActors(c, log, Rollup.WindowOf(p, end, q.launch)), Some(q.now), true)
    else
      ReportOf(q, StoredDays(daily, p.start, end), StoredCounts(t, q.kind, p.start), at, false)
  }

  // ----- The insertion-ordered map the report adds into -----

  datatype Tally = Tally(takingPart: nat, creation: nat, closing: nat, outcome: nat)

  function Get(t: Tally, role: Role): nat {
    match role
    case TakingPart => t.takingPart
    case Creation => t.creation
    case Closing => t.closing
    case Outcome => t.outcome
  }

  function Plus(t: Tally, role: Role, n: nat): Tally {
    match role
    case TakingPart => t.(takingPart := t.takingPart + n)
    case Creation => t.(creation := t.creation + n)
    case Closing => t.(closing := t.closing + n)
    case Outcome => t.(outcome := t.outcome + n)
  }

  datatype Book = Book(names: seq<string>, tallies: map<string, Tally>)

  ghost predicate ValidBook(b: Book) {
    (forall i, j :: 0 <= i < j < |b.names| ==> b.names[i] != b.names[j]) &&
    (forall name :: name in b.names <==> name in b.tallies)
  }

  function At(b: Book, name: string, role: Role): nat {
    if name in b.tallies then Get(b.tallies[name], role) else 0
  }

  function AddTo(b: Book, name: string, role: Role, n: nat): Book {
    var was := if name in b.tallies then b.tallies[name] else Tally(0, 0, 0, 0);
    Book(if name in b.tallies then b.names else b.names + [name], b.tallies[name := Plus(was, role, n)])
  }

  function SumNames(b: Book, names: seq<string>, role: Role): nat {
    if names == [] then 0 else SumNames(b, names[..|names| - 1], role) + At(b, names[|names| - 1], role)
  }

  lemma AtAdd(b: Book, name: string, role: Role, n: nat, other: string, r: Role)
    ensures At(AddTo(b, name, role, n), other, r) == At(b, other, r) + if other == name && r == role then n else 0
  {
  }

  lemma {:induction false} SumNamesAdd(b: Book, names: seq<string>, name: string, role: Role, n: nat, r: Role)
    requires forall i, j :: 0 <= i < j < |names| ==> names[i] != names[j]
    ensures SumNames(AddTo(b, name, role, n), names, r) == SumNames(b, names, r) + if name in names && r == role then n else 0
  {
    hide AddTo, At;
    if names != [] {
      var k := |names| - 1;
      SumNamesAdd(b, names[..k], name, role, n, r);
      AtAdd(b, name, role, n, names[k], r);
      assert names == names[..k] + [names[k]];
    }
  }

  lemma AddKeepsValid(b: Book, name: string, role: Role, n: nat)
    requires ValidBook(b)
    ensures var c := AddTo(b, name, role, n);
            ValidBook(c) && c.names == if name in b.names then b.names else b.names + [name]
  {
    hide Plus, Get;
  }

  lemma AddToBook(b: Book, name: string, role: Role, n: nat, other: string, r: Role)
    requires ValidBook(b)
    ensures var c := AddTo(b, name, role, n);
            ValidBook(c) &&
            At(c, other, r) == At(b, other, r) + (if other == name && r == role then n else 0) &&
            SumNames(c, c.names, r) == SumNames(b, b.names, r) + if r == role then n else 0
  {
    hide AddTo, At, ValidBook;
    var c := AddTo(b, name, role, n);
    AddKeepsValid(b, name, role, n);
    BookNames(b);
    AtAdd(b, name, role, n, other, r);
    AtAdd(b, name, role, n, name, r);
    SumNamesAdd(b, b.names, name, role, n, r);
    if name !in b.names {
      NewNameIsZero(b, name, r);
      assert c.names[..|c.names| - 1] == b.names;
    }
  }

  lemma BookNames(b: Book)
    requires ValidBook(b)
    ensures forall i, j :: 0 <= i < j < |b.names| ==> b.names[i] != b.names[j]
  {
  }

  lemma NewNameIsZero(b: Book, name: string, r: Role)
    requires ValidBook(b) && name !in b.names
    ensures At(b, name, r) == 0
  {
  }

  /** One type's sum under a role, and the sum over all types, once `rows` are added. */
  ghost predicate HoldsAt(b: Book, rows: seq<Row>, types: seq<ProcessType>, elsewhere: seq<ProcessType>, counts: map<string, nat>,
                          name: string, role: Role) {
    At(b, name, role) ==
      RowSum(rows, Playing(types, name, role)) + (if role == TakingPart then ElsewhereSum(elsewhere, name, counts) else 0) &&
    SumNames(b, b.names, role) ==
      RowSum(rows, PlayingAny(types, role)) + (if role == TakingPart then ElsewhereAll(elsewhere, counts) else 0)
  }

  ghost predicate Holds(b: Book, rows: seq<Row>, types: seq<ProcessType>, elsewhere: seq<ProcessType>, counts: map<string, nat>) {
    ValidBook(b) && forall name, role :: HoldsAt(b, rows, types, elsewhere, counts, name, role)
  }

  lemma RolesDistinct(types: seq<ProcessType>, name: string, event: string)
    ensures var roles := RolesOf(types, name, event);
            forall i, j :: 0 <= i < j < |roles| ==> roles[i] != roles[j]
  {
  }

  /** One row's events added under each of its roles. */
  function AddRoles(b: Book, name: string, roles: seq<Role>, n: nat): Book {
    if roles == [] then b else AddTo(AddRoles(b, name, roles[..|roles| - 1], n), name, roles[|roles| - 1], n)
  }

  lemma {:induction false} AddRolesToBook(b: Book, name: string, roles: seq<Role>, n: nat, other: string, r: Role)
    requires ValidBook(b)
    requires forall i, j :: 0 <= i < j < |roles| ==> roles[i] != roles[j]
    ensures var c := AddRoles(b, name, roles, n);
            ValidBook(c) &&
            At(c, other, r) == At(b, other, r) + (if other == name && r in roles then n else 0) &&
            SumNames(c, c.names, r) == SumNames(b, b.names, r) + if r in roles then n else 0
  {
    hide ValidBook, AddTo, SumNames, At;
    if roles != [] {
      var k := |roles| - 1;
      AddRolesToBook(b, name, roles[..k], n, other, r);
      AddToBook(AddRoles(b, name, roles[..k], n), name, roles[k], n, other, r);
      assert roles == roles[..k] + [roles[k]];
    }
  }

  lemma RowSumAppend(rows: seq<Row>, row: Row, f: Key -> bool)
    ensures RowSum(rows + [row], f) == RowSum(rows, f) + if f(row.key) then row.events else 0
  {
    assert (rows + [row])[..|rows + [row]| - 1] == rows;
  }

  lemma HoldsRowAt(b: Book, rows: seq<Row>, row: Row, types: seq<ProcessType>, counts: map<string, nat>, other: string, r: Role)
    requires ValidBook(b) && HoldsAt(b, rows, types, [], counts, other, r)
    ensures var roles := RolesOf(types, row.key.processType, row.key.eventType);
            var c := AddRoles(b, row.key.processType, roles, row.events);
            ValidBook(c) && HoldsAt(c, rows + [row], types, [], counts, other, r)
  {
    hide ValidBook, AddRoles, SumNames, At, RolesOf, RowSum;
    var name := row.key.processType;
    var roles := RolesOf(types, name, row.key.eventType);
    RolesDistinct(types, name, row.key.eventType);
    AddRolesToBook(b, name, roles, row.events, other, r);
    RowSumAppend(rows, row, Playing(types, other, r));
    RowSumAppend(rows, row, PlayingAny(types, r));
  }

  lemma HoldsRow(b: Book, rows: seq<Row>, row: Row, types: seq<ProcessType>, counts: map<string, nat>)
    requires Holds(b, rows, types, [], counts)
    ensures var roles := RolesOf(types, row.key.processType, row.key.eventType);
            Holds(AddRoles(b, row.key.processType, roles, row.events), rows + [row], types, [], counts)
  {
    hide ValidBook, AddRoles, HoldsAt, RolesOf;
    var c := AddRoles(b, row.key.processType, RolesOf(types, row.key.processType, row.key.eventType), row.events);
    forall other, r ensures ValidBook(c) && HoldsAt(c, rows + [row], types, [], counts, other, r) {
      HoldsRowAt(b, rows, row, types, counts, other, r);
    }
    HoldsRowAt(b, rows, row, types, counts, "", TakingPart);
  }

  lemma ElsewhereAppend(types: seq<ProcessType>, t: ProcessType, name: string, counts: map<string, nat>)
    ensures ElsewhereSum(types + [t], name, counts) ==
              ElsewhereSum(types, name, counts) + if TakesPartElsewhere(t) && t.name == name then N(counts, "total:" + t.name) else 0
    ensures ElsewhereAll(types + [t], counts) ==
              ElsewhereAll(types, counts) + if TakesPartElsewhere(t) then N(counts, "total:" + t.name) else 0
  {
    assert (types + [t])[..|types + [t]| - 1] == types;
  }

  function AddElsewhere(b: Book, t: ProcessType, counts: map<string, nat>): Book {
    if TakesPartElsewhere(t) then AddTo(b, t.name, TakingPart, N(counts, "total:" + t.name)) else b
  }

  lemma HoldsElsewhereAt(b: Book, rows: seq<Row>, types: seq<ProcessType>, elsewhere: seq<ProcessType>, t: ProcessType, counts: map<string, nat>,
                         other: string, r: Role)
    requires ValidBook(b) && HoldsAt(b, rows, types, elsewhere, counts, other, r)
    ensures var c := AddElsewhere(b, t, counts);
            ValidBook(c) && HoldsAt(c, rows, types, elsewhere + [t], counts, other, r)
  {
    hide ValidBook, AddTo, SumNames, At, RowSum, N, ElsewhereSum, ElsewhereAll, TakesPartElsewhere;
    AddToBook(b, t.name, TakingPart, N(counts, "total:" + t.name), other, r);
    ElsewhereAppend(elsewhere, t, other, counts);
  }

  lemma HoldsElsewhere(b: Book, rows: seq<Row>, types: seq<ProcessType>, elsewhere: seq<ProcessType>, t: ProcessType, counts: map<string, nat>)
    requires Holds(b, rows, types, elsewhere, counts)
    ensures Holds(AddElsewhere(b, t, counts), rows, types, elsewhere + [t], counts)
  {
    hide ValidBook, HoldsAt, AddElsewhere;
    forall other, r
      ensures ValidBook(AddElsewhere(b, t, counts)) && HoldsAt(AddElsewhere(b, t, counts), rows, types, elsewhere + [t], counts, other, r)
    {
      HoldsElsewhereAt(b, rows, types, elsewhere, t, counts, other, r);
    }
    HoldsElsewhereAt(b, rows, types, elsewhere, t, counts, "", TakingPart);
  }

  /** The book holds the report's sums. */
  ghost predicate Balanced(b: Book, m: map<Key, nat>, counts: map<string, nat>, types: seq<ProcessType>) {
    (forall name, role :: At(b, name, role) == TypeSum(m, counts, types, name, role)) &&
    (forall role :: SumNames(b, b.names, role) == TotalSum(m, counts, types, role))
  }

  lemma HoldsBalances(b: Book, rows: seq<Row>, m: map<Key, nat>, types: seq<ProcessType>, counts: map<string, nat>)
    requires Holds(b, rows, types, types, counts) && Lists(rows, m)
    ensures Balanced(b, m, counts, types)
  {
    forall name, role
      ensures At(b, name, role) == TypeSum(m, counts, types, name, role) &&
              SumNames(b, b.names, role) == TotalSum(m, counts, types, role)
    {
      hide At, SumNames, RowSum, SumOver, ElsewhereSum, ElsewhereAll;
      assert HoldsAt(b, rows, types, types, counts, name, role);
      RowSumIsSum(rows, m, Playing(types, name, role));
      RowSumIsSum(rows, m, PlayingAny(types, role));
    }
    forall role ensures SumNames(b, b.names, role) == TotalSum(m, counts, types, role) {
      assert At(b, "", role) == TypeSum(m, counts, types, "", role);
    }
  }

  // ----- Building it -----

  /** The additive counts by type and role, from the day rows. */
  method CollectBook(rows: seq<Row>, types: seq<ProcessType>, counts: map<string, nat>) returns (book: Book)
    ensures Holds(book, rows, types, types, counts)
  {
    book := Book([], map[]);
    hide RolesOf, RowSum, AddTo, Playing, PlayingAny, At;
    assert Holds(book, [], types, [], counts) by {
      EmptyBookHolds(types, counts);
    }
    hide Holds;
    for i := 0 to |rows|
      invariant Holds(book, rows[..i], types, [], counts)
    {
      var k := rows[i].key;
      var roles := RolesOf(types, k.processType, k.eventType);
      ghost var before := book;
      for j := 0 to |roles|
        invariant book == AddRoles(before, k.processType, roles[..j], rows[i].events)
      {
        assert roles[..j + 1][..j] == roles[..j];
        book := AddTo(book, k.processType, roles[j], rows[i].events);
      }
      assert roles[..|roles|] == roles;
      HoldsRow(before, rows[..i], rows[i], types, counts);
      assert rows[..i + 1] == rows[..i] + [rows[i]];
    }
    assert rows[..|rows|] == rows;
    for i := 0 to |types|
      invariant Holds(book, rows, types, types[..i], counts)
    {
      HoldsElsewhere(book, rows, types, types[..i], types[i], counts);
      assert types[..i + 1] == types[..i] + [types[i]];
      if TakesPartElsewhere(types[i]) {
        book := AddTo(book, types[i].name, TakingPart, N(counts, "total:" + types[i].name));
      }
    }
    assert types[..|types|] == types;
  }

  lemma EmptyBookHolds(types: seq<ProcessType>, counts: map<string, nat>)
    ensures Holds(Book([], map[]), [], types, [], counts)
  {
  }

  method SumRole(b: Book, role: Role) returns (sum: nat)
    ensures sum == SumNames(b, b.names, role)
  {
    sum := 0;
    for i := 0 to |b.names|
      invariant sum == SumNames(b, b.names[..i], role)
    {
      assert b.names[..i + 1][..i] == b.names[..i];
      sum := sum + At(b, b.names[i], role);
    }
    assert b.names[..|b.names|] == b.names;
  }

  method BuildTypeRows(b: Book, types: seq<ProcessType>, counts: map<string, nat>, exact: bool, ghost m: map<Key, nat>) returns (rows: seq<TypeRow>)
    requires Balanced(b, m, counts, types)
    ensures rows == TypeRows(m, counts, types, types, exact)
  {
    hide TypeSum, At, Suppress, N, TotalSum;
    rows := [];
    for i := 0 to |types|
      invariant rows == TypeRows(m, counts, types, types[..i], exact)
    {
      assert types[..i + 1][..i] == types[..i];
      var t := types[i];
      rows := rows + [TypeRow(t.name, t.plural,
                              Suppress(At(b, t.name, Creation), exact), Suppress(At(b, t.name, Closing), exact),
                              Suppress(At(b, t.name, TakingPart), exact), Suppress(At(b, t.name, Outcome), exact),
                              Suppress(N(counts, "active:" + t.name), exact))];
    }
    assert types[..|types|] == types;
  }

  /** One funder measure's two numbers. */
  method BuildMeasure(b: Book, types: seq<ProcessType>, counts: map<string, nat>, id: string, ghost m: map<Key, nat>)
    returns (residents: nat, records: nat)
    requires Balanced(b, m, counts, types)
    ensures residents == MeasureResidents(types, id, counts)
    ensures records == MeasureRecords(types, id, m, counts)
  {
    hide TypeSum, At, N, TotalSum, Feeders, TakesPartElsewhere, SourceField;
    var via := Feeders(types, id, TakingPart);
    residents, records := 0, 0;
    for i := 0 to |via|
      invariant residents == ElsewhereAll(via[..i], counts)
      invariant records == HubRecords(via[..i], m, counts, types)
    {
      assert via[..i + 1][..i] == via[..i];
      if TakesPartElsewhere(via[i]) {
        residents := residents + N(counts, "total:" + via[i].name);
      } else {
        records := records + At(b, via[i].name, TakingPart);
      }
    }
    assert via[..|via|] == via;
    if Residents(via) != [] {
      residents := residents + N(counts, "measure:" + id);
    }
    var outcome := Feeders(types, id, Outcome);
    ghost var viaRecords := records;
    for i := 0 to |outcome|
      invariant records == viaRecords + OutcomeRecords(outcome[..i], m, counts, types)
    {
      assert outcome[..i + 1][..i] == outcome[..i];
      records := records + At(b, outcome[i].name, Outcome);
    }
    assert outcome[..|outcome|] == outcome;
    if SummarizesSources(outcome) {
      residents := residents + N(counts, "source:" + id);
    }
  }

  method BuildMeasureRows(b: Book, q: Request, counts: map<string, nat>, start: int, end: int, ghost m: map<Key, nat>)
    returns (rows: seq<MeasureRow>)
    requires Balanced(b, m, counts, q.types)
    ensures rows == MeasureRows(m, counts, q, start, end, MEASURES)
  {
    hide Balanced, MeasureResidents, MeasureRecords, Suppress;
    rows := [];
    for i := 0 to |MEASURES|
      invariant rows == MeasureRows(m, counts, q, start, end, MEASURES[..i])
    {
      assert MEASURES[..i + 1][..i] == MEASURES[..i];
      var id := MEASURES[i];
      var residents, records := BuildMeasure(b, q.types, counts, id, m);
      rows := rows + [MeasureRow(id, q.words.measure(id), Suppress(residents, q.exact), Suppress(records, q.exact),
                                 q.words.derivation(id, start, end))];
    }
    assert MEASURES[..|MEASURES|] == MEASURES;
  }

  /** The stored rows of the days `from` to `to`. */
  method ReadDays(job: Rollup.Job, from: int, to: int) returns (rows: seq<Row>)
    ensures Lists(rows, StoredDays(job.daily, from, to))
  {
    var keys := job.StoredKeys(from, to);
    rows := [];
    for i := 0 to |keys|
      invariant |rows| == i
      invariant forall j :: 0 <= j < i ==> rows[j].key == keys[j]
      invariant MapOf(rows) == Picked(job.daily, keys[..i])
    {
      PickedStep(job.daily, keys, i);
      ghost var before := rows;
      rows := rows + [Row(keys[i], job.daily[keys[i]])];
      assert rows[..|rows| - 1] == before;
    }
    assert keys[..|keys|] == keys;
    assert Picked(job.daily, keys) == StoredDays(job.daily, from, to);
  }

  function Picked(m: map<Key, nat>, keys: seq<Key>): map<Key, nat> {
    map k | k in keys && k in m :: m[k]
  }

  lemma PickedStep(m: map<Key, nat>, keys: seq<Key>, i: nat)
    requires i < |keys| && keys[i] in m
    ensures Picked(m, keys[..i + 1]) == Picked(m, keys[..i])[keys[i] := m[keys[i]]]
  {
    assert keys[..i + 1] == keys[..i] + [keys[i]];
  }

  /** The stored counts of a period, at most 500 of them, and when the latest was computed. */
  method ReadCounts(job: Rollup.Job, kind: PeriodKind, start: int) returns (counts: map<string, nat>, at: Option<int>)
    ensures |Rollup.MeasuresAt(job.period, kind, start)| <= Rollup.MEASURE_LIMIT ==>
              counts == StoredCounts(job.period, kind, start) && LatestAt(job.period, kind, start, at)
  {
    var ms := job.SelectMeasures(kind, start);
    AllRead(ms, Rollup.MeasuresAt(job.period, kind, start));
    hide Rollup.IsRead;
    counts, at := map[], None;
    for i := 0 to |ms|
      invariant counts == map m | m in ms[..i] :: ValueAt(job.period, kind, start, m)
      invariant at.None? <==> i == 0
      invariant at.Some? ==> exists j :: 0 <= j < i && ComputedAt(job.period, kind, start, ms[j]) == at.value
      invariant forall j :: 0 <= j < i ==> ComputedAt(job.period, kind, start, ms[j]) <= at.value
    {
      var m := ms[i];
      assert ms[..i + 1] == ms[..i] + [m];
      assert m in Rollup.MeasuresAt(job.period, kind, start);
      var row := job.period[Rollup.PeriodKey(kind, start, m)];
      counts := counts[m := row.value];
      if at.None? || at.value < row.computedAt {
        at := Some(row.computedAt);
      }
    }
    assert ms[..|ms|] == ms;
    if |Rollup.MeasuresAt(job.period, kind, start)| <= Rollup.MEASURE_LIMIT {
      assert counts == StoredCounts(job.period, kind, start);
      LatestOf(job.period, kind, start, ms, at);
    }
  }

  lemma AllRead(ms: seq<string>, rows: set<string>)
    requires Rollup.IsRead((set m | m in ms), rows)
    ensures forall m :: m in ms ==> m in rows
    ensures |rows| <= Rollup.MEASURE_LIMIT ==> forall m :: m in rows ==> m in ms
  {
    var read := set m | m in ms;
    assert forall m :: m in ms ==> m in read;
    if |rows| <= Rollup.MEASURE_LIMIT {
      Rollup.SubsetOfSize(read, rows);
    }
  }

  function ComputedAt(t: Rollup.PeriodTable, kind: PeriodKind, start: int, m: string): int {
    var k := Rollup.PeriodKey(kind, start, m);
    if k in t then t[k].computedAt else 0
  }

  lemma LatestOf(t: Rollup.PeriodTable, kind: PeriodKind, start: int, ms: seq<string>, at: Option<int>)
    requires forall m :: m in ms <==> m in Rollup.MeasuresAt(t, kind, start)
    requires at.None? <==> ms == []
    requires at.Some? ==> exists j :: 0 <= j < |ms| && ComputedAt(t, kind, start, ms[j]) == at.value
    requires forall j :: 0 <= j < |ms| ==> ComputedAt(t, kind, start, ms[j]) <= at.value
    ensures LatestAt(t, kind, start, at)
  {
    if at.Some? {
      var j :| 0 <= j < |ms| && ComputedAt(t, kind, start, ms[j]) == at.value;
      assert ms[j] in Rollup.MeasuresAt(t, kind, start);
      forall k | k in t && k.kind == kind && k.start == start ensures t[k].computedAt <= at.value {
        assert k.measure in Rollup.MeasuresAt(t, kind, start);
        var i :| 0 <= i < |ms| && ms[i] == k.measure;
        assert ComputedAt(t, kind, start, ms[i]) == t[k].computedAt;
      }
    } else {
      assert forall m :: m in Rollup.MeasuresAt(t, kind, start) ==> m in ms;
    }
  }

  method BuildReport(job: Rollup.Job, log: Log, q: Request) returns (r: Report)
    ensures |Rollup.MeasuresAt(job.period, q.kind, PeriodFor(q).start)| <= Rollup.MEASURE_LIMIT ==>
              Reports(job.daily, job.period, job.counter, log, q, r)
  {
    hide PeriodOf, PreviousPeriod, CountActors, CountByDay, StoredDays, StoredCounts, LatestAt;
    var p := PeriodFor(q);
    var end := Rollup.EndBy(p, q.today);
    var days := ReadDays(job, p.start, end);
    ghost var m := StoredDays(job.daily, p.start, end);
    var counts, stored := ReadCounts(job, q.kind, p.start);
    var computedAt := stored;
    var live := false;
    if p.end >= q.today && !Fresh(computedAt, q.now) {
      days := CountRows(log, p.start, end);
      m := CountByDay(log, p.start, end);
      counts := CountActors(job.counter, log, Rollup.WindowOf(p, end, q.launch));
      computedAt, live := Some(q.now), true;
    }
    r := Assemble(q, days, counts, computedAt, live, m);
  }

  method Assemble(q: Request, days: seq<Row>, counts: map<string, nat>, computedAt: Option<int>, live: bool, ghost m: map<Key, nat>)
    returns (r: Report)
    requires Lists(days, m)
    ensures r == ReportOf(q, m, counts, computedAt, live)
  {
    hide PeriodOf, PreviousPeriod, Holds;
    var book := CollectBook(days, q.types, counts);
    HoldsBalances(book, days, m, q.types, counts);
    var p := PeriodFor(q);
    var end := Rollup.EndBy(p, q.today);
    var created := SumRole(book, Creation);
    var closed := SumRole(book, Closing);
    var participations := SumRole(book, TakingPart);
    var outcomes := SumRole(book, Outcome);
    var byType := BuildTypeRows(book, q.types, counts, q.exact, m);
    var measures := BuildMeasureRows(book, q, counts, p.start, end, m);
    var prev := PreviousPeriod(p, q.launch);
    hide TotalSum, SumNames, Suppress, N;
    r := Report(
      Period(p.kind, p.start, end), q.words.periodLabel(p), p.end >= q.today, prev, computedAt, live,
      Totals(Suppress(N(counts, "new_residents"), q.exact), Suppress(N(counts, "active"), q.exact),
             Suppress(created, q.exact), Suppress(closed, q.exact), Suppress(participations, q.exact), Suppress(outcomes, q.exact)),
      byType, measures,
      Retention(Suppress(N(counts, "multi_type"), q.exact), Suppress(if prev.Some? then N(counts, "returning") else 0, q.exact)));
  }
}
