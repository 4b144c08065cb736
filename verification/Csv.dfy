/**
  The Activity page's CSV download (features/analytics/csv.ts), and a reader of such
  a file after section 2 of RFC 4180, with LF line ends.
 */
module Csv {
  import opened Wrappers
  import opened Text
  import opened ReportData

  // ----- A cell -----

  predicate StartsFormula(s: string) {
    s != "" && (s[0] == '=' || s[0] == '+' || s[0] == '-' || s[0] == '@')
  }

  /** Text a spreadsheet will not take for a formula. */
  function Guard(s: string): (g: string)
    ensures !StartsFormula(g)
  {
    if StartsFormula(s) then "'" + s else s
  }

  predicate Special(c: char) {
    c == '"' || c == ',' || c == '\n'
  }

  function Doubled(s: string): string {
    if s == "" then "" else (if s[0] == '"' then "\"\"" else [s[0]]) + Doubled(s[1..])
  }

  function Cell(s: string): string {
    var safe := Guard(s);
    if exists i :: 0 <= i < |safe| && Special(safe[i]) then "\"" + Doubled(safe) + "\"" else safe
  }

  // ----- A file -----

  function Line(row: seq<string>): string
    requires row != []
  {
    if |row| == 1 then Cell(row[0]) else Cell(row[0]) + "," + Line(row[1..])
  }

  predicate AllRows(rows: seq<seq<string>>) {
    forall i :: 0 <= i < |rows| ==> rows[i] != []
  }

  function File(rows: seq<seq<string>>): string
    requires AllRows(rows)
  {
    if rows == [] then "" else Line(rows[0]) + "\n" + File(rows[1..])
  }

  // ----- Reading one back -----

  /** After the opening quote: the text up to the closing one, and what follows it. */
  function ReadQuoted(s: string): (r: Option<(string, string)>)
    ensures r.Some? ==> |r.value.1| < |s|
  {
    if s == "" then None
    else if s[0] != '"' then
      var more := ReadQuoted(s[1..]);
      if more.None? then None else Some(([s[0]] + more.value.0, more.value.1))
    else if |s| > 1 && s[1] == '"' then
      var more := ReadQuoted(s[2..]);
      if more.None? then None else Some(("\"" + more.value.0, more.value.1))
    else Some(("", s[1..]))
  }

  /** Text without quotes, up to a comma or a line end. */
  function ReadPlain(s: string): (r: Option<(string, string)>)
    ensures r.Some? ==> |r.value.1| <= |s|
  {
    if s == "" || s[0] == ',' || s[0] == '\n' then Some(("", s))
    else if s[0] == '"' then None
    else
      var more := ReadPlain(s[1..]);
      if more.None? then None else Some(([s[0]] + more.value.0, more.value.1))
  }

  function ReadField(s: string): (r: Option<(string, string)>)
    ensures r.Some? ==> |r.value.1| <= |s|
  {
    if s != "" && s[0] == '"' then ReadQuoted(s[1..]) else ReadPlain(s)
  }

  function ReadRecord(s: string): (r: Option<(seq<string>, string)>)
    ensures r.Some? ==> |r.value.1| < |s|
    decreases |s|
  {
    var field := ReadField(s);
    if field.None? || field.value.1 == "" then None
    else
      var text, rest := field.value.0, field.value.1;
      if rest[0] == '\n' then Some(([text], rest[1..]))
      else if rest[0] == ',' then
        var more := ReadRecord(rest[1..]);
        if more.None? then None else Some(([text] + more.value.0, more.value.1))
      else None
  }

  function ReadFile(s: string): Option<seq<seq<string>>>
    decreases |s|
  {
    if s == "" then Some([])
    else
      var record := ReadRecord(s);
      if record.None? then None
      else
        var more := ReadFile(record.value.1);
        if more.None? then None else Some([record.value.0] + more.value)
  }

  // ----- What was written is what is read -----

  lemma {:induction false} QuotedReadsBack(s: string, rest: string)
    requires rest == "" || rest[0] != '"'
    ensures ReadQuoted(Doubled(s) + "\"" + rest) == Some((s, rest))
  {
    var file := Doubled(s) + "\"" + rest;
    if s == "" {
      assert file == "\"" + rest;
    } else {
      QuotedReadsBack(s[1..], rest);
      var tail := Doubled(s[1..]) + "\"" + rest;
      if s[0] == '"' {
        assert file == "\"\"" + tail;
        assert file[2..] == tail;
      } else {
        assert file == [s[0]] + tail;
        assert file[1..] == tail;
      }
      assert s == [s[0]] + s[1..];
    }
  }

  lemma {:induction false} PlainReadsBack(s: string, rest: string)
    requires forall i :: 0 <= i < |s| ==> !Special(s[i])
    requires rest != "" && (rest[0] == ',' || rest[0] == '\n')
    ensures ReadPlain(s + rest) == Some((s, rest))
  {
    if s == "" {
      assert s + rest == rest;
    } else {
      PlainReadsBack(s[1..], rest);
      assert (s + rest)[1..] == s[1..] + rest;
      assert s == [s[0]] + s[1..];
    }
  }

  lemma CellReadsBack(s: string, rest: string)
    requires rest != "" && (rest[0] == ',' || rest[0] == '\n')
    ensures ReadField(Cell(s) + rest) == Some((Guard(s), rest))
  {
    hide Doubled, ReadQuoted, ReadPlain, Guard;
    var safe := Guard(s);
    if exists i :: 0 <= i < |safe| && Special(safe[i]) {
      QuotedReadsBack(safe, rest);
      assert Cell(s) + rest == "\"" + (Doubled(safe) + "\"" + rest);
    } else {
      PlainReadsBack(safe, rest);
      assert (safe + rest)[0] == if safe == "" then rest[0] else safe[0];
    }
  }

  function Guarded(row: seq<string>): seq<string> {
    seq(|row|, i requires 0 <= i < |row| => Guard(row[i]))
  }

  lemma {:induction false} LineReadsBack(row: seq<string>, rest: string)
    requires row != []
    ensures ReadRecord(Line(row) + "\n" + rest) == Some((Guarded(row), rest))
  {
    hide Cell, ReadField, Guard;
    var text := Line(row) + "\n" + rest;
    if |row| == 1 {
      assert text == Cell(row[0]) + ("\n" + rest);
      CellReadsBack(row[0], "\n" + rest);
      assert ("\n" + rest)[1..] == rest;
      assert Guarded(row) == [Guard(row[0])];
    } else {
      var tail := Line(row[1..]) + "\n" + rest;
      assert text == Cell(row[0]) + ("," + tail);
      CellReadsBack(row[0], "," + tail);
      assert ("," + tail)[1..] == tail;
      LineReadsBack(row[1..], rest);
      assert Guarded(row) == [Guard(row[0])] + Guarded(row[1..]);
    }
  }

  function AllGuarded(rows: seq<seq<string>>): seq<seq<string>> {
    seq(|rows|, i requires 0 <= i < |rows| => Guarded(rows[i]))
  }

  lemma OneRecordMore(s: string, row: seq<string>, rest: string, more: seq<seq<string>>)
    requires ReadRecord(s) == Some((row, rest)) && ReadFile(rest) == Some(more)
    ensures ReadFile(s) == Some([row] + more)
  {
    hide ReadRecord;
  }

  /** The reader gives back exactly the rows, each cell its guarded text. */
  lemma {:induction false} FileReadsBack(rows: seq<seq<string>>)
    requires AllRows(rows)
    ensures ReadFile(File(rows)) == Some(AllGuarded(rows))
  {
    if rows != [] {
      hide Line, ReadRecord, ReadFile, Guarded;
      LineReadsBack(rows[0], File(rows[1..]));
      FileReadsBack(rows[1..]);
      OneRecordMore(File(rows), Guarded(rows[0]), File(rows[1..]), AllGuarded(rows[1..]));
      assert AllGuarded(rows) == [Guarded(rows[0])] + AllGuarded(rows[1..]);
    } else {
      assert AllGuarded(rows) == [];
    }
  }

  /** Two tables that are written alike have the same shape and the same guarded cells. */
  lemma FilesDiffer(rows: seq<seq<string>>, others: seq<seq<string>>)
    requires AllRows(rows) && AllRows(others)
    ensures File(rows) == File(others) <==> AllGuarded(rows) == AllGuarded(others)
  {
    FileReadsBack(rows);
    FileReadsBack(others);
    if AllGuarded(rows) == AllGuarded(others) {
      SameGuardsSameFile(rows, others);
    }
  }

  lemma {:induction false} SameGuardsSameLine(row: seq<string>, other: seq<string>)
    requires row != [] && other != [] && Guarded(row) == Guarded(other)
    ensures Line(row) == Line(other)
  {
    assert |Guarded(row)| == |row| && |Guarded(other)| == |other|;
    assert Guard(row[0]) == Guarded(row)[0] == Guarded(other)[0] == Guard(other[0]);
    if |row| > 1 {
      assert Guarded(row[1..]) == Guarded(row)[1..] && Guarded(other[1..]) == Guarded(other)[1..];
      SameGuardsSameLine(row[1..], other[1..]);
    }
  }

  lemma {:induction false} SameGuardsSameFile(rows: seq<seq<string>>, others: seq<seq<string>>)
    requires AllRows(rows) && AllRows(others) && AllGuarded(rows) == AllGuarded(others)
    ensures File(rows) == File(others)
  {
    assert |AllGuarded(rows)| == |rows| && |AllGuarded(others)| == |others|;
    if rows != [] {
      hide Line;
      assert Guarded(rows[0]) == AllGuarded(rows)[0] == AllGuarded(others)[0] == Guarded(others[0]);
      SameGuardsSameLine(rows[0], others[0]);
      assert AllGuarded(rows[1..]) == AllGuarded(rows)[1..] && AllGuarded(others[1..]) == AllGuarded(others)[1..];
      SameGuardsSameFile(rows[1..], others[1..]);
    }
  }

  // ----- The report's rows -----

  /** A count as text: its digits, or the words that stand for 1 to 4. */
  function CountText(c: Count): string {
    match c
    case Number(n) => Decimal(n)
    case FewerThanFive => "fewer than 5"
  }

  function Row(section: string, item: string, measure: string, value: string): (row: seq<string>)
    ensures |row| == 4
  {
    [section, item, measure, value]
  }

  predicate AllFour(rows: seq<seq<string>>) {
    forall i :: 0 <= i < |rows| ==> |rows[i]| == 4
  }

  /** The period's days as they are printed. */
  datatype Days = Days(from: string, to: string)

  function HeadRows(caption: string, days: Days): (rows: seq<seq<string>>)
    ensures |rows| == 3 && AllFour(rows)
  {
    [Row("section", "item", "measure", "value"),
     Row("period", caption, "from", days.from),
     Row("period", caption, "to", days.to)]
  }

  function TotalRows(t: Totals): (rows: seq<seq<string>>)
    ensures |rows| == 6 && AllFour(rows)
  {
    var row := (measure: string, c: Count) => Row("totals", "all types", measure, CountText(c));
    [row("new_residents", t.newResidents), row("active_residents", t.active),
     row("processes_created", t.created), row("processes_closed", t.closed),
     row("participations", t.participations), row("outcomes", t.outcomes)]
  }

  function RowsOfType(t: TypeRow): (rows: seq<seq<string>>)
    ensures |rows| == 5 && AllFour(rows)
  {
    var row := (measure: string, c: Count) => Row("by type", t.plural, measure, CountText(c));
    [row("processes_created", t.created), row("processes_closed", t.closed), row("participations", t.participations),
     row("outcomes", t.outcomes), row("active_residents", t.active)]
  }

  function RowsOfMeasure(m: MeasureRow): (rows: seq<seq<string>>)
    ensures |rows| == 3 && AllFour(rows)
  {
    var row := (measure: string, value: string) => Row("funder measure", m.words.heading, measure, value);
    [row(m.words.residents, CountText(m.residents)), row(m.words.records, CountText(m.records)),
     row("derivation", m.derivation)]
  }

  function RetentionRows(t: Retention): (rows: seq<seq<string>>)
    ensures |rows| == 2 && AllFour(rows)
  {
    var row := (measure: string, c: Count) => Row("retention", "all types", measure, CountText(c));
    [row("residents_in_more_than_one_type", t.inMoreThanOneType), row("returning_from_previous_period", t.returning)]
  }

  function RowsOfTypes(types: seq<TypeRow>): seq<seq<string>> {
    if types == [] then [] else RowsOfTypes(types[..|types| - 1]) + RowsOfType(types[|types| - 1])
  }

  function RowsOfMeasures(measures: seq<MeasureRow>): seq<seq<string>> {
    if measures == [] then [] else RowsOfMeasures(measures[..|measures| - 1]) + RowsOfMeasure(measures[|measures| - 1])
  }

  /** Every number of the report, one to a row, under its section, item and measure. */
  function ReportRows(r: Report, days: Days): seq<seq<string>> {
    HeadRows(r.caption, days) + TotalRows(r.totals) + RowsOfTypes(r.byType) + RowsOfMeasures(r.measures) + RetentionRows(r.retention)
  }

  lemma {:induction false} TypesHaveFive(types: seq<TypeRow>)
    ensures |RowsOfTypes(types)| == 5 * |types|
    ensures forall i :: 0 <= i < |types| ==> RowsOfTypes(types)[5 * i..5 * i + 5] == RowsOfType(types[i])
    ensures AllFour(RowsOfTypes(types))
  {
    hide RowsOfType;
    if types != [] {
      var last := |types| - 1;
      TypesHaveFive(types[..last]);
      var before, rows := RowsOfTypes(types[..last]), RowsOfTypes(types);
      forall i | 0 <= i < |types|
        ensures rows[5 * i..5 * i + 5] == RowsOfType(types[i])
      {
        if i < last {
          assert rows[5 * i..5 * i + 5] == before[5 * i..5 * i + 5];
        }
      }
    }
  }

  lemma {:induction false} MeasuresHaveThree(measures: seq<MeasureRow>)
    ensures |RowsOfMeasures(measures)| == 3 * |measures|
    ensures forall i :: 0 <= i < |measures| ==> RowsOfMeasures(measures)[3 * i..3 * i + 3] == RowsOfMeasure(measures[i])
    ensures AllFour(RowsOfMeasures(measures))
  {
    hide RowsOfMeasure;
    if measures != [] {
      var last := |measures| - 1;
      MeasuresHaveThree(measures[..last]);
      var before, rows := RowsOfMeasures(measures[..last]), RowsOfMeasures(measures);
      forall i | 0 <= i < |measures|
        ensures rows[3 * i..3 * i + 3] == RowsOfMeasure(measures[i])
      {
        if i < last {
          assert rows[3 * i..3 * i + 3] == before[3 * i..3 * i + 3];
        }
      }
    }
  }

  lemma RowsAreWhole(r: Report, days: Days)
    ensures AllRows(ReportRows(r, days))
    ensures |ReportRows(r, days)| == 11 + 5 * |r.byType| + 3 * |r.measures|
    ensures AllFour(ReportRows(r, days))
  {
    hide RowsOfTypes, RowsOfMeasures, HeadRows, TotalRows, RetentionRows;
    TypesHaveFive(r.byType);
    MeasuresHaveThree(r.measures);
  }

  /** The first rows of the download are the period and each total under its name, the last who came back. */
  lemma TotalsUnderTheirNames(r: Report, days: Days)
    ensures var rows := ReportRows(r, days);
            && |rows| == 11 + 5 * |r.byType| + 3 * |r.measures|
            && rows[0] == ["section", "item", "measure", "value"]
            && rows[1] == ["period", r.caption, "from", days.from]
            && rows[2] == ["period", r.caption, "to", days.to]
            && rows[3] == ["totals", "all types", "new_residents", CountText(r.totals.newResidents)]
            && rows[4] == ["totals", "all types", "active_residents", CountText(r.totals.active)]
            && rows[5] == ["totals", "all types", "processes_created", CountText(r.totals.created)]
            && rows[6] == ["totals", "all types", "processes_closed", CountText(r.totals.closed)]
            && rows[7] == ["totals", "all types", "participations", CountText(r.totals.participations)]
            && rows[8] == ["totals", "all types", "outcomes", CountText(r.totals.outcomes)]
            && rows[|rows| - 2] == ["retention", "all types", "residents_in_more_than_one_type", CountText(r.retention.inMoreThanOneType)]
            && rows[|rows| - 1] == ["retention", "all types", "returning_from_previous_period", CountText(r.retention.returning)]
  {
    hide RowsOfTypes, RowsOfMeasures, CountText;
    RowsAreWhole(r, days);
  }

  /** Then five numbers to a type, each under its name and the type's plural. */
  lemma TypesUnderTheirNames(r: Report, days: Days, i: nat)
    requires i < |r.byType|
    ensures var rows, t, at := ReportRows(r, days), r.byType[i], 9 + 5 * i;
            && at + 5 <= |rows|
            && rows[at] == ["by type", t.plural, "processes_created", CountText(t.created)]
            && rows[at + 1] == ["by type", t.plural, "processes_closed", CountText(t.closed)]
            && rows[at + 2] == ["by type", t.plural, "participations", CountText(t.participations)]
            && rows[at + 3] == ["by type", t.plural, "outcomes", CountText(t.outcomes)]
            && rows[at + 4] == ["by type", t.plural, "active_residents", CountText(t.active)]
  {
    hide ReportRows, CountText;
    TypeRowAt(r, days, i, 0);
    TypeRowAt(r, days, i, 1);
    TypeRowAt(r, days, i, 2);
    TypeRowAt(r, days, i, 3);
    TypeRowAt(r, days, i, 4);
  }

  lemma TypeRowAt(r: Report, days: Days, i: nat, k: nat)
    requires i < |r.byType| && k < 5
    ensures 9 + 5 * i + k < |ReportRows(r, days)| && ReportRows(r, days)[9 + 5 * i + k] == RowsOfType(r.byType[i])[k]
  {
    hide RowsOfTypes, RowsOfMeasures, HeadRows, TotalRows, RetentionRows, RowsOfType;
    TypesHaveFive(r.byType);
    RowsAreWhole(r, days);
    assert RowsOfTypes(r.byType)[5 * i..5 * i + 5][k] == RowsOfTypes(r.byType)[5 * i + k];
  }

  /** And three rows to a measure, under its heading: its two numbers and where they come from. */
  lemma MeasuresUnderTheirNames(r: Report, days: Days, j: nat)
    requires j < |r.measures|
    ensures var rows, m, at := ReportRows(r, days), r.measures[j], 9 + 5 * |r.byType| + 3 * j;
            && at + 3 <= |rows|
            && rows[at] == ["funder measure", m.words.heading, m.words.residents, CountText(m.residents)]
            && rows[at + 1] == ["funder measure", m.words.heading, m.words.records, CountText(m.records)]
            && rows[at + 2] == ["funder measure", m.words.heading, "derivation", m.derivation]
  {
    hide ReportRows, CountText;
    MeasureRowAt(r, days, j, 0);
    MeasureRowAt(r, days, j, 1);
    MeasureRowAt(r, days, j, 2);
  }

  lemma MeasureRowAt(r: Report, days: Days, j: nat, k: nat)
    requires j < |r.measures| && k < 3
    ensures var at := 9 + 5 * |r.byType| + 3 * j + k;
            at < |ReportRows(r, days)| && ReportRows(r, days)[at] == RowsOfMeasure(r.measures[j])[k]
  {
    hide RowsOfTypes, RowsOfMeasures, HeadRows, TotalRows, RetentionRows, RowsOfMeasure;
    TypesHaveFive(r.byType);
    MeasuresHaveThree(r.measures);
    RowsAreWhole(r, days);
    assert RowsOfMeasures(r.measures)[3 * j..3 * j + 3][k] == RowsOfMeasures(r.measures)[3 * j + k];
  }

  /** The download, built row by row, then written out. */
  method ReportCsv(r: Report, days: Days) returns (csv: string)
    ensures AllRows(ReportRows(r, days)) && csv == File(ReportRows(r, days))
  {
    hide HeadRows, TotalRows, RetentionRows, RowsOfType, RowsOfMeasure, Line;
    RowsAreWhole(r, days);
    var rows := HeadRows(r.caption, days) + TotalRows(r.totals);
    ghost var head := rows;
    for i := 0 to |r.byType|
      invariant rows == head + RowsOfTypes(r.byType[..i])
    {
      assert r.byType[..i + 1][..i] == r.byType[..i];
      rows := rows + RowsOfType(r.byType[i]);
    }
    assert r.byType[..|r.byType|] == r.byType;
    head := rows;
    for i := 0 to |r.measures|
      invariant rows == head + RowsOfMeasures(r.measures[..i])
    {
      assert r.measures[..i + 1][..i] == r.measures[..i];
      rows := rows + RowsOfMeasure(r.measures[i]);
    }
    assert r.measures[..|r.measures|] == r.measures;
    rows := rows + RetentionRows(r.retention);
    assert rows == ReportRows(r, days);
    csv := "";
    var k := |rows|;
    while k > 0
      invariant 0 <= k <= |rows|
      invariant csv == File(rows[k..])
    {
      k := k - 1;
      assert rows[k..][1..] == rows[k + 1..];
      csv := Line(rows[k]) + "\n" + csv;
    }
  }

  /** The download reads back as the report's own rows, and no cell of it starts a formula. */
  lemma ReportReadsBack(r: Report, days: Days)
    ensures AllRows(ReportRows(r, days))
    ensures ReadFile(File(ReportRows(r, days))) == Some(AllGuarded(ReportRows(r, days)))
    ensures forall row, cell :: row in AllGuarded(ReportRows(r, days)) && cell in row ==> cell == "" || cell[0] !in "=+-@"
  {
    hide ReportRows, File, ReadFile;
    RowsAreWhole(r, days);
    FileReadsBack(ReportRows(r, days));
    forall row, cell | row in AllGuarded(ReportRows(r, days)) && cell in row
      ensures cell == "" || cell[0] !in "=+-@"
    {
      NoFormula(cell);
    }
  }

  /** A cell is its text, a quote mark before it only if it would start a formula, in quotes only if a quote, a comma or a line end is in it. */
  lemma PlainCell(s: string)
    ensures Guard(s) == if s != "" && s[0] in "=+-@" then "'" + s else s
    ensures (forall i :: 0 <= i < |s| ==> s[i] !in "\",\n") ==> Cell(s) == Guard(s)
    ensures (exists i :: 0 <= i < |s| && s[i] in "\",\n") ==> Cell(s) == "\"" + Doubled(Guard(s)) + "\""
  {
    hide Doubled;
    NoFormula(s);
    var g := Guard(s);
    if i :| 0 <= i < |s| && s[i] in "\",\n" {
      assert g[i + |g| - |s|] == s[i];
    }
  }

  lemma NoFormula(cell: string)
    ensures StartsFormula(cell) <==> cell != "" && cell[0] in "=+-@"
  {
  }

  /** A number in the download is a number in the report: its digits read back as it. */
  lemma CountsReadBack(c: Count, d: Count)
    ensures CountText(c) == CountText(d) <==> c == d
    ensures Guard(CountText(c)) == CountText(c)
    ensures c.FewerThanFive? ==> CountText(c) == "fewer than 5"
  {
    if c.Number? {
      DecimalRoundTrip(c.n);
    }
    if d.Number? {
      DecimalRoundTrip(d.n);
    }
    assert !AllDigits("fewer than 5") by {
      assert !IsDigit("fewer than 5"[0]);
    }
  }
}
