/** The report every Activity surface reads (features/analytics/types.ts). */
module ReportData {
  import opened Wrappers
  import opened Calendar

  /** A count; below admin, 1 to 4 is "fewer than 5". */
  datatype Count = Number(n: nat) | FewerThanFive

  const SMALL: nat := 5

  function Suppress(v: nat, exact: bool): Count {
    if !exact && 0 < v < SMALL then FewerThanFive else Number(v)
  }

  /** Below admin two counts look alike only when they are equal or both small; zero is always told apart. */
  lemma SuppressHides(a: nat, b: nat)
    ensures Suppress(a, false) == Suppress(b, false) <==> a == b || (1 <= a <= 4 && 1 <= b <= 4)
    ensures Suppress(a, true) == Suppress(b, true) <==> a == b
  {
  }

  datatype TypeRow = TypeRow(
    name: string, plural: string, created: Count, closed: Count, participations: Count, outcomes: Count, active: Count)

  datatype MeasureWords = MeasureWords(heading: string, residents: string, records: string)

  datatype MeasureRow = MeasureRow(id: string, words: MeasureWords, residents: Count, records: Count, derivation: string)

  datatype Totals = Totals(newResidents: Count, active: Count, created: Count, closed: Count, participations: Count, outcomes: Count)

  datatype Retention = Retention(inMoreThanOneType: Count, returning: Count)

  datatype Report = Report(
    period: Period, caption: string, toDate: bool, previous: Option<Period>,
    computedAt: Option<int>, live: bool,
    totals: Totals, byType: seq<TypeRow>, measures: seq<MeasureRow>, retention: Retention)
}
