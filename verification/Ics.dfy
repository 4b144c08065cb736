/** The hub's calendar as iCalendar (packages/civic.event/ics.ts). */
module Ics {
  import opened Wrappers
  import opened Text
  import opened EventData
  import opened IcsFold
  import Calendar
  import IsoDate

  // ----- Text values (RFC 5545, section 3.3.11) -----

  function ReplaceChar(s: string, c: char, put: string): string {
    if s == "" then "" else (if s[0] == c then put else [s[0]]) + ReplaceChar(s[1..], c, put)
  }

  /** CRLF and LF, each read as one new line. */
  function ReplaceNewlines(s: string, put: string): string {
    if s == "" then ""
    else if |s| >= 2 && s[0] == '\r' && s[1] == '\n' then put + ReplaceNewlines(s[2..], put)
    else (if s[0] == '\n' then put else [s[0]]) + ReplaceNewlines(s[1..], put)
  }

  function EscapeText(value: string): string {
    ReplaceNewlines(ReplaceChar(ReplaceChar(ReplaceChar(value, '\\', "\\\\"), ';', "\\;"), ',', "\\,"), "\\n")
  }

  /** A TEXT value read back. */
  function Unescape(s: string): string {
    if s == "" then ""
    else if s[0] == '\\' && |s| >= 2 then
      [if s[1] == 'n' || s[1] == 'N' then '\n' else s[1]] + Unescape(s[2..])
    else [s[0]] + Unescape(s[1..])
  }

  /** The three replacements of single characters, in the order they are made. */
  function EscapeMarks(s: string): string {
    ReplaceChar(ReplaceChar(ReplaceChar(s, '\\', "\\\\"), ';', "\\;"), ',', "\\,")
  }

  /** What the three make of one character. */
  function Mark(c: char): string {
    if c == '\\' then "\\\\" else if c == ';' then "\\;" else if c == ',' then "\\," else [c]
  }

  /** One character replaced, at the front of a text. */
  lemma ReplaceFirst(a: char, t: string, c: char, put: string)
    ensures ReplaceChar([a] + t, c, put) == (if a == c then put else [a]) + ReplaceChar(t, c, put)
  {
    assert ([a] + t)[1..] == t;
  }

  lemma ReplaceSecond(a: char, b: char, t: string, c: char, put: string)
    ensures ReplaceChar([a, b] + t, c, put) == (if a == c then put else [a]) + ((if b == c then put else [b]) + ReplaceChar(t, c, put))
  {
    assert [a, b] + t == [a] + ([b] + t);
    ReplaceFirst(a, [b] + t, c, put);
    ReplaceFirst(b, t, c, put);
  }

  lemma EscapeMarksStep(s: string)
    requires s != ""
    ensures EscapeMarks(s) == Mark(s[0]) + EscapeMarks(s[1..])
  {
    assert s == [s[0]] + s[1..];
    if s[0] == '\\' {
      MarkBackslash(s[1..]);
    } else if s[0] == ';' {
      MarkSemicolon(s[1..]);
    } else {
      MarkOther(s[0], s[1..]);
    }
  }

  lemma MarkBackslash(rest: string)
    ensures EscapeMarks("\\" + rest) == "\\\\" + EscapeMarks(rest)
  {
    var one := ReplaceChar(rest, '\\', "\\\\");
    var two := ReplaceChar(one, ';', "\\;");
    hide ReplaceChar;
    ReplaceFirst('\\', rest, '\\', "\\\\");
    ReplaceSecond('\\', '\\', one, ';', "\\;");
    assert "\\" + ("\\" + two) == "\\\\" + two;
    ReplaceSecond('\\', '\\', two, ',', "\\,");
  }

  lemma MarkSemicolon(rest: string)
    ensures EscapeMarks(";" + rest) == "\\;" + EscapeMarks(rest)
  {
    var one := ReplaceChar(rest, '\\', "\\\\");
    var two := ReplaceChar(one, ';', "\\;");
    hide ReplaceChar;
    ReplaceFirst(';', rest, '\\', "\\\\");
    ReplaceFirst(';', one, ';', "\\;");
    ReplaceSecond('\\', ';', two, ',', "\\,");
  }

  lemma MarkOther(c: char, rest: string)
    requires c != '\\' && c != ';'
    ensures EscapeMarks([c] + rest) == Mark(c) + EscapeMarks(rest)
  {
    var one := ReplaceChar(rest, '\\', "\\\\");
    var two := ReplaceChar(one, ';', "\\;");
    hide ReplaceChar;
    ReplaceFirst(c, rest, '\\', "\\\\");
    ReplaceFirst(c, one, ';', "\\;");
    ReplaceFirst(c, two, ',', "\\,");
  }

  lemma MarkRead(c: char, t: string)
    requires c != '\n'
    ensures Unescape(Mark(c) + t) == [c] + Unescape(t)
    ensures |Mark(c)| == 2 ==> Mark(c)[0] == '\\' && Mark(c)[1] != '\n' && Mark(c)[1] != '\r'
  {
    var s := Mark(c) + t;
    if |Mark(c)| == 2 {
      assert s[2..] == t;
    } else {
      assert s[1..] == t;
    }
  }

  lemma NewlinesSkip(c: char, t: string)
    requires c != '\n' && (c == '\r' ==> t == "" || t[0] != '\n')
    ensures ReplaceNewlines([c] + t, "\\n") == [c] + ReplaceNewlines(t, "\\n")
  {
    assert ([c] + t)[1..] == t;
  }

  lemma NewlinesAfterMark(c: char, t: string)
    requires c != '\n' && (c == '\r' ==> t == "" || t[0] != '\n')
    ensures ReplaceNewlines(Mark(c) + t, "\\n") == Mark(c) + ReplaceNewlines(t, "\\n")
  {
    hide ReplaceNewlines;
    NewlinesSkip(c, t);
    if c == '\\' || c == ';' || c == ',' {
      NewlinesSkip('\\', [c] + t);
      assert Mark(c) + t == ['\\'] + ([c] + t);
      assert ['\\'] + ([c] + ReplaceNewlines(t, "\\n")) == Mark(c) + ReplaceNewlines(t, "\\n");
    }
  }

  /**
    Reading an escaped text value gives the text back, CRLF read as LF; and no
    line feed is left in it to break the content line it stands on.
   */
  lemma {:induction false} EscapeRoundTrip(value: string)
    ensures Unescape(EscapeText(value)) == ReplaceNewlines(value, "\n")
    ensures NoLf(EscapeText(value))
  {
    assert EscapeText(value) == ReplaceNewlines(EscapeMarks(value), "\\n");
    hide ReplaceChar, EscapeMarks, Mark;
    if value != "" {
      var c, rest := value[0], value[1..];
      var marks := EscapeMarks(rest);
      EscapeMarksStep(value);
      EscapeRoundTrip(rest);
      MarkIs(c);
      if c == '\n' {
        assert ("\n" + marks)[1..] == marks;
        NewlineRead(ReplaceNewlines(marks, "\\n"));
      } else if c == '\r' && rest != "" && rest[0] == '\n' {
        EscapeMarksStep(rest);
        MarkIs(rest[0]);
        EscapeRoundTrip(rest[1..]);
        assert EscapeMarks(value)[2..] == EscapeMarks(rest[1..]);
        assert value[2..] == rest[1..];
        NewlineRead(ReplaceNewlines(EscapeMarks(rest[1..]), "\\n"));
      } else {
        if rest != "" {
          EscapeMarksStep(rest);
          MarkIs(rest[0]);
        } else {
          EmptyMarks();
        }
        NewlinesAfterMark(c, marks);
        MarkRead(c, ReplaceNewlines(marks, "\\n"));
      }
    } else {
      EmptyMarks();
    }
  }

  lemma EmptyMarks()
    ensures EscapeMarks("") == ""
  {
  }

  lemma MarkIs(c: char)
    ensures c == '\n' || c == '\r' ==> Mark(c) == [c]
    ensures Mark(c) != "" && (Mark(c)[0] == '\n' ==> c == '\n')
    ensures c != '\n' ==> NoLf(Mark(c))
  {
  }

  lemma NewlineRead(t: string)
    ensures Unescape("\\n" + t) == "\n" + Unescape(t)
  {
    assert ("\\n" + t)[2..] == t;
  }

  // ----- Instants -----

  const DAY_MS: int := 86400000

  /** `toISOString` without its punctuation and milliseconds: 20261101T170000Z. */
  function Stamp(ms: int): string {
    var day, s := ms / DAY_MS, ms % DAY_MS / 1000;
    YearDigits(Calendar.YearOf(day)) + Pad(Calendar.MonthOf(day) + 1, 2) + Pad(DateDigits(day), 2) + "T" +
    Pad(s / 3600, 2) + Pad(s / 60 % 60, 2) + Pad(s % 60, 2) + "Z"
  }

  function DateDigits(day: int): nat {
    var d := Calendar.DateOf(day);
    if d < 0 then 0 else d
  }

  /** Four digits; six, and a plus sign kept but not a minus, outside years 0 to 9999. */
  function YearDigits(y: int): string {
    if 0 <= y < 10000 then Pad(y, 4) else if y < 0 then Pad(-y, 6) else "+" + Pad(y, 6)
  }

  lemma StampHasNoLf(ms: int)
    ensures NoLf(Stamp(ms))
  {
    hide Calendar.YearOf, Calendar.MonthOf, Calendar.DateOf, Pad;
  }

  /** A UTC DATE-TIME: eight digits, a letter, six digits. */
  predicate IsStamp(s: string) {
    && |s| == 16 && s[8] == 'T' && s[15] == 'Z'
    && AllDigits(s[..4]) && AllDigits(s[4..6]) && AllDigits(s[6..8])
    && AllDigits(s[9..11]) && AllDigits(s[11..13]) && AllDigits(s[13..15])
  }

  /** A UTC DATE-TIME read as an instant. */
  function ReadStamp(s: string): int
    requires IsStamp(s)
  {
    ReadDate(s) * DAY_MS + ReadTime(s) * 1000
  }

  function ReadDate(s: string): int
    requires IsStamp(s)
  {
    Calendar.MakeDay(Value(s[..4]), Value(s[4..6]) - 1, Value(s[6..8]))
  }

  function ReadTime(s: string): nat
    requires IsStamp(s)
  {
    Value(s[9..11]) * 3600 + Value(s[11..13]) * 60 + Value(s[13..15])
  }

  /** Where the parts of a printed time stand in it. */
  lemma StampParts(ms: int)
    requires IsoDate.FourDigitYear(ms / DAY_MS)
    ensures var t, day, s := Stamp(ms), ms / DAY_MS, ms % DAY_MS / 1000;
            && IsStamp(t)
            && t[..4] == Pad(Calendar.YearOf(day), 4) && t[4..6] == Pad(Calendar.MonthOf(day) + 1, 2)
            && t[6..8] == Pad(DateDigits(day), 2)
            && t[9..11] == Pad(s / 3600, 2) && t[11..13] == Pad(s / 60 % 60, 2) && t[13..15] == Pad(s % 60, 2)
  {
    hide Calendar.YearOf, Calendar.MonthOf, DateDigits, Pad, AllDigits;
    var day, s := ms / DAY_MS, ms % DAY_MS / 1000;
    Pieces(Pad(Calendar.YearOf(day), 4), Pad(Calendar.MonthOf(day) + 1, 2), Pad(DateDigits(day), 2),
           Pad(s / 3600, 2), Pad(s / 60 % 60, 2), Pad(s % 60, 2));
  }

  lemma Pieces(y: string, m: string, d: string, h: string, n: string, s: string)
    requires |y| == 4 && |m| == |d| == |h| == |n| == |s| == 2
    ensures var t := y + m + d + "T" + h + n + s + "Z";
            |t| == 16 && t[8] == 'T' && t[15] == 'Z' && t[..4] == y && t[4..6] == m && t[6..8] == d && t[9..11] == h && t[11..13] == n && t[13..15] == s
  {
  }

  lemma DateReadsBack(day: int)
    requires IsoDate.FourDigitYear(day)
    ensures Calendar.MakeDay(Value(Pad(Calendar.YearOf(day), 4)), Value(Pad(Calendar.MonthOf(day) + 1, 2)) - 1,
                             Value(Pad(DateDigits(day), 2))) == day
  {
    hide Calendar.YearOf, Calendar.MonthOf, Calendar.DateOf, Calendar.MakeDay, Pow10, Pad, Value;
    IsoDate.DateInMonth(day);
    IsoDate.Powers();
    PadRoundTrip(Calendar.YearOf(day), 4);
    PadRoundTrip(Calendar.MonthOf(day) + 1, 2);
    PadRoundTrip(Calendar.DateOf(day), 2);
    Calendar.CivilRoundTrip(day, 0, 0, 1);
  }

  lemma TimeReadsBack(s: nat)
    requires s < 86400
    ensures Value(Pad(s / 3600, 2)) * 3600 + Value(Pad(s / 60 % 60, 2)) * 60 + Value(Pad(s % 60, 2)) == s
  {
    hide Pow10, Pad, Value;
    SecondsOfDay(s);
    IsoDate.Powers();
    PadRoundTrip(s / 3600, 2);
    PadRoundTrip(s / 60 % 60, 2);
    PadRoundTrip(s % 60, 2);
  }

  /** A printed time names its instant, to the second. */
  lemma StampReadsBack(ms: int)
    requires IsoDate.FourDigitYear(ms / DAY_MS)
    ensures IsStamp(Stamp(ms)) && ReadStamp(Stamp(ms)) == ms - ms % 1000
  {
    hide ReadDate, ReadTime, Stamp, IsStamp;
    PartsReadBack(ms);
    DayAndTime(ms);
  }

  lemma PartsReadBack(ms: int)
    requires IsoDate.FourDigitYear(ms / DAY_MS)
    ensures IsStamp(Stamp(ms))
    ensures ReadDate(Stamp(ms)) == ms / DAY_MS && ReadTime(Stamp(ms)) == ms % DAY_MS / 1000
  {
    hide Calendar.YearOf, Calendar.MonthOf, DateDigits, Calendar.MakeDay, Pad, Value, Stamp;
    StampParts(ms);
    DateReadsBack(ms / DAY_MS);
    TimeReadsBack(ms % DAY_MS / 1000);
  }

  lemma DayAndTime(ms: int)
    ensures ms / DAY_MS * DAY_MS + ms % DAY_MS / 1000 * 1000 == ms - ms % 1000
  {
    var rest := ms % DAY_MS;
    assert ms == ms / DAY_MS * DAY_MS + rest;
    assert rest == rest / 1000 * 1000 + rest % 1000;
    assert rest % 1000 == ms % 1000;
  }

  lemma SecondsOfDay(s: nat)
    requires s < 86400
    ensures s == s / 3600 * 3600 + s / 60 % 60 * 60 + s % 60
    ensures s / 3600 < 100 && s / 60 % 60 < 100 && s % 60 < 100
  {
    var minutes := s / 60;
    assert s / 3600 == minutes / 60;
  }

  // ----- The feed -----

  datatype Options = Options(
    name: string, uidDomain: string, eventUrl: string -> string, now: int,
    timeZone: Option<string>, defaultTimeZone: string, whenText: (int, int, string) -> string)

  function HasText(o: Option<string>): bool {
    o.Some? && o.value != ""
  }

  function AddressParts(a: Address): seq<string> {
    (if HasText(a.street) then [a.street.value] else []) + (if HasText(a.locality) then [a.locality.value] else []) +
    (if HasText(a.region) then [a.region.value] else []) + (if HasText(a.postalCode) then [a.postalCode.value] else []) +
    (if HasText(a.country) then [a.country.value] else [])
  }

  /** One line for where it is. */
  function LocationLine(l: Location): string {
    match l
    case Link(_, _) => "Online"
    case Place(name, address) => Join([name] + if address.Some? then AddressParts(address.value) else [], ", ")
  }

  function NonEmpty(parts: seq<string>): seq<string> {
    if parts == [] then [] else (if parts[0] != "" then [parts[0]] else []) + NonEmpty(parts[1..])
  }

  function SummaryText(row: CalendarRow): string {
    if row.cancelled then "Cancelled: " + row.title else row.title
  }

  function LocationText(row: CalendarRow): string {
    if row.location.Link? then row.location.href else LocationLine(row.location)
  }

  function DescriptionText(row: CalendarRow, o: Options): string {
    var when := o.whenText(row.start, row.end, if row.timeZone.Some? then row.timeZone.value else o.defaultTimeZone);
    Join(NonEmpty([when, Trim(row.description), o.eventUrl(row.processId)]), "\n\n")
  }

  /** An event's properties, in the order they are written. */
  function EventLines(row: CalendarRow, o: Options): seq<string> {
    ["UID:" + (row.processId + "@" + o.uidDomain),
     "DTSTAMP:" + Stamp(o.now),
     "DTSTART:" + Stamp(row.start),
     "DTEND:" + Stamp(row.end),
     "SUMMARY:" + EscapeText(SummaryText(row)),
     "STATUS:" + (if row.cancelled then "CANCELLED" else "CONFIRMED"),
     "LOCATION:" + EscapeText(LocationText(row)),
     "URL:" + o.eventUrl(row.processId)] +
    (if HasText(row.imageUrl) then ["IMAGE;VALUE=URI;DISPLAY=BADGE:" + row.imageUrl.value] else []) +
    ["DESCRIPTION:" + EscapeText(DescriptionText(row, o))]
  }

  function Block(row: CalendarRow, o: Options): seq<string> {
    ["BEGIN:VEVENT"] + EventLines(row, o) + ["END:VEVENT"]
  }

  function Blocks(rows: seq<CalendarRow>, o: Options): seq<string> {
    if rows == [] then [] else Blocks(rows[..|rows| - 1], o) + Block(rows[|rows| - 1], o)
  }

  function Header(o: Options): seq<string> {
    ["BEGIN:VCALENDAR", "VERSION:2.0", "PRODID:-//Civic Social//Civic Hub Events//EN", "CALSCALE:GREGORIAN", "METHOD:PUBLISH",
     "X-WR-CALNAME:" + EscapeText(o.name)] +
    if HasText(o.timeZone) then ["X-WR-TIMEZONE:" + o.timeZone.value] else []
  }

  function LogicalLines(rows: seq<CalendarRow>, o: Options): seq<string> {
    Header(o) + Blocks(rows, o) + ["END:VCALENDAR"]
  }

  method ToIcs(rows: seq<CalendarRow>, o: Options) returns (out: string)
    ensures out == File(LogicalLines(rows, o))
  {
    hide EventLines, Folded, Header;
    var lines := Header(o);
    for i := 0 to |rows|
      invariant lines == Header(o) + Blocks(rows[..i], o)
    {
      assert rows[..i + 1][..i] == rows[..i];
      lines := lines + (["BEGIN:VEVENT"] + EventLines(rows[i], o) + ["END:VEVENT"]);
    }
    assert rows[..|rows|] == rows;
    lines := lines + ["END:VCALENDAR"];
    var folded: seq<string> := [];
    for i := 0 to |lines|
      invariant |folded| == i
      invariant forall j :: 0 <= j < i ==> folded[j] == Folded(lines[j])
    {
      var f := Fold(lines[i]);
      folded := folded + [f];
    }
    JoinIsFile(folded, lines);
    out := Join(folded, CRLF) + CRLF;
  }

  lemma {:induction false} JoinIsFile(folded: seq<string>, lines: seq<string>)
    requires |folded| == |lines| > 0
    requires forall j :: 0 <= j < |lines| ==> folded[j] == Folded(lines[j])
    ensures Join(folded, CRLF) + CRLF == File(lines)
  {
    hide Folded;
    if |lines| == 1 {
      assert File(lines[1..]) == "";
    } else {
      JoinIsFile(folded[1..], lines[1..]);
    }
  }

  // ----- Reading the feed back -----

  /** The values the feed writes unescaped have no line feed in them: identifiers, addresses, a zone's name. */
  predicate CleanRow(row: CalendarRow, o: Options) {
    NoLf(row.processId) && NoLf(o.eventUrl(row.processId)) && (HasText(row.imageUrl) ==> NoLf(row.imageUrl.value))
  }

  predicate CleanFeed(rows: seq<CalendarRow>, o: Options) {
    NoLf(o.uidDomain) && (HasText(o.timeZone) ==> NoLf(o.timeZone.value)) &&
    forall i :: 0 <= i < |rows| ==> CleanRow(rows[i], o)
  }

  predicate ContentLines(lines: seq<string>) {
    forall i :: 0 <= i < |lines| ==> ContentLine(lines[i])
  }

  lemma EventLinesAreContent(row: CalendarRow, o: Options)
    requires NoLf(o.uidDomain) && CleanRow(row, o)
    ensures ContentLines(EventLines(row, o))
  {
    hide EscapeText, Stamp, Unescape, ReplaceNewlines, SummaryText, LocationText, DescriptionText;
    EscapeRoundTrip(SummaryText(row));
    EscapeRoundTrip(LocationText(row));
    EscapeRoundTrip(DescriptionText(row, o));
    StampHasNoLf(o.now);
    StampHasNoLf(row.start);
    StampHasNoLf(row.end);
    Labelled("UID:", row.processId + "@" + o.uidDomain);
    Labelled("DTSTAMP:", Stamp(o.now));
    Labelled("DTSTART:", Stamp(row.start));
    Labelled("DTEND:", Stamp(row.end));
    Labelled("SUMMARY:", EscapeText(SummaryText(row)));
    Labelled("LOCATION:", EscapeText(LocationText(row)));
    Labelled("URL:", o.eventUrl(row.processId));
    Labelled("DESCRIPTION:", EscapeText(DescriptionText(row, o)));
    Labelled("STATUS:", "CANCELLED");
    Labelled("STATUS:", "CONFIRMED");
    if HasText(row.imageUrl) {
      Labelled("IMAGE;VALUE=URI;DISPLAY=BADGE:", row.imageUrl.value);
    }
    hide ContentLine, NoLf;
  }

  lemma {:induction false} BlocksAreContent(rows: seq<CalendarRow>, o: Options)
    requires NoLf(o.uidDomain) && forall i :: 0 <= i < |rows| ==> CleanRow(rows[i], o)
    ensures ContentLines(Blocks(rows, o))
  {
    hide EventLines, CleanRow;
    if rows != [] {
      BlocksAreContent(rows[..|rows| - 1], o);
      EventLinesAreContent(rows[|rows| - 1], o);
    }
  }

  lemma HeaderIsContent(o: Options)
    requires HasText(o.timeZone) ==> NoLf(o.timeZone.value)
    ensures ContentLines(Header(o))
  {
    hide EscapeText, Unescape, ReplaceNewlines;
    EscapeRoundTrip(o.name);
    Labelled("X-WR-CALNAME:", EscapeText(o.name));
    ProductLine();
    assert ContentLine("BEGIN:VCALENDAR") && ContentLine("VERSION:2.0");
    assert ContentLine("CALSCALE:GREGORIAN") && ContentLine("METHOD:PUBLISH");
    if HasText(o.timeZone) {
      Labelled("X-WR-TIMEZONE:", o.timeZone.value);
    }
  }

  lemma ProductLine()
    ensures ContentLine("PRODID:-//Civic Social//Civic Hub Events//EN")
  {
    var a, b, c := "PRODID:-//Civic", " Social//Civic ", "Hub Events//EN";
    assert NoLf(b) && NoLf(c);
    Labelled(a, b);
    Labelled(a + b, c);
    hide ContentLine, NoLf;
    assert a + b + c == "PRODID:-//Civic Social//Civic Hub Events//EN";
  }

  lemma Labelled(name: string, value: string)
    requires ContentLine(name) && NoLf(value)
    ensures ContentLine(name + value)
  {
  }

  function UntilEnd(lines: seq<string>): (n: nat)
    ensures n <= |lines|
  {
    if lines == [] || lines[0] == "END:VEVENT" then 0 else 1 + UntilEnd(lines[1..])
  }

  /** The properties of each event of a file's lines, in order. */
  function ReadEvents(lines: seq<string>): seq<seq<string>>
    decreases |lines|
  {
    if lines == [] then []
    else if lines[0] == "BEGIN:VEVENT" then
      var n := UntilEnd(lines[1..]);
      [lines[1..1 + n]] + ReadEvents(lines[1 + n..])
    else ReadEvents(lines[1..])
  }

  /** A line that neither begins nor ends an event. */
  predicate Inner(line: string) {
    line != "BEGIN:VEVENT" && line != "END:VEVENT"
  }

  lemma EventLinesInner(row: CalendarRow, o: Options)
    ensures forall i :: 0 <= i < |EventLines(row, o)| ==> Inner(EventLines(row, o)[i])
  {
    hide EscapeText, Stamp, SummaryText, LocationText, DescriptionText;
    forall i | 0 <= i < |EventLines(row, o)| ensures Inner(EventLines(row, o)[i]) {
      assert EventLines(row, o)[i][0] in ['U', 'D', 'S', 'L', 'I'];
      assert "BEGIN:VEVENT"[0] == 'B' && "END:VEVENT"[0] == 'E';
    }
  }

  lemma {:induction false} UntilEndAt(inner: seq<string>, rest: seq<string>)
    requires forall i :: 0 <= i < |inner| ==> Inner(inner[i])
    ensures UntilEnd(inner + ["END:VEVENT"] + rest) == |inner|
  {
    var all := inner + ["END:VEVENT"] + rest;
    if inner != [] {
      assert all[1..] == inner[1..] + ["END:VEVENT"] + rest;
      UntilEndAt(inner[1..], rest);
    }
  }

  lemma {:induction false} SkipInner(lines: seq<string>, rest: seq<string>)
    requires forall i :: 0 <= i < |lines| ==> lines[i] != "BEGIN:VEVENT"
    ensures ReadEvents(lines + rest) == ReadEvents(rest)
  {
    if lines == [] {
      assert lines + rest == rest;
    } else {
      assert (lines + rest)[1..] == lines[1..] + rest;
      SkipInner(lines[1..], rest);
    }
  }

  lemma ReadBlock(row: CalendarRow, o: Options, rest: seq<string>)
    ensures ReadEvents(Block(row, o) + rest) == [EventLines(row, o)] + ReadEvents(rest)
  {
    hide EventLines;
    var inner := EventLines(row, o);
    var all := Block(row, o) + rest;
    EventLinesInner(row, o);
    UntilEndAt(inner, rest);
    assert all[1..] == inner + ["END:VEVENT"] + rest;
    assert all[1..1 + |inner|] == inner;
    assert all[1 + |inner|..] == ["END:VEVENT"] + rest;
    SkipInner(["END:VEVENT"], rest);
  }

  function AllEventLines(rows: seq<CalendarRow>, o: Options): (r: seq<seq<string>>)
    ensures |r| == |rows| && forall i :: 0 <= i < |rows| ==> r[i] == EventLines(rows[i], o)
  {
    seq(|rows|, i requires 0 <= i < |rows| => EventLines(rows[i], o))
  }

  lemma {:induction false} ReadBlocks(rows: seq<CalendarRow>, o: Options, rest: seq<string>)
    ensures ReadEvents(Blocks(rows, o) + rest) == AllEventLines(rows, o) + ReadEvents(rest)
  {
    hide EventLines, ReadEvents;
    if rows == [] {
      assert Blocks(rows, o) + rest == rest;
    } else {
      var n := |rows| - 1;
      assert Blocks(rows, o) + rest == Blocks(rows[..n], o) + (Block(rows[n], o) + rest);
      ReadBlocks(rows[..n], o, Block(rows[n], o) + rest);
      ReadBlock(rows[n], o, rest);
      assert AllEventLines(rows, o) == AllEventLines(rows[..n], o) + [EventLines(rows[n], o)];
    }
  }

  lemma HeaderHasNoEvent(o: Options)
    ensures forall i :: 0 <= i < |Header(o)| ==> Header(o)[i] != "BEGIN:VEVENT"
  {
    hide EscapeText;
    forall i | 0 <= i < |Header(o)| ensures Header(o)[i] != "BEGIN:VEVENT" {
      assert Header(o)[0][7] == 'C' && "BEGIN:VEVENT"[7] == 'E';
      assert i > 0 ==> Header(o)[i][0] in ['V', 'P', 'C', 'M', 'X'];
    }
  }

  /**
    The whole feed: unfolded and split it is exactly its logical lines, no
    physical line has more than 75 octets, and reading its events gives one for
    each row, in order, with the properties written for it.
   */
  lemma FeedReadsBack(rows: seq<CalendarRow>, o: Options)
    requires CleanFeed(rows, o)
    ensures var text, lines := File(LogicalLines(rows, o)), LogicalLines(rows, o);
            Split(Unfold(text)) == lines + [""] && Within75(Split(text)) &&
            ReadEvents(Split(Unfold(text))) == AllEventLines(rows, o)
  {
    var lines := LogicalLines(rows, o);
    assert ContentLines(lines) by {
      hide CleanRow, Header, Blocks;
      HeaderIsContent(o);
      BlocksAreContent(rows, o);
    }
    hide Header, Blocks, EventLines, CleanFeed;
    FileReadsBack(lines);
    HeaderHasNoEvent(o);
    assert lines + [""] == Header(o) + (Blocks(rows, o) + ["END:VCALENDAR", ""]);
    SkipInner(Header(o), Blocks(rows, o) + ["END:VCALENDAR", ""]);
    ReadBlocks(rows, o, ["END:VCALENDAR", ""]);
    assert ["END:VCALENDAR", ""] + [] == ["END:VCALENDAR", ""];
    SkipInner(["END:VCALENDAR", ""], []);
  }

  /** The value of an event's first property of a name. */
  function Property(lines: seq<string>, name: string): Option<string> {
    if lines == [] then None
    else if |name| < |lines[0]| && lines[0][..|name|] == name && lines[0][|name|] == ':' then Some(lines[0][|name| + 1..])
    else Property(lines[1..], name)
  }

  lemma PropertyIsNext(line: string, rest: seq<string>, name: string, value: string)
    requires line == name + ":" + value
    ensures Property([line] + rest, name) == Some(value)
  {
  }

  lemma PropertyIsLater(line: string, rest: seq<string>, name: string, i: nat)
    requires i < |name| && i < |line| && line[i] != name[i]
    ensures Property([line] + rest, name) == Property(rest, name)
  {
    assert ([line] + rest)[1..] == rest;
    assert |name| < |line| ==> line[..|name|][i] == line[i];
  }

  /**
    Each text of an event reads back as it was, CRLF as LF, and the event is
    marked cancelled exactly when it is.
   */
  lemma EventReadsBack(row: CalendarRow, o: Options)
    ensures var lines := EventLines(row, o);
            Property(lines, "UID") == Some(row.processId + "@" + o.uidDomain) &&
            Property(lines, "SUMMARY") == Some(EscapeText(SummaryText(row))) &&
            Property(lines, "STATUS") == Some(if row.cancelled then "CANCELLED" else "CONFIRMED") &&
            Property(lines, "LOCATION") == Some(EscapeText(LocationText(row))) &&
            Property(lines, "DESCRIPTION") == Some(EscapeText(DescriptionText(row, o)))
    ensures Unescape(EscapeText(SummaryText(row))) == ReplaceNewlines(SummaryText(row), "\n")
    ensures Unescape(EscapeText(LocationText(row))) == ReplaceNewlines(LocationText(row), "\n")
    ensures Unescape(EscapeText(DescriptionText(row, o))) == ReplaceNewlines(DescriptionText(row, o), "\n")
  {
    hide EscapeText, Stamp, SummaryText, LocationText, DescriptionText, Unescape, ReplaceNewlines, Property;
    EscapeRoundTrip(SummaryText(row));
    EscapeRoundTrip(LocationText(row));
    EscapeRoundTrip(DescriptionText(row, o));
    var l := EventLines(row, o);
    var n := |l| - 1;
    EventLineAt(row, o);
    hide EventLines;
    forall k | 0 <= k < |l| ensures l[k..] == [l[k]] + l[k + 1..] {
    }
    assert l[n + 1..] == [] && l[0..] == l;
    PropertyIsNext(l[0], l[1..], "UID", row.processId + "@" + o.uidDomain);
    SkipTo(l, "SUMMARY", 4);
    PropertyIsNext(l[4], l[5..], "SUMMARY", EscapeText(SummaryText(row)));
    SkipTo(l, "STATUS", 4);
    PropertyIsLater(l[4], l[5..], "STATUS", 1);
    PropertyIsNext(l[5], l[6..], "STATUS", if row.cancelled then "CANCELLED" else "CONFIRMED");
    SkipTo(l, "LOCATION", 4);
    PropertyIsLater(l[4], l[5..], "LOCATION", 0);
    PropertyIsLater(l[5], l[6..], "LOCATION", 0);
    PropertyIsNext(l[6], l[7..], "LOCATION", EscapeText(LocationText(row)));
    SkipTo(l, "DESCRIPTION", 4);
    PropertyIsLater(l[4], l[5..], "DESCRIPTION", 0);
    PropertyIsLater(l[5], l[6..], "DESCRIPTION", 0);
    PropertyIsLater(l[6], l[7..], "DESCRIPTION", 0);
    PropertyIsLater(l[7], l[8..], "DESCRIPTION", 0);
    if n == 9 {
      PropertyIsLater(l[8], l[9..], "DESCRIPTION", 0);
    }
    PropertyIsNext(l[n], [], "DESCRIPTION", EscapeText(DescriptionText(row, o)));
  }

  /** A text property that, un-escaped, is a text with its line ends as LF. */
  predicate ReadsAs(lines: seq<string>, name: string, text: string) {
    Property(lines, name).Some? && Unescape(Property(lines, name).value) == ReplaceNewlines(text, "\n")
  }

  function AfterComma(part: Option<string>): string {
    if part.Some? && part.value != "" then ", " + part.value else ""
  }

  /** Where people are sent: a link's address, or a place's name and what its address gives, in the order of an envelope. */
  function WhereText(l: Location): string {
    match l
    case Link(_, href) => href
    case Place(name, address) =>
      if address.None? then name
      else
        var a := address.value;
        name + AfterComma(a.street) + AfterComma(a.locality) + AfterComma(a.region) + AfterComma(a.postalCode) + AfterComma(a.country)
  }

  /** One paragraph, a line left blank, and another; an empty one is left out with its space. */
  function Then(a: string, b: string): string {
    a + (if a != "" && b != "" then "\n\n" else "") + b
  }

  lemma JoinAfterComma(name: string, part: Option<string>, rest: seq<string>)
    ensures Join([name] + (One(part) + rest), ", ") ==
            if HasText(part) then name + ", " + Join([part.value] + rest, ", ") else Join([name] + rest, ", ")
  {
    if HasText(part) {
      assert ([name] + ([part.value] + rest))[1..] == [part.value] + rest;
    } else {
      assert [] + rest == rest;
    }
  }

  lemma JoinFrom(head: string, part: Option<string>, rest: seq<string>)
    ensures Join([head] + (One(part) + rest), ", ") == Join([head + AfterComma(part)] + rest, ", ")
  {
    JoinAfterComma(head, part, rest);
    if HasText(part) {
      JoinMerges(head, part.value, rest);
    }
  }

  lemma JoinMerges(x: string, y: string, rest: seq<string>)
    ensures x + ", " + Join([y] + rest, ", ") == Join([x + (", " + y)] + rest, ", ")
  {
    assert ([y] + rest)[1..] == rest && ([x + (", " + y)] + rest)[1..] == rest;
    assert x + ", " + y == x + (", " + y);
    if rest != [] {
      assert x + ", " + (y + ", " + Join(rest, ", ")) == (x + (", " + y)) + ", " + Join(rest, ", ");
    }
  }

  lemma PlaceLine(name: string, a: Address)
    ensures Join([name] + AddressParts(a), ", ") ==
            name + AfterComma(a.street) + AfterComma(a.locality) + AfterComma(a.region) + AfterComma(a.postalCode) + AfterComma(a.country)
  {
    hide Join, AfterComma, HasText, One, AddressParts;
    var s, l, r, p, c := One(a.street), One(a.locality), One(a.region), One(a.postalCode), One(a.country);
    AddressPartsAre(a);
    JoinFrom(name, a.street, l + (r + (p + (c + []))));
    JoinFrom(name + AfterComma(a.street), a.locality, r + (p + (c + [])));
    JoinFrom(name + AfterComma(a.street) + AfterComma(a.locality), a.region, p + (c + []));
    JoinFrom(name + AfterComma(a.street) + AfterComma(a.locality) + AfterComma(a.region), a.postalCode, c + []);
    JoinFrom(name + AfterComma(a.street) + AfterComma(a.locality) + AfterComma(a.region) + AfterComma(a.postalCode), a.country, []);
    JoinOne(name + AfterComma(a.street) + AfterComma(a.locality) + AfterComma(a.region) + AfterComma(a.postalCode) + AfterComma(a.country));
  }

  function One(part: Option<string>): seq<string> {
    if HasText(part) then [part.value] else []
  }

  lemma AddressPartsAre(a: Address)
    ensures AddressParts(a) == One(a.street) + (One(a.locality) + (One(a.region) + (One(a.postalCode) + (One(a.country) + []))))
  {
  }

  lemma JoinOne(s: string)
    ensures Join([s] + [], ", ") == s
  {
    assert [s] + [] == [s];
  }

  lemma LocationTextIs(row: CalendarRow)
    ensures LocationText(row) == WhereText(row.location)
  {
    hide Join, AddressParts, AfterComma;
    if row.location.Place? {
      if row.location.address.Some? {
        PlaceLine(row.location.name, row.location.address.value);
      } else {
        JoinOne(row.location.name);
      }
    }
  }

  lemma DescriptionTextIs(row: CalendarRow, o: Options)
    ensures DescriptionText(row, o) ==
            Then(o.whenText(row.start, row.end, if row.timeZone.Some? then row.timeZone.value else o.defaultTimeZone),
                 Then(Trim(row.description), o.eventUrl(row.processId)))
  {
    hide Trim;
    ThreeJoined(o.whenText(row.start, row.end, if row.timeZone.Some? then row.timeZone.value else o.defaultTimeZone),
                Trim(row.description), o.eventUrl(row.processId));
  }

  lemma ThreeJoined(a: string, b: string, c: string)
    ensures Join(NonEmpty([a, b, c]), "\n\n") == Then(a, Then(b, c))
  {
    assert [a, b, c][1..] == [b, c] && [b, c][1..] == [c] && [c][1..] == [];
    assert NonEmpty([c]) == (if c != "" then [c] else []) + [];
    assert NonEmpty([b, c]) == (if b != "" then [b] else []) + NonEmpty([c]);
    assert NonEmpty([a, b, c]) == (if a != "" then [a] else []) + NonEmpty([b, c]);
    hide NonEmpty, Join, Then;
    NothingJoined();
    OneThen(c, [], "");
    OneThen(b, NonEmpty([c]), c);
    OneThen(a, NonEmpty([b, c]), Then(b, c));
  }

  lemma NothingJoined()
    ensures Join([], "\n\n") == ""
  {
  }

  lemma OneThen(a: string, rest: seq<string>, text: string)
    requires Join(rest, "\n\n") == text && (rest == [] <==> text == "")
    ensures var parts := (if a != "" then [a] else []) + rest;
            Join(parts, "\n\n") == Then(a, text) && (parts == [] <==> Then(a, text) == "") && Then(a, "") == a
  {
    if a != "" {
      assert ([a] + rest)[1..] == rest;
    } else {
      assert [] + rest == rest;
    }
  }

  /**
    Un-escaped, an event's summary is its title, said to be cancelled if it is; its location is where people are
    sent; its description is when it is, in its own zone or the hub's, then its words, then its page.
   */
  lemma WordsReadBack(row: CalendarRow, o: Options)
    ensures var lines := EventLines(row, o);
            && ReadsAs(lines, "SUMMARY", if row.cancelled then "Cancelled: " + row.title else row.title)
            && ReadsAs(lines, "LOCATION", WhereText(row.location))
            && ReadsAs(lines, "DESCRIPTION",
                       Then(o.whenText(row.start, row.end, if row.timeZone.Some? then row.timeZone.value else o.defaultTimeZone),
                            Then(Trim(row.description), o.eventUrl(row.processId))))
  {
    SummaryTextIs(row);
    hide SummaryText, LocationText, DescriptionText, EventLines, Property, EscapeText, Unescape, ReplaceNewlines, WhereText, Then, Trim;
    EventReadsBack(row, o);
    LocationTextIs(row);
    DescriptionTextIs(row, o);
  }

  lemma SummaryTextIs(row: CalendarRow)
    ensures SummaryText(row) == if row.cancelled then "Cancelled: " + row.title else row.title
  {
  }

  /** Line ends as they read back: CRLF is LF, and a text without one is as it was. */
  lemma {:induction false} LineEndsRead(s: string, t: string)
    requires forall i :: 0 <= i < |s| ==> s[i] != '\r'
    ensures ReplaceNewlines(s, "\n") == s
    ensures ReplaceNewlines(s + "\r\n" + t, "\n") == s + "\n" + ReplaceNewlines(t, "\n")
  {
    var text := s + "\r\n" + t;
    if s == "" {
      assert text[2..] == t && text[0] == '\r' && text[1] == '\n';
    } else {
      LineEndsRead(s[1..], t);
      assert s == [s[0]] + s[1..] && text[1..] == s[1..] + "\r\n" + t && text[0] == s[0];
    }
  }

  /** The calendar's own properties: its name un-escaped, its zone where one is given, and what it is. */
  lemma HeaderReadsBack(o: Options)
    ensures var h := Header(o);
            && |h| == (if HasText(o.timeZone) then 7 else 6) && h[0] == "BEGIN:VCALENDAR"
            && Property(h, "VERSION") == Some("2.0") && Property(h, "METHOD") == Some("PUBLISH")
            && Property(h, "CALSCALE") == Some("GREGORIAN") && ReadsAs(h, "X-WR-CALNAME", o.name)
            && Property(h, "X-WR-TIMEZONE") == if HasText(o.timeZone) then o.timeZone else None
  {
    hide EscapeText, Unescape, ReplaceNewlines, Property;
    EscapeRoundTrip(o.name);
    var h := Header(o);
    HeaderLines(o);
    SkipLetters(h, "VERSION", 1);
    PropertyHere(h, 1, "VERSION", "2.0");
    SkipLetters(h, "CALSCALE", 3);
    PropertyHere(h, 3, "CALSCALE", "GREGORIAN");
    SkipLetters(h, "METHOD", 4);
    PropertyHere(h, 4, "METHOD", "PUBLISH");
    SkipLetters(h, "X-WR-CALNAME", 5);
    PropertyHere(h, 5, "X-WR-CALNAME", EscapeText(o.name));
    SkipLetters(h, "X-WR-TIMEZONE", 5);
    assert h[5..] == [h[5]] + h[6..];
    PropertyIsLater(h[5], h[6..], "X-WR-TIMEZONE", 5);
    if HasText(o.timeZone) {
      PropertyHere(h, 6, "X-WR-TIMEZONE", o.timeZone.value);
    } else {
      assert h[6..] == [];
      NoProperties("X-WR-TIMEZONE");
    }
  }

  lemma NoProperties(name: string)
    ensures Property([], name) == None
  {
  }

  lemma PropertyHere(l: seq<string>, k: nat, name: string, value: string)
    requires k < |l| && l[k] == name + ":" + value
    ensures Property(l[k..], name) == Some(value)
  {
    assert l[k..] == [l[k]] + l[k + 1..];
    PropertyIsNext(l[k], l[k + 1..], name, value);
  }

  /** The header line by line, its first letters and the one that tells its last two names apart. */
  lemma HeaderLines(o: Options)
    ensures var h := Header(o);
            && |h| == (if HasText(o.timeZone) then 7 else 6) && h[0] == "BEGIN:VCALENDAR"
            && h[1] == "VERSION" + ":" + "2.0" && h[3] == "CALSCALE" + ":" + "GREGORIAN" && h[4] == "METHOD" + ":" + "PUBLISH"
            && h[5] == "X-WR-CALNAME" + ":" + EscapeText(o.name) && At(h[5], 5, 'C')
            && (HasText(o.timeZone) ==> h[6] == "X-WR-TIMEZONE" + ":" + o.timeZone.value)
            && At(h[0], 0, 'B') && At(h[1], 0, 'V') && At(h[2], 0, 'P') && At(h[3], 0, 'C') && At(h[4], 0, 'M')
  {
    hide EscapeText;
    assert "PRODID:-//Civic Social//Civic Hub Events//EN"[0] == 'P';
  }

  predicate Starts(line: string, c: char) {
    line != "" && line[0] == c
  }

  lemma EventLineAt(row: CalendarRow, o: Options)
    ensures var l := EventLines(row, o);
            (|l| == 9 || (|l| == 10 && Starts(l[8], 'I'))) &&
            l[0] == "UID" + ":" + (row.processId + "@" + o.uidDomain) &&
            (forall i :: 1 <= i < 4 ==> |l[i]| >= 2 && l[i][0] == 'D' && l[i][1] == 'T') &&
            l[4] == "SUMMARY" + ":" + EscapeText(SummaryText(row)) &&
            l[5] == "STATUS" + ":" + (if row.cancelled then "CANCELLED" else "CONFIRMED") &&
            l[6] == "LOCATION" + ":" + EscapeText(LocationText(row)) &&
            Starts(l[7], 'U') &&
            l[|l| - 1] == "DESCRIPTION" + ":" + EscapeText(DescriptionText(row, o))
  {
    hide EscapeText, Stamp, SummaryText, LocationText, DescriptionText;
  }

  /** A name that is not the identifier's nor a time's stands after the first four lines. */
  lemma SkipTo(l: seq<string>, name: string, k: nat)
    requires k == 4 && |l| >= 4 && |name| >= 2
    requires |l[0]| >= 2 && l[0][0] == 'U' && l[0][1] == 'I'
    requires forall i :: 1 <= i < 4 ==> |l[i]| >= 2 && l[i][0] == 'D' && l[i][1] == 'T'
    requires name[0] != 'U' && (name[0] != 'D' || name[1] != 'T')
    ensures Property(l, name) == Property(l[4..], name)
  {
    hide Property;
    assert l == [l[0]] + l[1..] && l[1..] == [l[1]] + l[2..] && l[2..] == [l[2]] + l[3..] && l[3..] == [l[3]] + l[4..];
    var j := if name[0] != 'D' then 0 else 1;
    PropertyIsLater(l[0], l[1..], name, 0);
    PropertyIsLater(l[1], l[2..], name, j);
    PropertyIsLater(l[2], l[3..], name, j);
    PropertyIsLater(l[3], l[4..], name, j);
  }

  const IMAGE_NAME := "IMAGE;VALUE=URI;DISPLAY=BADGE"

  /** The letter at a place of a line. */
  predicate At(line: string, i: nat, c: char) {
    i < |line| && line[i] == c
  }

  lemma OtherLineAt(row: CalendarRow, o: Options)
    ensures var l := EventLines(row, o);
            && |l| == (if HasText(row.imageUrl) then 10 else 9)
            && At(l[0], 0, 'U') && At(l[0], 1, 'I')
            && l[1] == "DTSTAMP" + ":" + Stamp(o.now)
            && At(l[1], 0, 'D') && At(l[1], 2, 'S') && At(l[1], 5, 'M')
            && l[2] == "DTSTART" + ":" + Stamp(row.start) && l[3] == "DTEND" + ":" + Stamp(row.end)
            && At(l[4], 0, 'S') && At(l[5], 0, 'S') && At(l[6], 0, 'L')
            && l[7] == "URL" + ":" + o.eventUrl(row.processId)
            && At(l[|l| - 1], 0, 'D')
            && (HasText(row.imageUrl) ==> l[8] == IMAGE_NAME + ":" + row.imageUrl.value)
  {
    hide EscapeText, Stamp, SummaryText, LocationText, DescriptionText;
  }

  /** A property whose first letter no line before position `k` has stands from there on. */
  lemma {:induction false} SkipLetters(l: seq<string>, name: string, k: nat)
    requires k <= |l| && name != ""
    requires forall i :: 0 <= i < k ==> l[i] != "" && l[i][0] != name[0]
    ensures Property(l, name) == Property(l[k..], name)
  {
    hide Property;
    if k > 0 {
      assert l == [l[0]] + l[1..] && l[1..][k - 1..] == l[k..];
      PropertyIsLater(l[0], l[1..], name, 0);
      SkipLetters(l[1..], name, k - 1);
    }
  }

  /** Its times read back as the stamps they were written as, its page as its address, its picture's where it has one. */
  lemma TimesAndAddressesReadBack(row: CalendarRow, o: Options)
    ensures var lines := EventLines(row, o);
            && Property(lines, "DTSTAMP") == Some(Stamp(o.now))
            && Property(lines, "DTSTART") == Some(Stamp(row.start))
            && Property(lines, "DTEND") == Some(Stamp(row.end))
            && Property(lines, "URL") == Some(o.eventUrl(row.processId))
            && Property(lines, IMAGE_NAME) == if HasText(row.imageUrl) then row.imageUrl else None
    ensures forall ms :: ms in {row.start, row.end} && IsoDate.FourDigitYear(ms / DAY_MS) ==>
              IsStamp(Stamp(ms)) && ReadStamp(Stamp(ms)) == ms - ms % 1000
  {
    hide EscapeText, Stamp, SummaryText, LocationText, DescriptionText, Property, EventLines, IsStamp, ReadStamp, IsoDate.FourDigitYear;
    var l := EventLines(row, o);
    OtherLineAt(row, o);
    StartAndEnd(l, row);
    assert l == [l[0]] + l[1..] && l[1..] == [l[1]] + l[2..];
    PropertyIsLater(l[0], l[1..], "DTSTAMP", 0);
    PropertyIsNext(l[1], l[2..], "DTSTAMP", Stamp(o.now));
    PageAddress(l, o.eventUrl(row.processId));
    PictureAddress(l, row.imageUrl);
    forall ms | ms in {row.start, row.end} && IsoDate.FourDigitYear(ms / DAY_MS)
      ensures IsStamp(Stamp(ms)) && ReadStamp(Stamp(ms)) == ms - ms % 1000
    {
      StampReadsBack(ms);
    }
  }

  lemma StartAndEnd(l: seq<string>, row: CalendarRow)
    requires |l| >= 4 && At(l[0], 0, 'U') && At(l[1], 2, 'S') && At(l[1], 5, 'M')
    requires l[2] == "DTSTART" + ":" + Stamp(row.start) && l[3] == "DTEND" + ":" + Stamp(row.end)
    ensures Property(l, "DTSTART") == Some(Stamp(row.start)) && Property(l, "DTEND") == Some(Stamp(row.end))
  {
    hide Property, Stamp;
    assert l == [l[0]] + l[1..] && l[1..] == [l[1]] + l[2..] && l[2..] == [l[2]] + l[3..] && l[3..] == [l[3]] + l[4..];
    PropertyIsLater(l[0], l[1..], "DTSTART", 0);
    PropertyIsLater(l[1], l[2..], "DTSTART", 5);
    PropertyIsNext(l[2], l[3..], "DTSTART", Stamp(row.start));
    PropertyIsLater(l[0], l[1..], "DTEND", 0);
    PropertyIsLater(l[1], l[2..], "DTEND", 2);
    PropertyIsLater(l[2], l[3..], "DTEND", 2);
    PropertyIsNext(l[3], l[4..], "DTEND", Stamp(row.end));
  }

  lemma PageAddress(l: seq<string>, url: string)
    requires |l| >= 8 && At(l[0], 1, 'I') && l[7] == "URL" + ":" + url
    requires forall i :: 1 <= i < 7 ==> l[i] != "" && l[i][0] != 'U'
    ensures Property(l, "URL") == Some(url)
  {
    hide Property;
    assert l == [l[0]] + l[1..];
    PropertyIsLater(l[0], l[1..], "URL", 1);
    SkipLetters(l[1..], "URL", 6);
    assert l[1..][6..] == [l[7]] + l[8..];
    PropertyIsNext(l[7], l[8..], "URL", url);
  }

  lemma PictureAddress(l: seq<string>, image: Option<string>)
    requires |l| == (if HasText(image) then 10 else 9)
    requires forall i :: 0 <= i < 8 ==> l[i] != "" && l[i][0] != 'I'
    requires At(l[|l| - 1], 0, 'D')
    requires HasText(image) ==> l[8] == IMAGE_NAME + ":" + image.value
    ensures Property(l, IMAGE_NAME) == if HasText(image) then image else None
  {
    if HasText(image) {
      SkipLetters(l, IMAGE_NAME, 8);
      assert l[8..] == [l[8]] + l[9..];
      PropertyIsNext(l[8], l[9..], IMAGE_NAME, image.value);
    } else {
      SkipLetters(l, IMAGE_NAME, 9);
      assert l[9..] == [];
    }
  }
}
