/**
  Content lines of iCalendar (RFC 5545, section 3.1) as packages/civic.event/ics.ts
  folds them: at most 75 octets a line, never inside a character.
 */
module IcsFold {
  import opened Utf8

  const FIRST_LIMIT: nat := 75

  /** A continuation's leading space counts. */
  const NEXT_LIMIT: nat := 74

  const CRLF: string := "\r\n"

  /** How many characters of `s` fit in `limit` octets. */
  function Fit(s: string, limit: nat): (k: nat)
    ensures k <= |s|
  {
    if s == "" || |Encode1(s[0])| > limit then 0 else 1 + Fit(s[1..], limit - |Encode1(s[0])|)
  }

  lemma {:induction false} FitIsGreatest(s: string, limit: nat)
    ensures var k := Fit(s, limit);
            Offset(s, k) <= limit && (k < |s| ==> limit < Offset(s, k + 1))
  {
    hide Encode1;
    if s != "" && |Encode1(s[0])| <= limit {
      var rest := limit - |Encode1(s[0])|;
      var k := Fit(s[1..], rest);
      FitIsGreatest(s[1..], rest);
      assert s[..k + 1][1..] == s[1..][..k];
      if k < |s[1..]| {
        assert s[..k + 2][1..] == s[1..][..k + 1];
      }
    } else if s != "" {
      assert s[..1][1..] == "";
    }
  }

  /** The pieces of a folded line: each the most characters that fit. */
  function FoldParts(s: string, limit: nat): seq<string>
    requires limit >= 4
    decreases |s|
  {
    if s == "" then []
    else
      var k := Fit(s, limit);
      assert k > 0;
      [s[..k]] + FoldParts(s[k..], NEXT_LIMIT)
  }

  function Join(parts: seq<string>, sep: string): string {
    if parts == [] then ""
    else if |parts| == 1 then parts[0]
    else parts[0] + sep + Join(parts[1..], sep)
  }

  /** The folded line: what `Fold` computes on octets, said of characters. */
  function Folded(line: string): string {
    Join(FoldParts(line, FIRST_LIMIT), "\r\n ")
  }

  lemma {:induction false} AllFits(s: string, limit: nat)
    requires |Encode(s)| <= limit
    ensures Fit(s, limit) == |s|
  {
    hide Encode1;
    if s != "" {
      AllFits(s[1..], limit - |Encode1(s[0])|);
    }
  }

  /** One more piece cut off the front of what is left. */
  lemma NextPiece(line: string, a: nat, limit: nat)
    requires a < |line| && limit >= 4
    ensures var k := a + Fit(line[a..], limit);
            a < k <= |line| && FoldParts(line[a..], limit) == [line[a..k]] + FoldParts(line[k..], NEXT_LIMIT)
  {
    hide Encode1;
    var n := Fit(line[a..], limit);
    assert n > 0 by {
      FitsOne(line[a..], limit);
    }
    assert line[a..][..n] == line[a..a + n] && line[a..][n..] == line[a + n..];
  }

  lemma ShortLine(line: string)
    requires |Encode(line)| <= FIRST_LIMIT
    ensures Folded(line) == line
  {
    hide Fit;
    AllFits(line, FIRST_LIMIT);
    if line != "" {
      NextPiece(line, 0, FIRST_LIMIT);
      assert line[0..] == line && line[0..|line|] == line && line[|line|..] == "";
    }
  }

  lemma FitsOne(s: string, limit: nat)
    requires s != "" && limit >= 4
    ensures Fit(s, limit) > 0
  {
  }

  /** Back up from `end` to where a character starts: the cut the greedy piece makes. */
  method BackUp(line: string, bytes: seq<byte>, ghost a: nat, start: nat, limit: nat) returns (end: nat)
    requires bytes == Encode(line) && a < |line| && start == Offset(line, a) && limit >= 4
    ensures end == Offset(line, a + Fit(line[a..], limit))
  {
    hide Encode1;
    end := if start + limit < |bytes| then start + limit else |bytes|;
    ghost var k := a + Fit(line[a..], limit);
    FitIsGreatest(line[a..], limit);
    assert line[a..][..k - a] == line[a..k];
    OffsetSlice(line, a, k);
    if k < |line| {
      assert line[a..][..k - a + 1] == line[a..k + 1];
      OffsetSlice(line, a, k + 1);
    } else {
      assert line[..k] == line;
    }
    while end < |bytes| && Continues(bytes[end])
      invariant Offset(line, k) <= end <= |bytes|
      invariant k < |line| ==> end < Offset(line, k + 1)
      decreases end
    {
      WithinCharacter(line, k, end);
      end := end - 1;
    }
    if k < |line| {
      WithinCharacter(line, k, end);
    }
  }

  method Fold(line: string) returns (out: string)
    ensures out == Folded(line)
  {
    hide FoldParts, Fit, Decode, Offset;
    var bytes := Encode(line);
    if |bytes| <= 75 {
      ShortLine(line);
      return line;
    }
    var parts: seq<string> := [];
    var start := 0;
    var limit := FIRST_LIMIT;
    ghost var a := 0;
    Ends(line);
    while start < |bytes|
      invariant a <= |line| && start == Offset(line, a) <= |bytes|
      invariant limit == FIRST_LIMIT || limit == NEXT_LIMIT
      invariant parts + FoldParts(line[a..], limit) == FoldParts(line, FIRST_LIMIT)
      decreases |line| - a
    {
      var end := BackUp(line, bytes, a, start, limit);
      ghost var k := a + Fit(line[a..], limit);
      NextPiece(line, a, limit);
      OffsetSlice(line, a, k);
      DecodeRoundTrip(line[a..k]);
      parts := parts + [Decode(bytes[start..end])];
      start := end;
      limit := NEXT_LIMIT;
      a := k;
    }
    EndReached(line, a);
    assert parts == parts + FoldParts(line[a..], limit);
    out := Join(parts, "\r\n ");
  }

  lemma Ends(line: string)
    ensures Offset(line, 0) == 0 && Offset(line, |line|) == |Encode(line)|
    ensures line[0..] == line && line[|line|..] == ""
    ensures FoldParts("", FIRST_LIMIT) == [] && FoldParts("", NEXT_LIMIT) == []
  {
    assert line[..|line|] == line;
  }

  lemma EndReached(line: string, a: nat)
    requires a <= |line| && Offset(line, a) == |Encode(line)|
    ensures a == |line|
  {
    if a < |line| {
      OffsetStep(line, a);
      hide Encode1;
    }
  }

  // ----- Reading lines back -----

  /** Unfolding: a CRLF and the space after it are removed. */
  function Unfold(t: string): string {
    if t == "" then ""
    else if |t| >= 3 && t[0] == '\r' && t[1] == '\n' && t[2] == ' ' then Unfold(t[3..])
    else [t[0]] + Unfold(t[1..])
  }

  /** The lines of a text, ended by CRLF. */
  function Split(t: string): (lines: seq<string>)
    ensures lines != []
  {
    if t == "" then [""]
    else if |t| >= 2 && t[0] == '\r' && t[1] == '\n' then [""] + Split(t[2..])
    else var rest := Split(t[1..]); [[t[0]] + rest[0]] + rest[1..]
  }

  predicate NoLf(s: string) {
    '\n' !in s
  }

  lemma {:induction false} UnfoldFold(p: string, t: string)
    requires NoLf(p)
    ensures Unfold(p + "\r\n " + t) == p + Unfold(t)
  {
    var all := p + "\r\n " + t;
    if p == "" {
      assert all[3..] == t;
    } else {
      UnfoldFold(p[1..], t);
      assert all[1..] == p[1..] + "\r\n " + t;
      assert all[1] != '\n';
      assert [p[0]] + p[1..] == p;
    }
  }

  lemma {:induction false} UnfoldLine(p: string, t: string)
    requires NoLf(p) && Separate(t)
    ensures Unfold(p + "\r\n" + t) == p + "\r\n" + Unfold(t)
  {
    var all := p + "\r\n" + t;
    if p == "" {
      assert all[1..] == "\n" + t && all[1..][1..] == t;
    } else {
      UnfoldLine(p[1..], t);
      assert all[1..] == p[1..] + "\r\n" + t;
      assert all[1] != '\n';
      assert [p[0]] + p[1..] == p;
    }
  }

  lemma {:induction false} SplitText(p: string, t: string)
    requires NoLf(p)
    ensures Split(p + "\r\n" + t) == [p] + Split(t)
    ensures Split(p) == [p]
  {
    if p == "" {
      assert p + "\r\n" + t == "\r\n" + t && ("\r\n" + t)[2..] == t;
    } else {
      SplitText(p[1..], t);
      assert (p + "\r\n" + t)[1..] == p[1..] + "\r\n" + t;
      assert (p + "\r\n" + t)[1] != '\n';
      assert [p[0]] + p[1..] == p;
    }
  }

  // ----- A folded line -----

  function Concat(parts: seq<string>): string {
    if parts == [] then "" else parts[0] + Concat(parts[1..])
  }

  ghost predicate GoodParts(parts: seq<string>) {
    forall i :: 0 <= i < |parts| ==> parts[i] != "" && NoLf(parts[i])
  }

  lemma {:induction false} FoldPartsSpell(s: string, limit: nat)
    requires limit >= 4 && NoLf(s)
    ensures Concat(FoldParts(s, limit)) == s
    ensures GoodParts(FoldParts(s, limit))
    ensures FoldParts(s, limit) == [] <==> s == ""
    decreases |s|
  {
    if s != "" {
      var k := Fit(s, limit);
      assert k > 0;
      FoldPartsSpell(s[k..], NEXT_LIMIT);
      assert s[..k] + s[k..] == s;
    }
  }

  lemma {:induction false} FoldPartsFit(s: string, limit: nat)
    requires limit >= 4
    ensures var parts := FoldParts(s, limit);
            (parts != [] ==> |Encode(parts[0])| <= limit) &&
            forall i :: 1 <= i < |parts| ==> |Encode(parts[i])| <= NEXT_LIMIT
    decreases |s|
  {
    if s != "" {
      FitIsGreatest(s, limit);
      FoldPartsFit(s[Fit(s, limit)..], NEXT_LIMIT);
    }
  }

  /** A space and a text of at most 74 octets are at most 75. */
  lemma Spaced(s: string)
    ensures |Encode(" " + s)| == 1 + |Encode(s)|
  {
    assert (" " + s)[1..] == s;
  }

  predicate Within75(lines: seq<string>) {
    forall i :: 0 <= i < |lines| ==> |Encode(lines[i])| <= 75
  }

  /** What follows a folded line in a file: nothing that could be taken for its continuation. */
  predicate Separate(rest: string) {
    rest == "" || rest[0] != ' '
  }

  lemma {:induction false} JoinUnfolds(parts: seq<string>, rest: string)
    requires parts != [] && GoodParts(parts) && Separate(rest)
    ensures Unfold(Join(parts, "\r\n ") + CRLF + rest) == Concat(parts) + CRLF + Unfold(rest)
  {
    hide Unfold;
    var p := parts[0];
    if |parts| == 1 {
      UnfoldLine(p, rest);
      assert Concat(parts[1..]) == "";
    } else {
      var tail := Join(parts[1..], "\r\n ") + CRLF + rest;
      assert Join(parts, "\r\n ") + CRLF + rest == p + "\r\n " + tail;
      UnfoldFold(p, tail);
      JoinUnfolds(parts[1..], rest);
    }
  }

  lemma {:induction false} JoinSplits(parts: seq<string>, lead: string, rest: string)
    requires parts != [] && GoodParts(parts) && NoLf(lead)
    requires |Encode(lead + parts[0])| <= 75
    requires forall i :: 1 <= i < |parts| ==> |Encode(parts[i])| <= NEXT_LIMIT
    requires Within75(Split(rest))
    ensures Within75(Split(lead + Join(parts, "\r\n ") + CRLF + rest))
  {
    hide Split, Encode;
    var p := lead + parts[0];
    if |parts| == 1 {
      assert lead + Join(parts, "\r\n ") + CRLF + rest == p + "\r\n" + rest;
      SplitText(p, rest);
    } else {
      var tail := " " + Join(parts[1..], "\r\n ") + CRLF + rest;
      assert lead + Join(parts, "\r\n ") + CRLF + rest == p + "\r\n" + tail;
      Spaced(parts[1]);
      JoinSplits(parts[1..], " ", rest);
      SplitText(p, tail);
    }
  }

  lemma FoldedStarts(line: string)
    requires line != "" && NoLf(line)
    ensures Folded(line) != "" && Folded(line)[0] == line[0]
  {
    hide FoldParts;
    FoldPartsSpell(line, FIRST_LIMIT);
  }

  lemma FoldedWithin(line: string, rest: string)
    requires line != "" && NoLf(line)
    requires Within75(Split(rest))
    ensures Within75(Split(Folded(line) + CRLF + rest))
  {
    hide Split, Encode, FoldParts, Within75, Join, NoLf;
    var parts := FoldParts(line, FIRST_LIMIT);
    FoldPartsSpell(line, FIRST_LIMIT);
    FoldPartsFit(line, FIRST_LIMIT);
    assert "" + parts[0] == parts[0];
    EmptyText();
    JoinSplits(parts, "", rest);
    assert "" + Join(parts, "\r\n ") == Join(parts, "\r\n ");
  }

  lemma EmptyText()
    ensures NoLf("")
  {
  }

  /**
    Folding loses nothing and splits no character: unfolding gives the line back,
    and every physical line has at most 75 octets.
   */
  lemma FoldedLine(line: string, rest: string)
    requires line != "" && NoLf(line) && Separate(rest)
    ensures Unfold(Folded(line) + CRLF + rest) == line + CRLF + Unfold(rest)
    ensures Within75(Split(rest)) ==> Within75(Split(Folded(line) + CRLF + rest))
  {
    hide Split, Unfold, FoldParts, Within75, Join, Concat, NoLf;
    FoldPartsSpell(line, FIRST_LIMIT);
    JoinUnfolds(FoldParts(line, FIRST_LIMIT), rest);
    if Within75(Split(rest)) {
      FoldedWithin(line, rest);
    }
  }

  // ----- A file of lines -----

  /** The logical lines folded, each ended by CRLF. */
  function File(lines: seq<string>): string {
    if lines == [] then "" else Folded(lines[0]) + CRLF + File(lines[1..])
  }

  function Plain(lines: seq<string>): string {
    if lines == [] then "" else lines[0] + CRLF + Plain(lines[1..])
  }

  /** A logical line as the feed writes them: some text, none of it a line feed, not starting with a space. */
  predicate ContentLine(line: string) {
    line != "" && NoLf(line) && line[0] != ' '
  }

  lemma {:induction false} FileUnfolds(lines: seq<string>)
    requires forall i :: 0 <= i < |lines| ==> ContentLine(lines[i])
    ensures Unfold(File(lines)) == Plain(lines)
    ensures Within75(Split(File(lines)))
    ensures Separate(File(lines))
  {
    if lines != [] {
      FileUnfolds(lines[1..]);
      FoldedLine(lines[0], File(lines[1..]));
      FoldedStarts(lines[0]);
    }
  }

  lemma {:induction false} PlainSplits(lines: seq<string>)
    requires forall i :: 0 <= i < |lines| ==> NoLf(lines[i])
    ensures Split(Plain(lines)) == lines + [""]
  {
    if lines != [] {
      PlainSplits(lines[1..]);
      SplitText(lines[0], Plain(lines[1..]));
    }
  }

  /** Unfolding and splitting a whole file gives back exactly its logical lines, none longer than 75 octets in it. */
  lemma FileReadsBack(lines: seq<string>)
    requires forall i :: 0 <= i < |lines| ==> ContentLine(lines[i])
    ensures Split(Unfold(File(lines))) == lines + [""]
    ensures Within75(Split(File(lines)))
  {
    FileUnfolds(lines);
    PlainSplits(lines);
  }
}
