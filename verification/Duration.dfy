/**
  How long an event runs, printed and read as someone types it
  (packages/civic.event/event.ts:158-226).
 */
module Duration {
  import opened Wrappers
  import opened Text

  // ----- Printing -----

  /** The parts of "1 day 2 h 30 min", none for a unit that is zero. */
  function Parts(minutes: nat): seq<string> {
    var d, h, m := minutes / 1440, minutes % 1440 / 60, minutes % 60;
    (if d > 0 then [Decimal(d) + " " + if d == 1 then "day" else "days"] else []) +
    (if h > 0 then [Decimal(h) + " " + "h"] else []) +
    (if m > 0 then [Decimal(m) + " " + "min"] else [])
  }

  function JoinWords(parts: seq<string>): string {
    if parts == [] then "" else if |parts| == 1 then parts[0] else parts[0] + " " + JoinWords(parts[1..])
  }

  function FormatDuration(minutes: nat): string {
    var s := JoinWords(Parts(minutes));
    if s == "" then "0 min" else s
  }

  // ----- One step of the reader: the regular expression for a number and its unit -----

  /** The units, in the order the expression tries them; the last is none. */
  const UNITS: seq<string> := ["days"] + (["day"] + (["d"] + HOURS))

  const HOURS: seq<string> := ["hours"] + (["hour"] + (["hrs"] + (["hr"] + (["h"] + MINUTES))))

  const MINUTES: seq<string> := ["minutes"] + (["minute"] + (["mins"] + (["min"] + (["m"] + [""]))))

  predicate IsLower(c: char) {
    'a' <= c <= 'z'
  }

  predicate StartsAt(s: string, i: nat, word: string) {
    i + |word| <= |s| && s[i..i + |word|] == word
  }

  /** The first of `units` at `i` that no letter follows. */
  function FirstUnit(s: string, i: nat, units: seq<string>): (r: Option<string>)
    ensures r.Some? ==> StartsAt(s, i, r.value)
  {
    if units == [] then None
    else
      var end := i + |units[0]|;
      if StartsAt(s, i, units[0]) && !(end < |s| && IsLower(s[end])) then Some(units[0])
      else FirstUnit(s, i, units[1..])
  }

  function SpacesFrom(s: string, i: nat): (j: nat)
    requires i <= |s|
    ensures i <= j <= |s|
    decreases |s| - i
  {
    if i < |s| && IsSpace(s[i]) then SpacesFrom(s, i + 1) else i
  }

  function DigitsFrom(s: string, i: nat): (j: nat)
    requires i <= |s|
    ensures i <= j <= |s| && AllDigits(s[i..j])
    decreases |s| - i
  {
    if i < |s| && IsDigit(s[i]) then
      var j := DigitsFrom(s, i + 1);
      assert s[i..j] == [s[i]] + s[i + 1..j];
      j
    else i
  }

  /** What one application matched: whole digits, fraction digits, unit ("" for none) and length. */
  datatype Match = Match(whole: string, fraction: string, unit: string, length: nat)

  /** A unit after the number, giving spaces back one at a time from `j`. */
  function TrySpaces(s: string, from: nat, j: nat): (r: Option<(string, nat)>)
    requires from <= j <= |s|
    ensures r.Some? ==> from <= r.value.1 <= |s|
    decreases j
  {
    var u := FirstUnit(s, j, UNITS);
    if u.Some? then Some((u.value, SpacesFrom(s, j + |u.value|)))
    else if from < j then TrySpaces(s, from, j - 1)
    else None
  }

  function After(s: string, whole: string, fraction: string, i: nat): (r: Option<Match>)
    requires i <= |s|
    ensures r.Some? ==> r.value.whole == whole && r.value.fraction == fraction && i <= r.value.length <= |s|
  {
    var u := TrySpaces(s, i, SpacesFrom(s, i));
    if u.None? then None else Some(Match(whole, fraction, u.value.0, u.value.1))
  }

  /** The fraction of a number whose point is at `i`, giving digits back from `f`. */
  function TryFraction(s: string, whole: string, i: nat, f: nat): (r: Option<Match>)
    requires i + 1 <= f <= |s| && AllDigits(s[i + 1..f])
    ensures r.Some? ==> r.value.whole == whole && AllDigits(r.value.fraction) && i <= r.value.length <= |s|
    decreases f
  {
    if f == i + 1 then None
    else
      var r := After(s, whole, s[i + 1..f], f);
      if r.Some? then r
      else
        assert s[i + 1..f - 1] == s[i + 1..f][..f - 1 - (i + 1)];
        TryFraction(s, whole, i, f - 1)
  }

  /** The whole part of a number starting at `b`, giving digits back from `i`. */
  function TryWhole(s: string, b: nat, i: nat): (r: Option<Match>)
    requires b <= i <= |s| && AllDigits(s[b..i])
    ensures r.Some? ==> AllDigits(r.value.whole) && AllDigits(r.value.fraction) && b < r.value.length <= |s|
    decreases i
  {
    if i == b then None
    else
      var whole := s[b..i];
      var withFraction := if i < |s| && s[i] == '.' then TryFraction(s, whole, i, DigitsFrom(s, i + 1)) else None;
      if withFraction.Some? then withFraction
      else
        var plain := After(s, whole, "", i);
        if plain.Some? then plain
        else
          assert s[b..i - 1] == s[b..i][..i - 1 - b];
          TryWhole(s, b, i - 1)
  }

  function Exec(s: string): (r: Option<Match>)
    ensures r.Some? ==> AllDigits(r.value.whole) && AllDigits(r.value.fraction) && 0 < r.value.length <= |s|
  {
    var b := SpacesFrom(s, 0);
    TryWhole(s, b, DigitsFrom(s, b))
  }

  // ----- Reading -----

  function Lower(s: string): string {
    seq(|s|, i requires 0 <= i < |s| => if 'A' <= s[i] <= 'Z' then 'a' + (s[i] - 'A') else s[i])
  }

  function Round(x: real): int {
    (x + 0.5).Floor
  }

  function Positive(n: int): Option<nat> {
    if n > 0 then Some(n) else None
  }

  function Quantity(m: Match): real
    requires AllDigits(m.whole) && AllDigits(m.fraction)
  {
    Value(m.whole) as real + Value(m.fraction) as real / PowerOf10(|m.fraction|)
  }

  function PowerOf10(k: nat): (r: real)
    ensures r > 0.0
  {
    if k == 0 then 1.0 else 10.0 * PowerOf10(k - 1)
  }

  /** A bare number reads as minutes only after hours. */
  function UnitOf(m: Match, lastUnit: string): string {
    if m.unit != "" then m.unit else if lastUnit == "h" then "m" else ""
  }

  function InMinutes(unit: string, n: real): real
    requires unit != ""
  {
    if unit[0] == 'd' then n * 1440.0 else if unit[0] == 'h' then n * 60.0 else n
  }

  function ReadUnits(rest: string, total: real, lastUnit: string): Option<nat>
    decreases |rest|
  {
    if rest == "" then Positive(Round(total))
    else
      var m := Exec(rest);
      if m.None? then None
      else
        var u := UnitOf(m.value, lastUnit);
        if u == "" then None
        else ReadUnits(rest[m.value.length..], total + InMinutes(u, Quantity(m.value)), u[..1])
  }

  /** "1:30": hours, a colon, one or two digits. */
  predicate IsClock(s: string) {
    var i := DigitsFrom(s, 0);
    0 < i < |s| && s[i] == ':' && 1 <= |s| - (i + 1) <= 2 && AllDigits(s[i + 1..])
  }

  function ReadClock(s: string): Option<nat>
    requires IsClock(s)
  {
    var i := DigitsFrom(s, 0);
    var h, m := Value(s[0..i]), Value(s[i + 1..]);
    if m < 60 then Positive(h * 60 + m) else None
  }

  /** What `ParseDuration` reads. */
  function Parsed(input: string): (r: Option<nat>) {
    var s := Lower(Trim(input));
    if s == "" then None
    else if AllDigits(s) then Positive(Value(s))
    else if IsClock(s) then ReadClock(s)
    else ReadUnits(s, 0.0, "")
  }

  method ParseDuration(input: string) returns (r: Option<nat>)
    ensures r == Parsed(input)
    ensures r.Some? ==> r.value >= 1
  {
    hide Exec, Trim, Lower, Value;
    var s := Lower(Trim(input));
    if s == "" {
      return None;
    }
    if AllDigits(s) {
      return Positive(Value(s));
    }
    if IsClock(s) {
      return ReadClock(s);
    }
    var total := 0.0;
    var rest := s;
    var lastUnit := "";
    while rest != ""
      invariant ReadUnits(rest, total, lastUnit) == ReadUnits(s, 0.0, "")
      decreases |rest|
    {
      var m := Exec(rest);
      if m.None? {
        return None;
      }
      var u := UnitOf(m.value, lastUnit);
      if u == "" {
        return None;
      }
      total := total + InMinutes(u, Quantity(m.value));
      lastUnit := u[..1];
      rest := rest[m.value.length..];
    }
    return Positive(Round(total));
  }

  // ----- What is typed is read: numbers with their units, in any of the spellings -----

  type Digits = s: string | AllDigits(s) witness ""

  /** A number, its unit (none after hours) and the white space between and after. */
  datatype Piece = Piece(whole: Digits, fraction: Digits, gap: string, unit: string, after: string)

  predicate Blank(s: string) {
    forall i :: 0 <= i < |s| ==> IsSpace(s[i])
  }

  predicate IsDay(unit: string) {
    unit == "days" || unit == "day" || unit == "d"
  }

  predicate IsHour(unit: string) {
    unit == "hours" || unit == "hour" || unit == "hrs" || unit == "hr" || unit == "h"
  }

  predicate IsMinute(unit: string) {
    unit == "minutes" || unit == "minute" || unit == "mins" || unit == "min" || unit == "m"
  }

  /** How many minutes one of a unit is. */
  function Worth(unit: string): nat {
    if IsDay(unit) then 1440 else if IsHour(unit) then 60 else 1
  }

  predicate ValidPiece(p: Piece) {
    && p.whole != "" && Blank(p.gap) && Blank(p.after)
    && (IsDay(p.unit) || IsHour(p.unit) || IsMinute(p.unit) || (p.unit == "" && p.gap == ""))
  }

  /** Pieces one after another: one without a unit comes only right after hours, and white space parts it from the next. */
  predicate Readable(ps: seq<Piece>, afterHours: bool) {
    ps == [] ||
    (&& ValidPiece(ps[0])
     && (ps[0].unit == "" ==> afterHours && (ps[0].after != "" || |ps| == 1))
     && Readable(ps[1..], IsHour(ps[0].unit)))
  }

  function NumberText(p: Piece): string {
    p.whole + if p.fraction == "" then "" else "." + p.fraction
  }

  function PieceText(p: Piece): string {
    NumberText(p) + (p.gap + (p.unit + p.after))
  }

  function TextOf(ps: seq<Piece>): string {
    if ps == [] then "" else PieceText(ps[0]) + TextOf(ps[1..])
  }

  /** The minutes a piece is worth: the number before its point and the digits after it. */
  function Amount(p: Piece): real {
    (Value(p.whole) as real + Value(p.fraction) as real / PowerOf10(|p.fraction|)) * Worth(p.unit) as real
  }

  function Sum(ps: seq<Piece>): real {
    if ps == [] then 0.0 else Amount(ps[0]) + Sum(ps[1..])
  }

  // ----- Its parts found in a text -----

  lemma {:induction false} DigitsRun(s: string, i: nat, k: nat)
    requires i <= k <= |s| && AllDigits(s[i..k])
    requires k < |s| ==> !IsDigit(s[k])
    ensures DigitsFrom(s, i) == k
    decreases k - i
  {
    if i < k {
      assert s[i..k][0] == s[i];
      assert s[i + 1..k] == s[i..k][1..];
      DigitsRun(s, i + 1, k);
    }
  }

  lemma {:induction false} SpacesRun(s: string, i: nat, k: nat)
    requires i <= k <= |s| && Blank(s[i..k])
    requires k < |s| ==> !IsSpace(s[k])
    ensures SpacesFrom(s, i) == k
    decreases k - i
  {
    hide IsSpace;
    if i < k {
      assert s[i..k][0] == s[i];
      assert s[i + 1..k] == s[i..k][1..];
      SpacesRun(s, i + 1, k);
    }
  }

  lemma DigitNoSpace(c: char)
    ensures IsDigit(c) || IsLower(c) ==> !IsSpace(c)
    ensures IsSpace(c) ==> c != '.' && c != ':'
  {
  }

  predicate AllLower(s: string) {
    forall i :: 0 <= i < |s| ==> IsLower(s[i])
  }

  lemma LetterAfter(s: string, i: nat, u: string, v: string)
    requires StartsAt(s, i, u) && StartsAt(s, i, v) && AllLower(v)
    ensures |u| < |v| ==> i + |u| < |s| && IsLower(s[i + |u|])
  {
    if |u| < |v| {
      assert s[i + |u|] == s[i..i + |v|][|u|] == v[|u|];
    }
  }

  /** Two words of small letters at one place that no letter follows are one word. */
  lemma OneWord(s: string, i: nat, u: string, v: string)
    requires AllLower(u) && StartsAt(s, i, u) && (i + |u| < |s| ==> !IsLower(s[i + |u|]))
    requires AllLower(v) && StartsAt(s, i, v) && (i + |v| < |s| ==> !IsLower(s[i + |v|]))
    ensures u == v
  {
    LetterAfter(s, i, u, v);
    LetterAfter(s, i, v, u);
  }

  /** Of units all in small letters the reader finds the one that stands there, whatever the order it tries them in. */
  lemma {:induction false} UnitAt(s: string, i: nat, units: seq<string>, unit: string)
    requires unit in units && forall u :: u in units ==> AllLower(u)
    requires StartsAt(s, i, unit) && (i + |unit| < |s| ==> !IsLower(s[i + |unit|]))
    ensures FirstUnit(s, i, units) == Some(unit)
  {
    hide AllLower, IsLower, StartsAt;
    var u := units[0];
    if StartsAt(s, i, u) && !(i + |u| < |s| && IsLower(s[i + |u|])) {
      OneWord(s, i, u, unit);
    } else {
      assert units == [u] + units[1..];
      UnitAt(s, i, units[1..], unit);
    }
  }

  lemma UnitsAreLower()
    ensures forall u :: u in UNITS ==> AllLower(u)
  {
  }

  lemma UnitIsTried(unit: string)
    requires IsDay(unit) || IsHour(unit) || IsMinute(unit) || unit == ""
    ensures unit in UNITS && AllLower(unit)
  {
  }

  // ----- One application reads one piece -----

  /** What may stand after a piece: nothing, or the next one's number. */
  predicate Follows(p: Piece, tail: string) {
    (tail != "" ==> IsDigit(tail[0])) && (p.unit == "" && tail != "" ==> p.after != "")
  }

  /** Where the pieces of a piece stand in a text that starts with it. */
  lemma PieceParts(p: Piece, tail: string)
    requires ValidPiece(p)
    ensures var s, k, e := PieceText(p) + tail, |p.whole|, |NumberText(p)|;
            var j, n := e + |p.gap|, |PieceText(p)|;
            && j + |p.unit| <= n && s[n..] == tail && s[0..k] == p.whole && s[e..j] == p.gap
            && StartsAt(s, j, p.unit) && s[j + |p.unit|..n] == p.after
            && (p.unit == "" ==> p.gap == "") && (p.fraction == "" ==> e == k)
            && (p.fraction != "" ==> e == k + 1 + |p.fraction| && s[k] == '.' && s[k + 1..e] == p.fraction)
  {
    assert p.unit == "" ==> p.gap == "";
    hide NumberText, ValidPiece;
    NumberParts(p, p.gap + (p.unit + p.after) + tail);
    FourParts(NumberText(p), p.gap, p.unit, p.after, tail);
    assert PieceText(p) + tail == NumberText(p) + (p.gap + (p.unit + p.after) + tail);
  }

  lemma NumberParts(p: Piece, rest: string)
    ensures var s, k, e := NumberText(p) + rest, |p.whole|, |NumberText(p)|;
            && k <= e <= |s| && s[0..k] == p.whole && (p.fraction == "" ==> e == k)
            && (p.fraction != "" ==> e == k + 1 + |p.fraction| && s[k] == '.' && s[k + 1..e] == p.fraction)
  {
  }

  lemma FourParts(a: string, b: string, c: string, d: string, tail: string)
    ensures var s := a + (b + (c + d)) + tail;
            var e, j, i, n := |a|, |a| + |b|, |a| + |b| + |c|, |a + (b + (c + d))|;
            n == i + |d| && s[e..j] == b && s[j..i] == c && s[i..n] == d && s[n..] == tail
  {
  }

  /** White space, wherever it stands, runs to what follows it. */
  lemma SpacesAfter(p: Piece, tail: string)
    requires ValidPiece(p) && Follows(p, tail)
    ensures var s, e, n := PieceText(p) + tail, |NumberText(p)|, |PieceText(p)|;
            && SpacesFrom(s, 0) == 0
            && (p.unit != "" ==> SpacesFrom(s, e) == e + |p.gap| && SpacesFrom(s, e + |p.gap| + |p.unit|) == n)
            && (p.unit == "" ==> SpacesFrom(s, e) == n && SpacesFrom(s, n) == n)
  {
    hide PieceText, NumberText, SpacesFrom, IsSpace, IsDigit, IsLower, IsDay, IsHour, IsMinute, AllLower;
    var s, e, n := PieceText(p) + tail, |NumberText(p)|, |PieceText(p)|;
    var j := e + |p.gap|;
    PieceParts(p, tail);
    UnitLetter(p.unit);
    assert IsDigit(s[0]) by {
      assert s[0] == s[0..|p.whole|][0] == p.whole[0];
    }
    DigitNoSpace(s[0]);
    SpacesRun(s, 0, 0);
    if tail != "" {
      assert s[n] == s[n..][0] == tail[0];
      DigitNoSpace(s[n]);
    }
    SpacesRun(s, n, n);
    SpacesRun(s, j + |p.unit|, n);
    if p.unit != "" {
      assert s[j] == s[j..j + |p.unit|][0] == p.unit[0];
      DigitNoSpace(s[j]);
      SpacesRun(s, e, j);
    }
  }

  lemma UnitLetter(unit: string)
    requires IsDay(unit) || IsHour(unit) || IsMinute(unit) || unit == ""
    ensures AllLower(unit) && (unit != "" ==> IsLower(unit[0]))
  {
  }

  /** What stands right after the digits of a piece is no digit, and after its unit no letter. */
  lemma NothingRunsOn(p: Piece, tail: string)
    requires ValidPiece(p) && Follows(p, tail)
    ensures var s, k, e := PieceText(p) + tail, |p.whole|, |NumberText(p)|;
            var j := e + |p.gap| + |p.unit|;
            && (k < |s| ==> !IsDigit(s[k])) && (e < |s| ==> !IsDigit(s[e]) && s[e] != '.')
            && (j < |s| ==> !IsLower(s[j])) && (p.unit == "" && |PieceText(p)| < |s| ==> !IsLower(s[|PieceText(p)|]))
  {
    var s, e, n := PieceText(p) + tail, |NumberText(p)|, |PieceText(p)|;
    PieceParts(p, tail);
    UnitLetter(p.unit);
    hide PieceText, NumberText, IsDay, IsHour, IsMinute;
    if tail != "" {
      assert s[n] == s[n..][0] == tail[0];
    }
    var j := e + |p.gap| + |p.unit|;
    if p.after != "" {
      assert s[j] == s[j..n][0] == p.after[0];
    } else {
      assert s[j..n] == "" && j == n;
    }
    if p.gap != "" {
      assert s[e] == s[e..e + |p.gap|][0] == p.gap[0];
    } else if p.unit != "" {
      assert s[e] == s[e..e + |p.unit|][0] == p.unit[0];
    }
  }

  lemma UnitOfPiece(p: Piece, tail: string)
    requires ValidPiece(p) && Follows(p, tail)
    ensures var s, e := PieceText(p) + tail, |NumberText(p)|;
            FirstUnit(s, SpacesFrom(s, e), UNITS) == Some(p.unit)
  {
    hide PieceText, NumberText, IsDay, IsHour, IsMinute, IsLower, IsSpace, IsDigit, UNITS, AllLower, FirstUnit, SpacesFrom, StartsAt;
    var s, e := PieceText(p) + tail, |NumberText(p)|;
    PieceParts(p, tail);
    SpacesAfter(p, tail);
    NothingRunsOn(p, tail);
    UnitsAreLower();
    UnitIsTried(p.unit);
    if p.unit == "" {
      EmptyStarts(s, SpacesFrom(s, e));
    }
    UnitAt(s, SpacesFrom(s, e), UNITS, p.unit);
  }

  lemma EmptyStarts(s: string, i: nat)
    requires i <= |s|
    ensures StartsAt(s, i, "")
  {
  }

  lemma AfterNumber(p: Piece, tail: string)
    requires ValidPiece(p) && Follows(p, tail)
    ensures var s, e := PieceText(p) + tail, |NumberText(p)|;
            After(s, p.whole, p.fraction, e) == Some(Match(p.whole, p.fraction, p.unit, |PieceText(p)|))
  {
    hide PieceText, NumberText, ValidPiece, Follows, UNITS, FirstUnit, SpacesFrom;
    UnitOfPiece(p, tail);
    SpacesAfter(p, tail);
    PieceParts(p, tail);
  }

  /** One application of the expression to a text that starts with a piece matches exactly that piece. */
  lemma ExecPiece(p: Piece, tail: string)
    requires ValidPiece(p) && Follows(p, tail)
    ensures Exec(PieceText(p) + tail) == Some(Match(p.whole, p.fraction, p.unit, |PieceText(p)|))
  {
    var s, k, e := PieceText(p) + tail, |p.whole|, |NumberText(p)|;
    PieceParts(p, tail);
    SpacesAfter(p, tail);
    NothingRunsOn(p, tail);
    AfterNumber(p, tail);
    hide PieceText, NumberText, IsDay, IsHour, IsMinute, IsLower, After, SpacesFrom, IsSpace;
    DigitsRun(s, 0, k);
    if p.fraction != "" {
      DigitsRun(s, k + 1, e);
    }
  }

  // ----- The reader adds the pieces up -----

  lemma ReadStep(s: string, total: real, lastUnit: string)
    requires s != "" && Exec(s).Some? && UnitOf(Exec(s).value, lastUnit) != ""
    ensures var m := Exec(s).value;
            var u := UnitOf(m, lastUnit);
            ReadUnits(s, total, lastUnit) == ReadUnits(s[m.length..], total + InMinutes(u, Quantity(m)), u[..1])
  {
    hide Exec, Quantity, InMinutes, UnitOf;
  }

  lemma ReadPiece(p: Piece, tail: string, total: real, lastUnit: string)
    requires ValidPiece(p) && Follows(p, tail) && (p.unit == "" ==> lastUnit == "h")
    ensures ReadUnits(PieceText(p) + tail, total, lastUnit) == ReadUnits(tail, total + Amount(p), UnitRead(p.unit))
  {
    hide *;
    var s := PieceText(p) + tail;
    ExecPiece(p, tail);
    PieceInMinutes(p, |PieceText(p)|);
    assert s[|PieceText(p)|..] == tail;
    UnitOfMatch(Match(p.whole, p.fraction, p.unit, |PieceText(p)|), lastUnit);
    ReadStep(s, total, lastUnit);
  }

  /** The unit the reader remembers of a piece. */
  function UnitRead(unit: string): string {
    if unit == "" then "m" else unit[..1]
  }

  lemma UnitOfMatch(m: Match, lastUnit: string)
    requires m.unit == "" ==> lastUnit == "h"
    ensures var u := UnitOf(m, lastUnit); u == (if m.unit == "" then "m" else m.unit) && u != "" && u[..1] == UnitRead(m.unit)
  {
  }

  lemma PieceInMinutes(p: Piece, length: nat)
    requires ValidPiece(p)
    ensures PieceText(p) != ""
    ensures InMinutes(if p.unit == "" then "m" else p.unit, Quantity(Match(p.whole, p.fraction, p.unit, length))) == Amount(p)
  {
    hide InMinutes, Worth, IsDay, IsHour, IsMinute;
    WorthInMinutes(p.unit, Quantity(Match(p.whole, p.fraction, p.unit, length)));
  }

  lemma WorthInMinutes(unit: string, n: real)
    requires IsDay(unit) || IsHour(unit) || IsMinute(unit) || unit == ""
    ensures InMinutes(if unit == "" then "m" else unit, n) == n * Worth(unit) as real
    ensures UnitRead(unit) == "h" <==> IsHour(unit)
  {
  }

  /** The text of readable pieces starts with a digit, if it is not empty. */
  lemma TextStarts(ps: seq<Piece>, afterHours: bool)
    requires Readable(ps, afterHours) && ps != []
    ensures TextOf(ps) != "" && IsDigit(TextOf(ps)[0])
    ensures Follows(ps[0], TextOf(ps[1..]))
  {
    if |ps| > 1 {
      assert TextOf(ps[1..])[0] == ps[1].whole[0];
    }
    assert TextOf(ps)[0] == ps[0].whole[0];
  }

  lemma {:induction false} ReadPieces(ps: seq<Piece>, total: real, lastUnit: string)
    requires Readable(ps, lastUnit == "h")
    ensures ReadUnits(TextOf(ps), total, lastUnit) == Positive(Round(total + Sum(ps)))
  {
    hide *;
    if ps == [] {
      NoPieces(total, lastUnit);
    } else {
      var p := ps[0];
      TextStarts(ps, lastUnit == "h");
      FirstPiece(ps, lastUnit == "h");
      ReadPiece(p, TextOf(ps[1..]), total, lastUnit);
      ReadPieces(ps[1..], total + Amount(p), UnitRead(p.unit));
      assert total + (Amount(p) + Sum(ps[1..])) == total + Amount(p) + Sum(ps[1..]);
    }
  }

  lemma NoPieces(total: real, lastUnit: string)
    ensures ReadUnits(TextOf([]), total, lastUnit) == Positive(Round(total + Sum([])))
  {
    assert total + 0.0 == total;
  }

  lemma FirstPiece(ps: seq<Piece>, afterHours: bool)
    requires Readable(ps, afterHours) && ps != []
    ensures var p := ps[0];
            && ValidPiece(p) && (p.unit == "" ==> afterHours) && (!afterHours ==> p.unit != "") && Readable(ps[1..], UnitRead(p.unit) == "h")
            && TextOf(ps) == PieceText(p) + TextOf(ps[1..]) && Sum(ps) == Amount(p) + Sum(ps[1..])
  {
    WorthInMinutes(ps[0].unit, 0.0);
    hide IsDay, IsHour, IsMinute, PieceText, Amount, UnitRead;
  }

  /** A text that starts with a piece is neither all digits nor a clock time. */
  lemma PieceIsNoNumber(p: Piece, tail: string)
    requires ValidPiece(p) && p.unit != "" && Follows(p, tail)
    ensures var s := PieceText(p) + tail; s != "" && !AllDigits(s) && !IsClock(s)
  {
    hide PieceText, NumberText, IsDay, IsHour, IsMinute, SpacesFrom, IsSpace;
    var s, k := PieceText(p) + tail, |p.whole|;
    PieceParts(p, tail);
    NothingRunsOn(p, tail);
    NoColon(p, tail);
    assert p.whole != "";
    DigitsRun(s, 0, k);
  }

  lemma NotNumberNorClock(ps: seq<Piece>)
    requires Readable(ps, false) && ps != []
    ensures var s := TextOf(ps); s != "" && !AllDigits(s) && !IsClock(s)
  {
    hide *;
    TextStarts(ps, false);
    FirstPiece(ps, false);
    PieceIsNoNumber(ps[0], TextOf(ps[1..]));
  }

  lemma NoColon(p: Piece, tail: string)
    requires ValidPiece(p) && p.unit != ""
    ensures var s, k := PieceText(p) + tail, |p.whole|; k < |s| && s[k] != ':'
  {
    var s, e, k := PieceText(p) + tail, |NumberText(p)|, |p.whole|;
    PieceParts(p, tail);
    UnitLetter(p.unit);
    hide PieceText, NumberText, IsDay, IsHour, IsMinute;
    if p.fraction == "" {
      if p.gap != "" {
        assert s[e] == s[e..e + |p.gap|][0] == p.gap[0];
      } else {
        assert s[e] == s[e..e + |p.unit|][0] == p.unit[0];
      }
    }
  }

  lemma ReadAsSum(input: string, ps: seq<Piece>)
    requires Readable(ps, false) && ps != [] && Lower(Trim(input)) == TextOf(ps)
    ensures Parsed(input) == Positive(Round(Sum(ps)))
  {
    hide *;
    NotNumberNorClock(ps);
    ReadPieces(ps, 0.0, "");
    ParsedByUnits(input);
    assert 0.0 + Sum(ps) == Sum(ps);
  }

  /**
    Whatever someone types that is, trimmed and in small letters, numbers with
    their units, whole or with a fraction, in any spelling and spacing, and a bare
    number after hours, is read as the whole minutes nearest to what they come
    to, a half going up, and as nothing when they come to less than half a minute.
   */
  lemma TypedIsRead(input: string, ps: seq<Piece>, n: nat)
    requires Readable(ps, false) && ps != [] && Lower(Trim(input)) == TextOf(ps)
    ensures Parsed(input) == Some(n) <==> n > 0 && n as real - 0.5 <= Sum(ps) < n as real + 0.5
    ensures Parsed(input).None? <==> Sum(ps) < 0.5
  {
    hide *;
    ReadAsSum(input, ps);
    Nearest(Sum(ps), n);
  }

  lemma Nearest(x: real, n: nat)
    ensures Positive(Round(x)) == Some(n) <==> n > 0 && n as real - 0.5 <= x < n as real + 0.5
    ensures Positive(Round(x)).None? <==> x < 0.5
  {
  }

  lemma ParsedByUnits(input: string)
    requires var s := Lower(Trim(input)); s != "" && !AllDigits(s) && !IsClock(s)
    ensures Parsed(input) == ReadUnits(Lower(Trim(input)), 0.0, "")
  {
    hide Trim, Lower, IsClock, ReadUnits;
  }

  /** What trimming and lower-casing leave alone: digits, small letters, points and colons, with spaces between. */
  predicate PlainText(s: string) {
    forall i :: 0 <= i < |s| ==> IsDigit(s[i]) || IsLower(s[i]) || s[i] == ' ' || s[i] == '.' || s[i] == ':'
  }

  lemma PlainUnchanged(s: string)
    requires PlainText(s) && s != "" && s[0] != ' ' && s[|s| - 1] != ' '
    ensures Lower(Trim(s)) == s
  {
    DigitNoSpace(s[0]);
    DigitNoSpace(s[|s| - 1]);
    TrimIsTrimmed(s);
  }

  lemma WholeAmount(n: nat, gap: string, unit: string, after: string)
    ensures Amount(Piece(Decimal(n), "", gap, unit, after)) == (n * Worth(unit)) as real
  {
    DecimalRoundTrip(n);
    hide Decimal, IsDay, IsHour, IsMinute;
  }

  lemma DigitNotBlank(c: char)
    ensures IsDigit(c) ==> c != ' '
  {
  }

  /** Plain text made of readable pieces is read as their sum. */
  lemma ReadsPlain(s: string, ps: seq<Piece>)
    requires Readable(ps, false) && ps != [] && s == TextOf(ps) && PlainText(s) && s[|s| - 1] != ' '
    ensures Parsed(s) == Positive(Round(Sum(ps)))
  {
    hide *;
    TextStarts(ps, false);
    DigitNotBlank(s[0]);
    PlainUnchanged(s);
    ReadAsSum(s, ps);
  }

  // ----- What is printed is read back -----

  function PrintedPiece(n: nat, unit: string, more: bool): Piece {
    Piece(Decimal(n), "", " ", unit, if more then " " else "")
  }

  function PiecesFor(d: nat, h: nat, m: nat): seq<Piece> {
    (if d > 0 then [PrintedPiece(d, if d == 1 then "day" else "days", h > 0 || m > 0)] else []) +
    (if h > 0 then [PrintedPiece(h, "h", m > 0)] else []) +
    (if m > 0 then [PrintedPiece(m, "min", false)] else [])
  }

  function PiecesOf(minutes: nat): seq<Piece> {
    PiecesFor(minutes / 1440, minutes % 1440 / 60, minutes % 60)
  }

  lemma {:induction false} WordsAreText(words: seq<string>, ps: seq<Piece>)
    requires |words| == |ps|
    requires forall i :: 0 <= i < |ps| ==> PieceText(ps[i]) == words[i] + if i < |ps| - 1 then " " else ""
    ensures JoinWords(words) == TextOf(ps)
  {
    hide PieceText;
    if |ps| > 1 {
      WordsAreText(words[1..], ps[1..]);
      assert PieceText(ps[0]) == words[0] + " ";
    } else if |ps| == 1 {
      assert ps[1..] == [];
    }
  }

  lemma PrintedText(n: nat, unit: string, more: bool)
    ensures PieceText(PrintedPiece(n, unit, more)) == (Decimal(n) + " " + unit) + if more then " " else ""
  {
    hide Decimal;
  }

  lemma PartsAreWords(minutes: nat)
    ensures var words, ps := Parts(minutes), PiecesOf(minutes);
            |words| == |ps| && forall i :: 0 <= i < |ps| ==> PieceText(ps[i]) == words[i] + if i < |ps| - 1 then " " else ""
  {
    var d, h, m := minutes / 1440, minutes % 1440 / 60, minutes % 60;
    hide Decimal, PieceText, PrintedPiece;
    PrintedText(d, if d == 1 then "day" else "days", h > 0 || m > 0);
    PrintedText(h, "h", m > 0);
    PrintedText(m, "min", false);
  }

  predicate FitsAt(p: Piece, last: bool) {
    var s := PieceText(p);
    ValidPiece(p) && p.unit != "" && PlainText(s) && s != "" && (last ==> s[|s| - 1] != ' ')
  }

  predicate PrintedFit(ps: seq<Piece>) {
    forall i :: 0 <= i < |ps| ==> FitsAt(ps[i], i == |ps| - 1)
  }

  lemma PrintedPieceIsPlain(n: nat, unit: string, more: bool)
    requires unit == "day" || unit == "days" || unit == "h" || unit == "min"
    ensures FitsAt(PrintedPiece(n, unit, more), false) && FitsAt(PrintedPiece(n, unit, more), !more)
  {
    hide Decimal;
  }

  lemma {:induction false} PlainAppend(ps: seq<Piece>)
    requires PrintedFit(ps)
    ensures Readable(ps, false) && Readable(ps, true) && PlainText(TextOf(ps))
    ensures ps != [] ==> TextOf(ps) != "" && TextOf(ps)[|TextOf(ps)| - 1] != ' '
  {
    hide ValidPiece, PieceText;
    if ps != [] {
      assert FitsAt(ps[0], |ps| == 1);
      PlainAppend(ps[1..]);
    }
  }

  lemma PiecesFit(d: nat, h: nat, m: nat)
    ensures PrintedFit(PiecesFor(d, h, m))
  {
    hide PrintedPiece, FitsAt;
    var day := if d == 1 then "day" else "days";
    PrintedPieceIsPlain(d, day, h > 0 || m > 0);
    PrintedPieceIsPlain(h, "h", m > 0);
    PrintedPieceIsPlain(m, "min", false);
    var p, q, r := PrintedPiece(d, day, h > 0 || m > 0), PrintedPiece(h, "h", m > 0), PrintedPiece(m, "min", false);
    assert FitsAt(p, d > 0 && h == 0 && m == 0) && FitsAt(q, m == 0) && FitsAt(r, true);
  }

  lemma SumOfUpTo(p: Piece, ps: seq<Piece>, here: bool)
    ensures Sum((if here then [p] else []) + ps) == (if here then Amount(p) else 0.0) + Sum(ps)
  {
    hide Amount;
    if here {
      assert ([p] + ps)[1..] == ps;
    } else {
      assert [] + ps == ps;
    }
  }

  lemma PiecesSum(d: nat, h: nat, m: nat)
    ensures Sum(PiecesFor(d, h, m)) == (1440 * d + 60 * h + m) as real
  {
    var day := if d == 1 then "day" else "days";
    UnitWorths();
    hide Amount, Sum, Decimal, Worth;
    WholeAmount(d, " ", day, if h > 0 || m > 0 then " " else "");
    WholeAmount(h, " ", "h", if m > 0 then " " else "");
    WholeAmount(m, " ", "min", "");
    SumOfThree(PrintedPiece(d, day, h > 0 || m > 0), PrintedPiece(h, "h", m > 0), PrintedPiece(m, "min", false), d > 0, h > 0, m > 0);
  }

  lemma UnitWorths()
    ensures Worth("day") == 1440 && Worth("days") == 1440 && Worth("h") == 60 && Worth("min") == 1 && Worth("") == 1
  {
  }

  lemma SumOfThree(p: Piece, q: Piece, r: Piece, d: bool, h: bool, m: bool)
    ensures Sum((if d then [p] else []) + (if h then [q] else []) + (if m then [r] else [])) ==
            (if d then Amount(p) else 0.0) + (if h then Amount(q) else 0.0) + (if m then Amount(r) else 0.0)
  {
    SumOfNone();
    hide Amount, Sum;
    var days, hours, mins := if d then [p] else [], if h then [q] else [], if m then [r] else [];
    assert days + hours + mins == days + (hours + mins) && mins + [] == mins;
    SumOfUpTo(p, hours + mins, d);
    SumOfUpTo(q, mins, h);
    SumOfUpTo(r, [], m);
  }

  lemma SumOfNone()
    ensures Sum([]) == 0.0
  {
  }

  lemma PiecesAre(minutes: nat)
    ensures var d, h, m := minutes / 1440, minutes % 1440 / 60, minutes % 60;
            PiecesOf(minutes) == PiecesFor(d, h, m) && 1440 * d + 60 * h + m == minutes && (minutes > 0 ==> PiecesOf(minutes) != [])
  {
    hide PrintedPiece;
  }

  /** A duration is printed as its days, its hours under 24 and its minutes under 60, none of them when it is zero, a space between. */
  lemma PrintedAs(d: nat, h: nat, m: nat)
    requires h < 24 && m < 60 && d + h + m > 0
    ensures FormatDuration(1440 * d + 60 * h + m) ==
            (if d == 0 then "" else Decimal(d) + (if d == 1 then " day" else " days"))
            + (if d > 0 && h > 0 then " " else "")
            + (if h == 0 then "" else Decimal(h) + " h")
            + (if d + h > 0 && m > 0 then " " else "")
            + (if m == 0 then "" else Decimal(m) + " min")
    ensures FormatDuration(0) == "0 min"
  {
    hide *;
    var n := 1440 * d + 60 * h + m;
    PartsFor(d, h, m);
    var days, hours, mins := DayWords(d), Decimal(h) + " h", Decimal(m) + " min";
    JoinedThree(days, hours, mins, d > 0, h > 0, m > 0);
    DayWordsAre(d);
    PrintedNotEmpty(days, hours, mins, d > 0, h > 0, m > 0);
    PrintedIs(n);
    NothingPrinted();
  }

  function DayWords(d: nat): string {
    Decimal(d) + if d == 1 then " day" else " days"
  }

  lemma DayWordsAre(d: nat)
    ensures DayWords(d) == Decimal(d) + if d == 1 then " day" else " days"
  {
  }

  lemma PrintedNotEmpty(x: string, y: string, z: string, a: bool, b: bool, c: bool)
    requires a || b || c
    requires x != "" && y != "" && z != ""
    ensures (if a then x else "") + (if a && b then " " else "") + (if b then y else "")
            + (if (a || b) && c then " " else "") + (if c then z else "") != ""
  {
  }

  lemma NothingPrinted()
    ensures FormatDuration(0) == "0 min"
  {
  }

  lemma PartsFor(d: nat, h: nat, m: nat)
    requires h < 24 && m < 60
    ensures Parts(1440 * d + 60 * h + m) ==
            (if d > 0 then [DayWords(d)] else []) + (if h > 0 then [Decimal(h) + " h"] else []) + (if m > 0 then [Decimal(m) + " min"] else [])
    ensures DayWords(d) != "" && Decimal(h) + " h" != "" && Decimal(m) + " min" != ""
  {
    hide *;
    MinutesSplit(d, h, m);
    DayWordsAre(d);
    PartsSpelled(1440 * d + 60 * h + m, d, h, m);
    Spelled(Decimal(d), "day", " day");
    Spelled(Decimal(d), "days", " days");
    Spelled(Decimal(h), "h", " h");
    Spelled(Decimal(m), "min", " min");
  }

  lemma MinutesSplit(d: nat, h: nat, m: nat)
    requires h < 24 && m < 60
    ensures var n := 1440 * d + 60 * h + m; n / 1440 == d && n % 1440 / 60 == h && n % 60 == m
  {
  }

  lemma Spelled(x: string, word: string, spaced: string)
    requires spaced == " " + word
    ensures x + " " + word == x + spaced && x + spaced != ""
  {
  }

  lemma PartsSpelled(n: nat, d: nat, h: nat, m: nat)
    requires n / 1440 == d && n % 1440 / 60 == h && n % 60 == m
    ensures Parts(n) == (if d > 0 then [Decimal(d) + " " + if d == 1 then "day" else "days"] else []) +
                        (if h > 0 then [Decimal(h) + " " + "h"] else []) + (if m > 0 then [Decimal(m) + " " + "min"] else [])
  {
    hide Decimal;
  }

  lemma JoinedThree(x: string, y: string, z: string, a: bool, b: bool, c: bool)
    ensures JoinWords((if a then [x] else []) + (if b then [y] else []) + (if c then [z] else [])) ==
            (if a then x else "") + (if a && b then " " else "") + (if b then y else "")
            + (if (a || b) && c then " " else "") + (if c then z else "")
  {
    assert [x, y, z][1..] == [y, z] && [y, z][1..] == [z] && [x, y][1..] == [y] && [x, z][1..] == [z];
    assert JoinWords([z]) == z && JoinWords([y]) == y && JoinWords([x]) == x;
    assert JoinWords([y, z]) == y + " " + z && JoinWords([x, y]) == x + " " + y && JoinWords([x, z]) == x + " " + z;
  }

  /** Printing a duration and reading it gives it back, whatever its length. */
  lemma DurationRoundTrip(minutes: nat)
    requires minutes > 0
    ensures Parsed(FormatDuration(minutes)) == Some(minutes)
  {
    hide *;
    var ps := PiecesOf(minutes);
    PiecesAre(minutes);
    PartsAreWords(minutes);
    PiecesSum(minutes / 1440, minutes % 1440 / 60, minutes % 60);
    PiecesFit(minutes / 1440, minutes % 1440 / 60, minutes % 60);
    WordsAreText(Parts(minutes), ps);
    PlainAppend(ps);
    PrintedIs(minutes);
    ReadsPlain(TextOf(ps), ps);
    RoundOfWhole(minutes);
  }

  lemma PrintedIs(minutes: nat)
    requires JoinWords(Parts(minutes)) != ""
    ensures FormatDuration(minutes) == JoinWords(Parts(minutes))
  {
  }

  lemma RoundOfWhole(n: nat)
    ensures Round(n as real) == n && Positive(n) == if n > 0 then Some(n) else None
  {
  }

  // ----- Other ways someone types it -----

  /** "90": minutes. */
  lemma BareNumber(n: nat)
    ensures Parsed(Decimal(n)) == if n > 0 then Some(n) else None
  {
    DecimalRoundTrip(n);
    var s := Decimal(n);
    hide Decimal, Value;
    PlainUnchanged(s);
  }

  lemma OnePiece(p: Piece)
    requires ValidPiece(p) && p.unit != ""
    ensures Readable([p], false) && TextOf([p]) == PieceText(p) && Sum([p]) == Amount(p)
  {
    hide ValidPiece, PieceText, Amount;
    assert [p][1..] == [];
  }

  lemma OneRead(p: Piece, s: string)
    requires ValidPiece(p) && p.unit != "" && s == PieceText(p) && PlainText(s) && s != "" && s[|s| - 1] != ' '
    ensures Parsed(s) == Positive(Round(Amount(p)))
  {
    hide *;
    OnePiece(p);
    ReadsPlain(s, [p]);
  }

  lemma TypedPiece(n: nat, gap: string, unit: string)
    requires forall i :: 0 <= i < |gap| ==> gap[i] == ' '
    requires IsDay(unit) || IsHour(unit) || IsMinute(unit)
    ensures var p, s := Piece(Decimal(n), "", gap, unit, ""), Decimal(n) + gap + unit;
            ValidPiece(p) && p.unit != "" && s == PieceText(p) && PlainText(s) && s != "" && s[|s| - 1] != ' '
  {
    UnitLetter(unit);
    hide Decimal, IsDay, IsHour, IsMinute;
  }

  /** "90m", "2 hours", "1 day": any of the unit words, after any spaces or none. */
  lemma NumberAndUnit(n: nat, gap: string, unit: string)
    requires (forall i :: 0 <= i < |gap| ==> gap[i] == ' ') && (IsDay(unit) || IsHour(unit) || IsMinute(unit))
    ensures Parsed(Decimal(n) + gap + unit) == var k := n * Worth(unit); if k > 0 then Some(k) else None
  {
    var none: Digits := "";
    hide *;
    TypedPiece(n, gap, unit);
    WholeAmount(n, gap, unit, "");
    RoundOfWhole(n * Worth(unit));
    OneRead(Piece(Decimal(n), none, gap, unit, ""), Decimal(n) + gap + unit);
  }

  /** "1.5h": hours with a fraction, rounded to the minute. */
  lemma FractionOfHours(n: nat, fraction: Digits)
    requires fraction != ""
    ensures Parsed(Decimal(n) + "." + fraction + "h") ==
            Positive(Round((n as real + Value(fraction) as real / PowerOf10(|fraction|)) * 60.0))
  {
    hide *;
    HourAmount(n, fraction);
    HourText(n, fraction);
    OneRead(Piece(Decimal(n), fraction, "", "h", ""), Decimal(n) + "." + fraction + "h");
  }

  lemma HourText(n: nat, fraction: Digits)
    requires fraction != ""
    ensures var p, s := Piece(Decimal(n), fraction, "", "h", ""), Decimal(n) + "." + fraction + "h";
            ValidPiece(p) && p.unit != "" && s == PieceText(p) && PlainText(s) && s != "" && s[|s| - 1] != ' '
  {
    hide Decimal, IsDay, IsMinute;
  }

  lemma HourAmount(n: nat, fraction: Digits)
    ensures Amount(Piece(Decimal(n), fraction, "", "h", "")) == (n as real + Value(fraction) as real / PowerOf10(|fraction|)) * 60.0
  {
    DecimalRoundTrip(n);
    hide Decimal, Value, PowerOf10;
  }

  /** Half hours in particular. */
  lemma HalfHours(n: nat)
    ensures Parsed(Decimal(n) + ".5h") == Some(60 * n + 30)
  {
    HalfIs();
    hide *;
    FractionOfHours(n, "5");
    assert (n as real + 5.0 / 10.0) * 60.0 == (60 * n + 30) as real;
    RoundOfWhole(60 * n + 30);
    assert Decimal(n) + "." + "5" + "h" == Decimal(n) + ".5h";
  }

  lemma HalfIs()
    ensures AllDigits("5") && Value("5") == 5 && PowerOf10(|"5"|) == 10.0
  {
    assert "5"[..0] == "";
  }

  /** "1h30": a number right after hours is minutes. */
  lemma HoursThenMinutes(h: nat, m: nat)
    ensures Parsed(Decimal(h) + "h" + Decimal(m)) == if h + m > 0 then Some(60 * h + m) else None
  {
    var p, q := Piece(Decimal(h), "", "", "h", ""), Piece(Decimal(m), "", "", "", "");
    HoursAndMinutes(h, m);
    hide *;
    RoundOfWhole(60 * h + m);
    ReadsPlain(Decimal(h) + "h" + Decimal(m), [p, q]);
  }

  lemma HoursAndMinutes(h: nat, m: nat)
    ensures var ps := [Piece(Decimal(h), "", "", "h", ""), Piece(Decimal(m), "", "", "", "")];
            var s := Decimal(h) + "h" + Decimal(m);
            && Readable(ps, false) && s == TextOf(ps) && Sum(ps) == (60 * h + m) as real
            && PlainText(s) && s[|s| - 1] != ' '
  {
    var p, q := Piece(Decimal(h), "", "", "h", ""), Piece(Decimal(m), "", "", "", "");
    var s := Decimal(h) + "h" + Decimal(m);
    HoursPiece(h);
    MinutesPiece(m);
    assert IsHour("h");
    hide Decimal, PieceText, Amount, IsDay, IsHour, IsMinute, ValidPiece, IsSpace, Value;
    TwoPieces(p, q);
    assert s == TextOf([p, q]);
    hide Readable, TextOf, Sum;
    HoursText(Decimal(h), Decimal(m));
  }

  lemma HoursText(h: Digits, m: Digits)
    requires m != ""
    ensures var s := h + "h" + m; PlainText(s) && s[|s| - 1] != ' '
  {
    assert (h + "h" + m)[|h| + |m|] == m[|m| - 1];
  }

  /** Hours and a number that ends the text. */
  lemma TwoPieces(p: Piece, q: Piece)
    requires ValidPiece(p) && IsHour(p.unit) && ValidPiece(q) && q.unit == ""
    ensures Readable([p, q], false) && TextOf([p, q]) == PieceText(p) + PieceText(q) && Sum([p, q]) == Amount(p) + Amount(q)
  {
    hide PieceText, Amount, ValidPiece;
    assert [p, q][1..] == [q] && [q][1..] == [];
    assert Readable([q], true) && TextOf([q]) == PieceText(q) && Sum([q]) == Amount(q);
  }

  lemma HoursPiece(h: nat)
    ensures var p := Piece(Decimal(h), "", "", "h", ""); ValidPiece(p) && Amount(p) == (60 * h) as real && PieceText(p) == Decimal(h) + "h"
  {
    UnitWorths();
    WholeAmount(h, "", "h", "");
    hide Decimal, Amount, Worth;
  }

  lemma MinutesPiece(m: nat)
    ensures var p := Piece(Decimal(m), "", "", "", ""); ValidPiece(p) && Amount(p) == m as real && PieceText(p) == Decimal(m)
  {
    UnitWorths();
    WholeAmount(m, "", "", "");
    hide Decimal, Amount, Worth;
  }

  /** "1:30": digits, a colon, one or two digits under 60. */
  lemma ClockTime(hours: Digits, minutes: Digits)
    requires hours != "" && 1 <= |minutes| <= 2
    ensures Parsed(hours + ":" + minutes) ==
            if Value(minutes) < 60 && Value(hours) + Value(minutes) > 0 then Some(60 * Value(hours) + Value(minutes)) else None
  {
    hide *;
    var s := hours + ":" + minutes;
    ClockParts(hours, minutes);
    DigitsRun(s, 0, |hours|);
    PlainUnchanged(s);
    ClockParsed(s, |hours|);
  }

  lemma ClockParts(hours: Digits, minutes: Digits)
    requires hours != "" && 1 <= |minutes| <= 2
    ensures var s, k := hours + ":" + minutes, |hours|;
            && s[0..k] == hours && s[k] == ':' && s[k + 1..] == minutes && |s| == k + 1 + |minutes|
            && AllDigits(hours) && AllDigits(minutes) && !IsDigit(':') && !AllDigits(s)
            && PlainText(s) && s[0] != ' ' && s[|s| - 1] != ' '
  {
    assert (hours + ":" + minutes)[|hours|] == ':';
  }

  lemma ClockParsed(s: string, k: nat)
    requires 0 < k < |s| && DigitsFrom(s, 0) == k && s[k] == ':' && 1 <= |s| - (k + 1) <= 2
    requires AllDigits(s[0..k]) && AllDigits(s[k + 1..]) && !AllDigits(s) && Lower(Trim(s)) == s
    ensures var h, m := Value(s[0..k]), Value(s[k + 1..]);
            Parsed(s) == if m < 60 && h + m > 0 then Some(60 * h + m) else None
  {
    hide Lower, Trim, Value, AllDigits, DigitsFrom, ReadUnits;
  }

  /** So "1:30" is an hour and a half, "1:3" an hour and three minutes; "1:60" and "0:00" are nothing. */
  lemma ClockTimes(h: nat, m: nat)
    ensures m < 60 && h + m > 0 ==> Parsed(Decimal(h) + ":" + Pad(m, 2)) == Some(60 * h + m)
    ensures m < 10 && h + m > 0 ==> Parsed(Decimal(h) + ":" + Decimal(m)) == Some(60 * h + m)
    ensures 60 <= m < 100 ==> Parsed(Decimal(h) + ":" + Pad(m, 2)) == None
    ensures Parsed(Decimal(0) + ":" + Pad(0, 2)) == None
  {
    TwoDigits(m);
    hide *;
    DecimalRoundTrip(h);
    DecimalRoundTrip(m);
    DecimalRoundTrip(0);
    PadRoundTrip(0, 2);
    ClockTime(Decimal(0), Pad(0, 2));
    if m < 100 {
      PadRoundTrip(m, 2);
      ClockTime(Decimal(h), Pad(m, 2));
    }
    if m < 10 {
      ClockTime(Decimal(h), Decimal(m));
    }
  }

  lemma TwoDigits(m: nat)
    ensures Pow10(2) == 100 && (m < 10 ==> |Decimal(m)| == 1)
  {
    assert Pow10(1) == 10;
  }

  /** Each spelling the reader's own description gives. */
  lemma Spellings()
    ensures Parsed("90") == Some(90) && Parsed("90m") == Some(90) && Parsed("1:30") == Some(90) && Parsed("1h30") == Some(90)
    ensures FormatDuration(90) == "1 h 30 min" && Parsed("1 h 30 min") == Some(90)
    ensures Parsed("2 hours") == Some(120) && Parsed("1.5h") == Some(90) && Parsed("1 day") == Some(1440)
    ensures Parsed(" 2 H ") == Some(120)
  {
    SmallNumbers();
    UnitWords();
    hide *;
    BareNumber(90);
    NumberAndUnit(90, "", "m");
    ClockTimes(1, 30);
    HoursThenMinutes(1, 30);
    DurationRoundTrip(90);
    NumberAndUnit(2, " ", "hours");
    HalfHours(1);
    NumberAndUnit(1, " ", "day");
    NumberAndUnit(2, " ", "h");
    SameWhenTrimmed();
    assert "2" + " " + "h" == "2 h";
    assert "90" + "" + "m" == "90m" && "1" + ":" + "30" == "1:30" && "1" + "h" + "30" == "1h30";
    assert "2" + " " + "hours" == "2 hours" && "1" + ".5h" == "1.5h" && "1" + " " + "day" == "1 day";
  }

  lemma SameWhenTrimmed()
    ensures Parsed(" 2 H ") == Parsed("2 h")
  {
    assert TrimStart(" 2 H ") == "2 H " && "2 H "[..3] == "2 H" && TrimEnd("2 H ") == "2 H";
    assert Trim(" 2 H ") == "2 H" && Trim("2 h") == "2 h";
    assert Lower("2 H") == "2 h" == Lower("2 h");
    hide Trim, Lower, IsClock, ReadUnits, Value;
  }

  lemma UnitWords()
    ensures IsMinute("m") && Worth("m") == 1 && IsHour("hours") && Worth("hours") == 60 && IsHour("h") && Worth("h") == 60 && IsDay("day") && Worth("day") == 1440
  {
  }

  lemma SmallNumbers()
    ensures Decimal(1) == "1" && Decimal(2) == "2" && Decimal(30) == "30" && Decimal(90) == "90" && Pad(30, 2) == "30"
    ensures FormatDuration(90) == "1 h 30 min"
  {
    assert Decimal(1) == ['1'] && Decimal(2) == ['2'] && Decimal(3) == ['3'] && Decimal(9) == ['9'];
    assert Decimal(30) == ['3'] + ['0'] && Decimal(90) == ['9'] + ['0'];
    assert Pad(3, 1) == [] + ['3'] && Pad(30, 2) == Pad(3, 1) + ['0'];
    hide Decimal, Pad;
    NinetyPrinted();
  }

  lemma NinetyPrinted()
    requires Decimal(1) == "1" && Decimal(30) == "30"
    ensures FormatDuration(90) == "1 h 30 min"
  {
    hide Decimal;
    var hour, minutes := Decimal(1) + " " + "h", Decimal(30) + " " + "min";
    assert Parts(90) == [hour, minutes];
    hide Parts;
    assert [hour, minutes][1..] == [minutes];
    assert JoinWords([minutes]) == minutes;
    assert JoinWords([hour, minutes]) == hour + " " + minutes;
    hide JoinWords;
    assert hour == "1 h" && minutes == "30 min";
  }

  // ----- What is refused -----

  /** The reader past some pieces, at a number. */
  lemma {:induction false} ReadPast(ps: seq<Piece>, tail: string, total: real, lastUnit: string)
    requires Readable(ps, lastUnit == "h") && tail != "" && IsDigit(tail[0])
    requires ps != [] && ps[|ps| - 1].unit == "" ==> ps[|ps| - 1].after != ""
    ensures ReadUnits(TextOf(ps) + tail, total, lastUnit) ==
            ReadUnits(tail, total + Sum(ps), if ps == [] then lastUnit else UnitRead(ps[|ps| - 1].unit))
  {
    hide *;
    if ps == [] {
      NoneBefore(tail, total);
    } else {
      var p, rest := ps[0], TextOf(ps[1..]) + tail;
      FirstPiece(ps, lastUnit == "h");
      FollowedBy(ps, tail, lastUnit == "h");
      assert TextOf(ps) + tail == PieceText(p) + rest;
      ReadPiece(p, rest, total, lastUnit);
      ReadPast(ps[1..], tail, total + Amount(p), UnitRead(p.unit));
      assert total + (Amount(p) + Sum(ps[1..])) == total + Amount(p) + Sum(ps[1..]);
    }
  }

  lemma NoneBefore(tail: string, total: real)
    ensures TextOf([]) + tail == tail && total + Sum([]) == total
  {
  }

  lemma FollowedBy(ps: seq<Piece>, tail: string, afterHours: bool)
    requires Readable(ps, afterHours) && ps != [] && tail != "" && IsDigit(tail[0])
    requires ps[|ps| - 1].unit == "" ==> ps[|ps| - 1].after != ""
    ensures Follows(ps[0], TextOf(ps[1..]) + tail)
  {
    if |ps| > 1 {
      TextStarts(ps[1..], IsHour(ps[0].unit));
      assert (TextOf(ps[1..]) + tail)[0] == TextOf(ps[1..])[0];
    } else {
      assert TextOf(ps[1..]) + tail == tail;
    }
  }

  /** "1 day 2", "45 min 30": a number without a unit is refused anywhere but after hours. */
  lemma BareElsewhereIsRefused(input: string, ps: seq<Piece>, number: Digits)
    requires Readable(ps, false) && ps != [] && !IsHour(ps[|ps| - 1].unit) && ps[|ps| - 1].unit != ""
    requires number != "" && Lower(Trim(input)) == TextOf(ps) + number
    ensures Parsed(input) == None
  {
    hide *;
    var s, unit := TextOf(ps) + number, UnitRead(ps[|ps| - 1].unit);
    DigitsStart(number);
    LastUnit(ps);
    NotNumberNorClockWith(ps, number);
    ParsedByUnits(input);
    ReadPast(ps, number, 0.0, "");
    NumberAlone(number, 0.0 + Sum(ps), unit);
  }

  lemma DigitsStart(number: Digits)
    requires number != ""
    ensures IsDigit(number[0])
  {
  }

  lemma {:induction false} LastUnit(ps: seq<Piece>)
    requires ps != [] && !IsHour(ps[|ps| - 1].unit) && Readable(ps, false)
    ensures UnitRead(ps[|ps| - 1].unit) != "h" && ValidPiece(ps[0])
  {
    LastIsValid(ps, false);
    WorthInMinutes(ps[|ps| - 1].unit, 0.0);
  }

  lemma {:induction false} LastIsValid(ps: seq<Piece>, afterHours: bool)
    requires ps != [] && Readable(ps, afterHours)
    ensures ValidPiece(ps[|ps| - 1])
  {
    hide ValidPiece;
    if |ps| > 1 {
      LastIsValid(ps[1..], IsHour(ps[0].unit));
    }
  }

  lemma NumberAlone(number: Digits, total: real, lastUnit: string)
    requires number != "" && lastUnit != "h"
    ensures ReadUnits(number, total, lastUnit) == None
  {
    var p := Piece(number, "", "", "", "");
    ExecPiece(p, "");
    assert PieceText(p) + "" == number;
    hide Exec;
  }

  lemma NotNumberNorClockWith(ps: seq<Piece>, tail: string)
    requires Readable(ps, false) && ps != [] && tail != "" && IsDigit(tail[0])
    requires ps[|ps| - 1].unit != ""
    ensures var s := TextOf(ps) + tail; s != "" && !AllDigits(s) && !IsClock(s)
  {
    hide *;
    FollowedBy(ps, tail, false);
    FirstPiece(ps, false);
    assert TextOf(ps) + tail == PieceText(ps[0]) + (TextOf(ps[1..]) + tail);
    PieceIsNoNumber(ps[0], TextOf(ps[1..]) + tail);
  }

  lemma StartsInside(input: string)
    ensures var s := Lower(Trim(input)); s != "" ==> !IsSpace(s[0])
  {
    TrimIsTrimmed(input);
    hide Trim;
  }

  /** A text that starts with no digit is refused: a word, a minus sign, a unit without its number. */
  lemma NoNumberIsRefused(input: string)
    requires var s := Lower(Trim(input)); s != "" && !IsDigit(s[0])
    ensures Parsed(input) == None
  {
    StartsInside(input);
    hide Trim, Lower, Value, TryFraction, After, IsSpace;
    var s := Lower(Trim(input));
    assert SpacesFrom(s, 0) == 0 && DigitsFrom(s, 0) == 0;
    assert Exec(s) == None;
  }

  // ----- Times -----

  const MINUTE_MS: int := 60000

  /** Minutes from start to end, none when the end is not after. */
  function DurationMinutes(start: Option<int>, end: Option<int>): Option<nat> {
    if start.None? || end.None? then None
    else Positive((2 * (end.value - start.value) + MINUTE_MS) / (2 * MINUTE_MS))
  }

  function EndAfter(start: int, minutes: int): int {
    start + minutes * MINUTE_MS
  }

  /** The end a duration gives, read back as a duration, is that duration. */
  lemma EndAfterRoundTrip(start: int, minutes: nat)
    ensures DurationMinutes(Some(start), Some(EndAfter(start, minutes))) == Positive(minutes)
  {
  }

  /** Between a start and an end there are as many minutes as the nearest whole number, a half going up; none under half a minute. */
  lemma NearestMinute(start: int, end: int, n: nat)
    requires n > 0
    ensures DurationMinutes(Some(start), Some(end)) == Some(n) <==> 60_000 * n - 30_000 <= end - start < 60_000 * n + 30_000
    ensures DurationMinutes(Some(start), Some(end)).None? <==> end - start < 30_000
    ensures EndAfter(start, n) - start == 60_000 * n
  {
    var d := 2 * (end - start) + MINUTE_MS;
    assert d == 120_000 * (d / 120_000) + d % 120_000;
  }

  /**
    The end a form fills in: an hour after the start, or the last whole minute
    counted from the start that is still on its day in the event's zone.
   */
  method DefaultEnd(start: int, day: int -> int) returns (end: int)
    ensures exists k :: 0 <= k <= 60 && end == EndAfter(start, k) && day(end) == day(start) &&
                        forall j :: k < j <= 60 ==> day(EndAfter(start, j)) != day(start)
  {
    var hourLater := EndAfter(start, 60);
    if day(hourLater) == day(start) {
      return hourLater;
    }
    var t := hourLater;
    ghost var k := 60;
    while day(t) != day(start)
      invariant 0 <= k <= 60 && t == EndAfter(start, k)
      invariant forall j :: k < j <= 60 ==> day(EndAfter(start, j)) != day(start)
      decreases k
    {
      if k == 0 {
        assert false;
      }
      t := t - MINUTE_MS;
      k := k - 1;
    }
    end := t;
  }

  /**
    That end is after the start exactly when the start's next minute is still on
    its day: an event set to start in a day's last minute is given an end its
    times check refuses.
   */
  lemma DefaultEndIsLater(start: int, day: int -> int, k: int)
    requires 0 <= k <= 60 && day(EndAfter(start, k)) == day(start)
    requires forall j :: k < j <= 60 ==> day(EndAfter(start, j)) != day(start)
    requires forall a, b :: a <= b ==> day(a) <= day(b)
    ensures EndAfter(start, k) > start <==> day(EndAfter(start, 1)) == day(start)
  {
    if k > 0 {
      assert day(start) <= day(EndAfter(start, 1)) <= day(EndAfter(start, k));
    }
  }

  /** 23:59 in UTC: the one end the form can fill in is the start itself. */
  lemma LastMinuteEndsAtStart(k: int)
    ensures var day, start := (t: int) => t / 86_400_000, 86_340_000;
            0 <= k <= 60 && day(EndAfter(start, k)) == day(start) ==> EndAfter(start, k) == start
  {
    if 1 <= k <= 60 {
      assert EndAfter(86_340_000, k) / 86_400_000 == 1;
    }
  }
}
