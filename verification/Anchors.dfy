/**
  Official responses to one brief (packages/civic.brief/responses.ts), as the
  controller takes them one request at a time: which of them anchor a card in the
  feed, and when the page says the brief was answered.

  Times are milliseconds. The controller reads the clock to decide, and the
  database stamps the row when it stores it; the anchor rule compares the one with
  the other.
 */
module Anchors {
  import opened Wrappers
  import opened Text

  const FEED_ANCHOR_WINDOW: int := 86_400_000
  const RESPONSE_BODY_MAX: nat := 5000

  datatype Publication = Pending | Approved | Published

  datatype Row = Row(responder: string, body: string, createdAt: int, feedAnchor: bool)

  datatype Announced = Announced(responder: string, feedAnchor: bool)

  datatype Refusal = OfficialRequired | BriefNotFound | NotPublished | ResponseEmpty | ResponseTooLong | EventFailed

  /** One request: who asks about what, the clock when it decides and when it is stored,
      whether the anchor lookup answered and whether the event went out. */
  datatype Visit = Visit(
    official: bool, brief: Option<Publication>, responder: string, body: string,
    decided: int, stored: int, lookupAnswers: bool, eventGoesOut: bool)

  // ----- Who may respond, to what, with which words -----

  function RespondGate(official: bool, brief: Option<Publication>): Option<Refusal> {
    if !official then Some(OfficialRequired)
    else if brief.None? then Some(BriefNotFound)
    else if !brief.value.Published? then Some(NotPublished)
    else None
  }

  function NormalizeResponseBody(raw: string): Result<string, Refusal> {
    var body := Trim(raw);
    if body == "" then Err(ResponseEmpty)
    else if Length(body) > RESPONSE_BODY_MAX then Err(ResponseTooLong)
    else Ok(body)
  }

  /** An official, a published brief, and words, of at most 5000 characters once trimmed: nothing else is needed, and the first that fails is named. */
  lemma AcceptedIff(v: Visit)
    ensures Accepted(v) <==> v.official && v.brief == Some(Published) && Trim(v.body) != "" && Length(Trim(v.body)) <= 5000
    ensures RespondGate(v.official, v.brief) ==
            if !v.official then Some(OfficialRequired) else if v.brief == None then Some(BriefNotFound)
            else if v.brief != Some(Published) then Some(NotPublished) else None
    ensures NormalizeResponseBody(v.body) ==
            if Trim(v.body) == "" then Err(ResponseEmpty) else if Length(Trim(v.body)) > 5000 then Err(ResponseTooLong) else Ok(Trim(v.body))
  {
    hide Trim, Length;
  }

  predicate Accepted(v: Visit) {
    RespondGate(v.official, v.brief).None? && NormalizeResponseBody(v.body).Ok?
  }

  // ----- The rows a brief has after the visits it took -----

  /** The newest stamp among the anchored rows. */
  function LatestAnchorAt(rows: seq<Row>): Option<int> {
    if rows == [] then None
    else
      var earlier, last := LatestAnchorAt(rows[..|rows| - 1]), rows[|rows| - 1];
      if last.feedAnchor && (earlier.None? || earlier.value <= last.createdAt) then Some(last.createdAt) else earlier
  }

  predicate IsFeedAnchor(lastAnchorAt: Option<int>, now: int) {
    lastAnchorAt.None? || now - lastAnchorAt.value >= FEED_ANCHOR_WINDOW
  }

  function RowOf(rows: seq<Row>, v: Visit): Row
    requires Accepted(v)
  {
    var latest := if v.lookupAnswers then LatestAnchorAt(rows) else None;
    Row(v.responder, NormalizeResponseBody(v.body).value, v.stored, IsFeedAnchor(latest, v.decided))
  }

  predicate AllAccepted(ts: seq<Visit>) {
    forall i :: 0 <= i < |ts| ==> Accepted(ts[i])
  }

  function Rows(ts: seq<Visit>): (rows: seq<Row>)
    requires AllAccepted(ts)
    ensures |rows| == |ts|
  {
    if ts == [] then []
    else
      var rows := Rows(ts[..|ts| - 1]);
      rows + [RowOf(rows, ts[|ts| - 1])]
  }

  function Events(ts: seq<Visit>): seq<Announced>
    requires AllAccepted(ts)
  {
    if ts == [] then []
    else
      var v, earlier := ts[|ts| - 1], Events(ts[..|ts| - 1]);
      if v.eventGoesOut then earlier + [Announced(v.responder, Rows(ts)[|ts| - 1].feedAnchor)] else earlier
  }

  /** One visit more: one row more, and its event if it goes out. */
  lemma OneMore(ts: seq<Visit>, v: Visit)
    requires AllAccepted(ts) && Accepted(v)
    ensures AllAccepted(ts + [v])
    ensures Rows(ts + [v]) == Rows(ts) + [RowOf(Rows(ts), v)]
    ensures Events(ts + [v]) ==
            Events(ts) + if v.eventGoesOut then [Announced(v.responder, RowOf(Rows(ts), v).feedAnchor)] else []
  {
    assert (ts + [v])[..|ts|] == ts;
    hide RowOf, Accepted;
  }

  /** One request at a time: each is decided before it is stored, and stored before the next is decided. */
  predicate OneAtATime(ts: seq<Visit>) {
    && (forall i :: 0 <= i < |ts| ==> ts[i].decided <= ts[i].stored)
    && (forall i, j :: 0 <= i < j < |ts| ==> ts[i].stored <= ts[j].decided)
  }

  // ----- The brief's responses -----

  class Responses {
    var rows: seq<Row>
    var events: seq<Announced>
    ghost var taken: seq<Visit>

    ghost predicate Valid()
      reads this
    {
      AllAccepted(taken) && rows == Rows(taken) && events == Events(taken)
    }

    constructor ()
      ensures Valid() && taken == []
    {
      rows, events, taken := [], [], [];
    }

    /** Post a response: refused before anything is written, or stored, then announced. */
    method Post(v: Visit) returns (r: Result<Row, Refusal>)
      requires Valid()
      modifies this
      ensures Valid()
      ensures taken == if Accepted(v) then old(taken) + [v] else old(taken)
      ensures r.Ok? <==> Accepted(v) && v.eventGoesOut
      ensures Accepted(v) ==>
                && |rows| == |old(rows)| + 1 && rows[..|old(rows)|] == old(rows)
                && var row := rows[|old(rows)|];
                   && row.responder == v.responder && row.body == Trim(v.body) && row.createdAt == v.stored
                   && (r.Ok? ==> r.value == row && events == old(events) + [Announced(v.responder, row.feedAnchor)])
                   && (r.Err? ==> r.error.EventFailed? && events == old(events))
      ensures !Accepted(v) ==> rows == old(rows) && events == old(events)
      ensures !Accepted(v) ==> r == Err(if !v.official then OfficialRequired else if v.brief.None? then BriefNotFound
                                        else if v.brief != Some(Published) then NotPublished
                                        else if Trim(v.body) == "" then ResponseEmpty else ResponseTooLong)
    {
      hide Rows, Events, AllAccepted, LatestAnchorAt, NormalizeResponseBody, Trim, Length;
      AcceptedIff(v);
      var gate := RespondGate(v.official, v.brief);
      if gate.Some? {
        return Err(gate.value);
      }
      var body :- NormalizeResponseBody(v.body);
      var latest := None;
      if v.lookupAnswers {
        latest := NewestAnchor();
      }
      var row := Row(v.responder, body, v.stored, IsFeedAnchor(latest, v.decided));
      OneMore(taken, v);
      rows := rows + [row];
      taken := taken + [v];
      if !v.eventGoesOut {
        return Err(EventFailed);
      }
      events := events + [Announced(v.responder, row.feedAnchor)];
      return Ok(row);
    }

    /** The lookup: the anchored rows, newest first, the first of them. */
    method NewestAnchor() returns (latest: Option<int>)
      ensures latest == LatestAnchorAt(rows)
    {
      latest := None;
      var i := 0;
      while i < |rows|
        invariant 0 <= i <= |rows|
        invariant latest == LatestAnchorAt(rows[..i])
      {
        assert rows[..i + 1][..i] == rows[..i];
        if rows[i].feedAnchor && (latest.None? || latest.value <= rows[i].createdAt) {
          latest := Some(rows[i].createdAt);
        }
        i := i + 1;
      }
      assert rows[..i] == rows;
    }
  }

  // ----- Which responses anchor -----

  lemma {:induction false} RowsAt(ts: seq<Visit>, i: nat)
    requires AllAccepted(ts) && i < |ts|
    ensures Rows(ts)[..i] == Rows(ts[..i])
    ensures Rows(ts)[i] == RowOf(Rows(ts[..i]), ts[i])
    decreases |ts|
  {
    hide LatestAnchorAt, RespondGate, NormalizeResponseBody;
    var init := ts[..|ts| - 1];
    assert Rows(ts)[..|init|] == Rows(init);
    if i < |init| {
      RowsAt(init, i);
      assert init[..i] == ts[..i];
      assert Rows(ts)[..i] == Rows(init)[..i];
    }
  }

  /** The lookup finds the newest anchor's stamp. */
  lemma {:induction false} LatestIsNewest(rows: seq<Row>)
    ensures LatestAnchorAt(rows).None? <==> forall i :: 0 <= i < |rows| ==> !rows[i].feedAnchor
    ensures LatestAnchorAt(rows).Some? ==>
              exists i :: 0 <= i < |rows| && rows[i].feedAnchor && rows[i].createdAt == LatestAnchorAt(rows).value
    ensures LatestAnchorAt(rows).Some? ==>
              forall i :: 0 <= i < |rows| && rows[i].feedAnchor ==> rows[i].createdAt <= LatestAnchorAt(rows).value
  {
    if rows != [] {
      var init := rows[..|rows| - 1];
      LatestIsNewest(init);
      assert forall i :: 0 <= i < |init| ==> init[i] == rows[i];
    }
  }

  /** A row `i` that anchors and keeps response `j` out of the feed. */
  predicate Shadows(ts: seq<Visit>, i: nat, j: nat)
    requires AllAccepted(ts) && i < |ts| && j < |ts|
  {
    i < j && Rows(ts)[i].feedAnchor && ts[j].decided - ts[i].stored < FEED_ANCHOR_WINDOW
  }

  lemma StampedWhenStored(ts: seq<Visit>, i: nat)
    requires AllAccepted(ts) && i < |ts|
    ensures Rows(ts)[i].createdAt == ts[i].stored
  {
    RowsAt(ts, i);
  }

  /** A response anchors exactly when no earlier anchor is under a day old, or the lookup failed. */
  lemma AnchorsIff(ts: seq<Visit>, j: nat)
    requires AllAccepted(ts) && j < |ts|
    ensures Rows(ts)[j].feedAnchor <==> !ts[j].lookupAnswers || forall i :: 0 <= i < j ==> !Shadows(ts, i, j)
  {
    RowsAt(ts, j);
    var before := Rows(ts[..j]);
    LatestIsNewest(before);
    forall i | 0 <= i < j
      ensures before[i] == Rows(ts)[i] && before[i].createdAt == ts[i].stored
    {
      assert before[i] == Rows(ts)[..j][i];
      StampedWhenStored(ts, i);
    }
    var latest := LatestAnchorAt(before);
    if latest.Some? && ts[j].decided - latest.value < FEED_ANCHOR_WINDOW {
      var i :| 0 <= i < |before| && before[i].feedAnchor && before[i].createdAt == latest.value;
      assert Shadows(ts, i, j);
    }
  }

  /** While lookups answer, two anchors are stored at least a day apart. */
  lemma {:induction false} AnchorsApart(ts: seq<Visit>, i: nat, j: nat)
    requires AllAccepted(ts) && OneAtATime(ts) && i < j < |ts|
    requires Rows(ts)[i].feedAnchor && Rows(ts)[j].feedAnchor && ts[j].lookupAnswers
    ensures Rows(ts)[j].createdAt - Rows(ts)[i].createdAt >= 86_400_000
  {
    AnchorsIff(ts, j);
    StampedWhenStored(ts, i);
    StampedWhenStored(ts, j);
    assert !Shadows(ts, i, j);
  }

  /** A response out of the feed has an anchor stored less than a day before it was decided. */
  lemma UnanchoredIsCovered(ts: seq<Visit>, j: nat) returns (i: nat)
    requires AllAccepted(ts) && OneAtATime(ts) && j < |ts| && !Rows(ts)[j].feedAnchor
    ensures i < j && Rows(ts)[i].feedAnchor
    ensures 0 <= ts[j].decided - Rows(ts)[i].createdAt < 86_400_000
  {
    AnchorsIff(ts, j);
    i :| 0 <= i < j && Shadows(ts, i, j);
    StampedWhenStored(ts, i);
  }

  /** No anchor of the brief was decided under a day after an earlier one was stored. */
  predicate AllApart(ts: seq<Visit>)
    requires AllAccepted(ts)
  {
    forall i, j :: 0 <= i < j < |ts| && Rows(ts)[i].feedAnchor && Rows(ts)[j].feedAnchor ==> !Shadows(ts, i, j)
  }

  /** No lookup fails while an anchor is under a day old. */
  predicate FailsOnlyInTheOpen(ts: seq<Visit>)
    requires AllAccepted(ts)
  {
    forall i, j :: 0 <= i < j < |ts| && !ts[j].lookupAnswers ==> !Shadows(ts, i, j)
  }

  /** A run's anchors are so apart exactly when no lookup failed while an anchor was under a day old. */
  lemma AllApartIff(ts: seq<Visit>)
    requires AllAccepted(ts)
    ensures AllApart(ts) <==> FailsOnlyInTheOpen(ts)
  {
    forall i, j | 0 <= i < j < |ts| && Shadows(ts, i, j)
      ensures Rows(ts)[j].feedAnchor <==> !ts[j].lookupAnswers
    {
      AnchorsIff(ts, j);
    }
    hide Rows;
  }

  /** No two anchors of the brief were stored under a day apart. */
  predicate StampsApart(ts: seq<Visit>)
    requires AllAccepted(ts)
  {
    forall i, j :: 0 <= i < j < |ts| && Rows(ts)[i].feedAnchor && Rows(ts)[j].feedAnchor ==>
      Rows(ts)[j].createdAt - Rows(ts)[i].createdAt >= FEED_ANCHOR_WINDOW
  }

  /** By their stamps they are a day apart exactly when no response whose lookup failed was stored under a day after an anchor. */
  lemma StampsApartIff(ts: seq<Visit>)
    requires AllAccepted(ts) && OneAtATime(ts)
    ensures StampsApart(ts) <==>
            forall i, j :: 0 <= i < j < |ts| && Rows(ts)[i].feedAnchor && !ts[j].lookupAnswers ==>
              ts[j].stored - ts[i].stored >= FEED_ANCHOR_WINDOW
  {
    hide Rows, AllAccepted;
    forall i, j | 0 <= i < j < |ts| && Rows(ts)[i].feedAnchor
      ensures !ts[j].lookupAnswers ==> Rows(ts)[j].feedAnchor
      ensures Rows(ts)[j].feedAnchor && ts[j].lookupAnswers ==> ts[j].stored - ts[i].stored >= FEED_ANCHOR_WINDOW
      ensures Rows(ts)[i].createdAt == ts[i].stored && Rows(ts)[j].createdAt == ts[j].stored
    {
      AnchorsIff(ts, j);
      StampedWhenStored(ts, i);
      StampedWhenStored(ts, j);
      assert Shadows(ts, i, j) <==> ts[j].decided - ts[i].stored < FEED_ANCHOR_WINDOW;
    }
  }

  /** A failed lookup puts two cards a minute apart in the feed. */
  lemma FailedLookupAnchorsAgain(who: string)
    ensures var v := Visit(true, Some(Published), who, "Noted", 0, 0, true, true);
            var ts := [v, v.(decided := 60_000, stored := 60_000, lookupAnswers := false)];
            AllAccepted(ts) && OneAtATime(ts) && Rows(ts)[0].feedAnchor && Rows(ts)[1].feedAnchor
  {
    var v := Visit(true, Some(Published), who, "Noted", 0, 0, true, true);
    var ts := [v, v.(decided := 60_000, stored := 60_000, lookupAnswers := false)];
    NotedIsAccepted(v);
    AnchorsIff(ts, 0);
    AnchorsIff(ts, 1);
  }

  lemma NotedIsAccepted(v: Visit)
    requires v.official && v.brief == Some(Published) && v.body == "Noted"
    ensures Accepted(v)
  {
    TrimIsTrimmed("Noted");
    assert Length("Noted") == 5 by {
      assert Length("ted") == 3;
    }
  }

  // ----- The greedy choice is the largest -----

  function AnchorCount(rows: seq<Row>): nat {
    if rows == [] then 0 else AnchorCount(rows[..|rows| - 1]) + if rows[|rows| - 1].feedAnchor then 1 else 0
  }

  /** A choice of responses, each decided at least a day after the one chosen before it was stored. */
  predicate Spaced(ts: seq<Visit>, chosen: seq<nat>) {
    && (forall k :: 0 <= k < |chosen| ==> chosen[k] < |ts|)
    && (forall k :: 0 < k < |chosen| ==>
          chosen[k - 1] < chosen[k] && ts[chosen[k]].decided - ts[chosen[k - 1]].stored >= FEED_ANCHOR_WINDOW)
  }

  lemma {:induction false} CountGrows(rows: seq<Row>, a: nat, b: nat)
    requires a <= b <= |rows|
    ensures AnchorCount(rows[..a]) <= AnchorCount(rows[..b])
    ensures (exists i :: a <= i < b && rows[i].feedAnchor) ==> AnchorCount(rows[..a]) < AnchorCount(rows[..b])
    decreases b
  {
    if a < b {
      assert rows[..b][..b - 1] == rows[..b - 1];
      CountGrows(rows, a, b - 1);
    }
  }

  /** The anchor at a response, or the one that keeps it out of the feed. */
  lemma CoveredBy(ts: seq<Visit>, j: nat) returns (i: nat)
    requires AllAccepted(ts) && OneAtATime(ts) && j < |ts|
    ensures i <= j && Rows(ts)[i].feedAnchor
    ensures i == j || ts[j].decided - ts[i].stored < FEED_ANCHOR_WINDOW
  {
    if Rows(ts)[j].feedAnchor {
      i := j;
    } else {
      i := UnanchoredIsCovered(ts, j);
      StampedWhenStored(ts, i);
    }
  }

  lemma {:induction false} SpacedUpTo(ts: seq<Visit>, chosen: seq<nat>, k: nat)
    requires AllAccepted(ts) && OneAtATime(ts) && Spaced(ts, chosen) && k < |chosen|
    ensures k + 1 <= AnchorCount(Rows(ts)[..chosen[k] + 1])
    decreases k
  {
    hide AllAccepted, Rows, AnchorCount;
    var rows := Rows(ts);
    var i := CoveredBy(ts, chosen[k]);
    if k == 0 {
      CountGrows(rows, 0, chosen[0] + 1);
    } else {
      SpacedUpTo(ts, chosen, k - 1);
      assert chosen[k - 1] < i;
      CountGrows(rows, chosen[k - 1] + 1, chosen[k] + 1);
    }
  }

  /** No choice of responses spaced a day apart outnumbers the anchors, whether or not lookups answered. */
  lemma GreedyIsLargest(ts: seq<Visit>, chosen: seq<nat>)
    requires AllAccepted(ts) && OneAtATime(ts) && Spaced(ts, chosen)
    ensures |chosen| <= AnchorCount(Rows(ts))
  {
    if chosen != [] {
      var k := |chosen| - 1;
      SpacedUpTo(ts, chosen, k);
      CountGrows(Rows(ts), chosen[k] + 1, |ts|);
      assert Rows(ts)[..|ts|] == Rows(ts);
    }
  }

  /** The positions of the anchors, in order. */
  function AnchorsOf(rows: seq<Row>): (chosen: seq<nat>)
    ensures |chosen| == AnchorCount(rows)
    ensures forall k :: 0 <= k < |chosen| ==> chosen[k] < |rows| && rows[chosen[k]].feedAnchor
    ensures forall k, l :: 0 <= k < l < |chosen| ==> chosen[k] < chosen[l]
  {
    if rows == [] then []
    else
      var last := |rows| - 1;
      var earlier := AnchorsOf(rows[..last]);
      assert forall k :: 0 <= k < |earlier| ==> rows[..last][earlier[k]] == rows[earlier[k]];
      if rows[last].feedAnchor then earlier + [last] else earlier
  }

  /** The anchors are such a choice themselves, and so a largest one, when no lookup failed under a day-old anchor. */
  lemma {:induction false} AnchorsAreSpaced(ts: seq<Visit>)
    requires AllAccepted(ts) && FailsOnlyInTheOpen(ts)
    ensures Spaced(ts, AnchorsOf(Rows(ts)))
  {
    var chosen := AnchorsOf(Rows(ts));
    AllApartIff(ts);
    forall k | 0 < k < |chosen|
      ensures chosen[k - 1] < chosen[k] && ts[chosen[k]].decided - ts[chosen[k - 1]].stored >= FEED_ANCHOR_WINDOW
    {
      assert !Shadows(ts, chosen[k - 1], chosen[k]);
    }
  }

  // ----- By stamps alone -----

  /** A choice of responses stored a day apart. */
  predicate StampSpaced(ts: seq<Visit>, chosen: seq<nat>) {
    && (forall k :: 0 <= k < |chosen| ==> chosen[k] < |ts|)
    && (forall k :: 0 < k < |chosen| ==>
          chosen[k - 1] < chosen[k] && ts[chosen[k]].stored - ts[chosen[k - 1]].stored >= FEED_ANCHOR_WINDOW)
  }

  /** No response is decided under a day after another and stored a day after it. */
  predicate NoneStraddles(ts: seq<Visit>) {
    forall i, j :: 0 <= i < j < |ts| && ts[j].stored - ts[i].stored >= FEED_ANCHOR_WINDOW ==>
      ts[j].decided - ts[i].stored >= FEED_ANCHOR_WINDOW
  }

  /** Where no response straddles the day, no choice spaced by its stamps outnumbers the anchors either. */
  lemma GreedyIsLargestByStamps(ts: seq<Visit>, chosen: seq<nat>)
    requires AllAccepted(ts) && OneAtATime(ts) && NoneStraddles(ts) && StampSpaced(ts, chosen)
    ensures |chosen| <= AnchorCount(Rows(ts))
  {
    hide AllAccepted, Rows, OneAtATime, AnchorCount;
    GreedyIsLargest(ts, chosen);
  }

  /** Where one does, the greedy choice may be beaten: decided just under a day after, stored a day after. */
  lemma SlowWriteBeatsGreedy(who: string)
    ensures var v := Visit(true, Some(Published), who, "Noted", 0, 0, true, true);
            var ts := [v, v.(decided := FEED_ANCHOR_WINDOW - 1, stored := FEED_ANCHOR_WINDOW)];
            AllAccepted(ts) && OneAtATime(ts) && StampSpaced(ts, [0, 1]) && AnchorCount(Rows(ts)) == 1
  {
    var v := Visit(true, Some(Published), who, "Noted", 0, 0, true, true);
    var ts := [v, v.(decided := FEED_ANCHOR_WINDOW - 1, stored := FEED_ANCHOR_WINDOW)];
    NotedIsAccepted(v);
    AnchorsIff(ts, 0);
    AnchorsIff(ts, 1);
    assert Shadows(ts, 0, 1);
    var rows := Rows(ts);
    assert rows[..1][..0] == [] && AnchorCount(rows[..1]) == 1;
    hide Rows, Trim, Length;
  }

  // ----- Awaiting, then responded -----

  datatype Status = Awaiting | Responded(at: int, count: nat)

  /** What the page's status line must say: the date of the earliest row, and how many there are. */
  predicate StatusOf(rows: seq<Row>, s: Status) {
    if rows == [] then s.Awaiting?
    else
      && s.Responded? && s.count == |rows|
      && (exists i :: 0 <= i < |rows| && rows[i].createdAt == s.at)
      && (forall i :: 0 <= i < |rows| ==> s.at <= rows[i].createdAt)
  }

  /** One pass over the rows, in whatever order they came. */
  method ResponseStatus(rows: seq<Row>) returns (s: Status)
    ensures StatusOf(rows, s)
  {
    if rows == [] {
      return Awaiting;
    }
    var earliest := rows[0].createdAt;
    var i := 0;
    while i < |rows|
      invariant 0 <= i <= |rows|
      invariant exists j :: 0 <= j < |rows| && rows[j].createdAt == earliest
      invariant forall j :: 0 <= j < i ==> earliest <= rows[j].createdAt
    {
      if rows[i].createdAt < earliest {
        earliest := rows[i].createdAt;
      }
      i := i + 1;
    }
    return Responded(earliest, |rows|);
  }

  /** Once responded, later responses never move the date: it is the first one's, and only the count grows. */
  lemma {:induction false} FirstResponseStands(ts: seq<Visit>, more: seq<Visit>, before: Status, after: Status)
    requires AllAccepted(ts + more) && OneAtATime(ts + more) && ts != []
    requires AllAccepted(ts) && StatusOf(Rows(ts), before) && StatusOf(Rows(ts + more), after)
    ensures before.at == after.at == ts[0].stored
    ensures after.count == before.count + |more|
  {
    assert forall i :: 0 <= i < |ts| ==> ts[i] == (ts + more)[i];
    FirstIsEarliest(ts, before);
    FirstIsEarliest(ts + more, after);
  }

  lemma FirstIsEarliest(ts: seq<Visit>, s: Status)
    requires AllAccepted(ts) && OneAtATime(ts) && ts != [] && StatusOf(Rows(ts), s)
    ensures s.at == ts[0].stored
  {
    forall i | 0 <= i < |ts|
      ensures Rows(ts)[i].createdAt == ts[i].stored && ts[0].stored <= ts[i].stored
    {
      StampedWhenStored(ts, i);
    }
  }
}
