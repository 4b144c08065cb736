/**
  What the handler refuses, what each action leaves behind it once it lands, and
  what an edit says it changed (packages/civic.event/handler.ts, manifest.ts;
  src/services/processEdits.ts), with the limits written out.
 */
module EventActions {
  import opened Wrappers
  import opened Text
  import opened EventData
  import opened EventMachine
  import opened EventRuns
  import Json

  // ----- Refusals -----

  /** A reason over 500 characters, a full event, a message without its words or with too many: nothing else. */
  lemma RefusedIff(pid: string, p: Process, going: seq<string>, limit: Option<nat>, action: Action)
    ensures var r := Handle(pid, p, going, limit, action);
            match action
            case Cancel(text, _) => (r == Err(TooLong) <==> Length(Trim(text)) > 500) && (r.Ok? <==> Length(Trim(text)) <= 500)
            case Going(account) =>
              var full := account !in going && limit.Some? && limit.value <= |going|;
              (r == Err(EventFull) <==> full) && (r.Ok? <==> !full)
            case Announce(_, subject, message) =>
              var badSubject := Trim(subject) == "" || Length(Trim(subject)) > 120;
              var badMessage := Trim(message) == "" || Length(Trim(message)) > 2000;
              && (r == Err(SubjectInvalid) <==> badSubject) && (r == Err(MessageInvalid) <==> !badSubject && badMessage)
              && (r.Ok? <==> !badSubject && !badMessage)
            case _ => r.Ok?
  {
    hide Trim, Length, Remove;
  }

  /** What the handler accepts lands, if its write does, from pending review for a publication and from active for the rest; in production from anywhere. */
  lemma LandsIff(s: State, pid: string, action: Action, how: Dispatch)
    ensures Takes(s, pid, action, how) <==>
            && pid in s.processes && Handle(pid, s.processes[pid], GoingTo(s, pid), LimitOf(s.rows, pid), action).Ok?
            && how.commit
            && (how.production || (if action.Publish? then s.processes[pid].status == PendingReview else s.processes[pid].status == Active))
  {
    hide Handle;
  }

  // ----- What an action leaves -----

  /** The people going who did not send the message, by their places in the list. */
  function OthersGoing(accounts: seq<string>, sender: string): set<nat> {
    set i: nat | i < |accounts| && accounts[i] != sender
  }

  lemma {:induction false} RemoveCounts(accounts: seq<string>, account: string)
    ensures |Remove(accounts, account)| == |OthersGoing(accounts, account)|
    ensures forall other :: other in Remove(accounts, account) <==> other in accounts && other != account
  {
    if accounts != [] {
      RemoveCounts(accounts[1..], account);
      OthersShift(accounts, account);
    }
  }

  lemma OthersShift(accounts: seq<string>, sender: string)
    requires accounts != []
    ensures |OthersGoing(accounts, sender)| == |OthersGoing(accounts[1..], sender)| + if accounts[0] == sender then 0 else 1
  {
    var rest := OthersGoing(accounts[1..], sender);
    var shifted := set i | i in rest :: i + 1;
    ShiftKeepsSize(rest, shifted);
    forall i: nat | i < |accounts| && i > 0
      ensures i in OthersGoing(accounts, sender) <==> i in shifted
    {
      assert accounts[i] == accounts[1..][i - 1];
      assert i - 1 in rest <==> i in shifted;
    }
    assert OthersGoing(accounts, sender) == shifted + if accounts[0] == sender then {} else {0};
  }

  lemma {:induction false} ShiftKeepsSize(s: set<nat>, shifted: set<nat>)
    requires shifted == set i | i in s :: i + 1
    ensures |shifted| == |s| && 0 !in shifted
    decreases |s|
  {
    if s != {} {
      var i :| i in s;
      var rest := set j | j in s - {i} :: j + 1;
      forall x ensures x in rest <==> x in shifted - {i + 1} {
        if x in shifted - {i + 1} {
          var j :| j in s && x == j + 1;
          assert j in s - {i};
        }
      }
      ShiftKeepsSize(s - {i}, rest);
      assert rest == shifted - {i + 1};
    }
  }

  /**
    An action that lands: a publication makes the event active, a cancellation closes it and keeps its reason and
    time, closing closes it; each is recorded as what it was, and queues its row and the message it sends. Going
    and the rest leave the process and its row alone.
   */
  lemma WhatActionsLeave(s: State, pid: string, action: Action, how: Dispatch)
    requires Takes(s, pid, action, how)
    ensures pid in Attempt(s, pid, action, how).processes
    ensures var t := Attempt(s, pid, action, how);
            var p, q := s.processes[pid], t.processes[pid];
            match action
            case Publish =>
              q == p.(status := Active) && t.records == s.records + [Published(pid)] && t.hooks == s.hooks + [Index(pid, q)]
            case Cancel(text, at) =>
              && q == p.(status := Closed, state := p.state.(cancelled := Some(Cancellation(at, Trim(text)))))
              && t.records == s.records + [Cancelled(pid, Trim(text))]
              && t.hooks == s.hooks + [Index(pid, q), TellGoing(pid, true)]
            case Close =>
              q == p.(status := Closed) && t.records == s.records + [Ended(pid)] && t.hooks == s.hooks
            case Announce(sender, _, _) =>
              && q == p && t.records == s.records + [Announced(pid, |OthersGoing(GoingTo(s, pid), sender)|)]
              && t.hooks == s.hooks + [TellGoing(pid, false)]
            case Going(account) =>
              && q == p && t.hooks == s.hooks
              && GoingTo(t, pid) == GoingTo(s, pid) + (if account in GoingTo(s, pid) then [] else [account])
              && t.records == s.records + (if account in GoingTo(s, pid) then [] else [Join(pid, account, |GoingTo(t, pid)|)])
            case NotGoing(account) =>
              && q == p && t.hooks == s.hooks && account !in GoingTo(t, pid)
              && (forall other :: other != account ==> (other in GoingTo(t, pid) <==> other in GoingTo(s, pid)))
              && t.records == s.records + (if account in GoingTo(s, pid) then [Leave(pid, account, |GoingTo(t, pid)|)] else [])
  {
    hide Trim, Length, Remove, Lands, OthersGoing;
    match action
    case Announce(sender, _, _) =>
      RemoveCounts(GoingTo(s, pid), sender);
    case NotGoing(account) =>
      RemoveCounts(GoingTo(s, pid), account);
    case _ =>
  }

  /** The row of a cancellation thrown away takes the message to those going with it; run, it leaves the message to be sent. */
  lemma LostRowLosesTheMessage(s: State, pid: string, text: string, at: int, how: Dispatch)
    requires Takes(s, pid, Cancel(text, at), how) && s.hooks == []
    ensures var t := Attempt(s, pid, Cancel(text, at), how);
            HookFails(t).hooks == [] && RunHook(t).hooks == [TellGoing(pid, true)] && HookFails(RunHook(t)).hooks == []
  {
    WhatActionsLeave(s, pid, Cancel(text, at), how);
    var t := Attempt(s, pid, Cancel(text, at), how);
    hide Attempt, Takes, Trim, RowOf, Upsert;
    assert [Index(pid, t.processes[pid]), TellGoing(pid, true)][1..] == [TellGoing(pid, true)];
    assert [TellGoing(pid, true)][1..] == [];
  }

  // ----- What an edit says it changed -----

  /** A field is named exactly when the flag of its place is up. */
  lemma EightNames(a: bool, b: bool, c: bool, d: bool, e: bool, f: bool, g: bool, h: bool, name: string)
    ensures name in Named(a, "title") + Named(b, "description") + Named(c, "start_time") + Named(d, "end_time")
                    + Named(e, "location") + Named(f, "time_zone") + Named(g, "image") + Named(h, "capacity") <==>
            || (a && name == "title") || (b && name == "description") || (c && name == "start_time") || (d && name == "end_time")
            || (e && name == "location") || (f && name == "time_zone") || (g && name == "image") || (h && name == "capacity")
  {
    hide Named;
    var two := Named(a, "title") + Named(b, "description");
    var four := two + Named(c, "start_time") + Named(d, "end_time");
    var six := four + Named(e, "location") + Named(f, "time_zone");
    NamedIff([], a, "title", name);
    assert [] + Named(a, "title") == Named(a, "title");
    NamedIff(Named(a, "title"), b, "description", name);
    NamedIff(two, c, "start_time", name);
    NamedIff(two + Named(c, "start_time"), d, "end_time", name);
    NamedIff(four, e, "location", name);
    NamedIff(four + Named(e, "location"), f, "time_zone", name);
    NamedIff(six, g, "image", name);
    NamedIff(six + Named(g, "image"), h, "capacity", name);
  }

  lemma NamedIff(fields: seq<string>, differs: bool, field: string, name: string)
    ensures name in fields + Named(differs, field) <==> name in fields || (differs && name == field)
  {
  }

  /**
    An edit names its fields: a time, a zone or a limit when it is given another value; a place whenever one is
    given, a picture unless there was none and is none, because neither ever reads as the one stored; and words
    when they differ in more than markup and spacing.
   */
  lemma EditNamesIff(p: Process, e: Edit, name: string)
    ensures name in ChangedFields(p, e) <==>
            || (name == "title" && e.title.Some? && MeansOther(e.wording, e.title.value, p.title))
            || (name == "description" && e.description.Some? && MeansOther(e.wording, e.description.value, p.description))
            || (name == "start_time" && e.start.Some? && e.start.value != p.state.start)
            || (name == "end_time" && e.end.Some? && e.end.value != p.state.end)
            || (name == "location" && e.location.Some?)
            || (name == "time_zone" && e.timeZone.Some? && e.timeZone.value != p.state.timeZone)
            || (name == "image" && e.image.Some? && (e.image.value.Some? || p.state.image.Some?))
            || (name == "capacity" && e.capacity.Some? && e.capacity.value != p.state.capacity)
  {
    hide Trim, Json.Alike, LocationJson, ImageJson, Named;
    if e.location.Some? {
      LocationNeverAlike(p.state.location, e.location.value);
    }
    if e.image.Some? {
      PicturesAlikeIff(p.state.image, e.image.value);
    }
    EightNames(Reworded(e.title, p.title, e.wording.substanceOf), Reworded(e.description, p.description, e.wording.substanceOf),
               Differs(e.start, p.state.start), Differs(e.end, p.state.end), LocationDiffers(e.location, p.state.location),
               Differs(e.timeZone, p.state.timeZone), ImageDiffers(e.image, p.state.image), Differs(e.capacity, p.state.capacity), name);
  }

  /** Two texts that differ once trimmed, and in more than their markup. */
  predicate MeansOther(wording: Wording, a: string, b: string) {
    Trim(a) != Trim(b) && wording.substanceOf(Trim(a)) != wording.substanceOf(Trim(b))
  }

  /** The words are saved trimmed when trimming leaves them different, whether or not the edit names them; else they stay as they were. */
  lemma WordsSaved(p: Process, e: Edit)
    ensures var q := Edited(p, e);
            && q.title == (if e.title.Some? && Trim(e.title.value) != Trim(p.title) then Trim(e.title.value) else p.title)
            && q.description ==
               (if e.description.Some? && Trim(e.description.value) != Trim(p.description) then Trim(e.description.value) else p.description)
            && q.status == p.status && q.previous == p.previous && q.state.cancelled == p.state.cancelled
  {
    hide Trim;
  }

  /** A time zone as it is read: its own, and where it has none the other's; UTC where neither has one. */
  function ZoneOf(own: Option<string>, other: Option<string>): string {
    if own.Some? then own.value else if other.Some? then other.value else "UTC"
  }

  /** Those going are told of an edit exactly when it gives a place, moves a start or an end, or its zone makes the time read otherwise. */
  lemma ToldOfIff(pid: string, p: Process, e: Edit)
    ensures var now := Edited(p, e).state;
            ChangeTold(pid) in EditTrail(pid, p, e) <==>
            || e.location.Some? || now.start != p.state.start || now.end != p.state.end
            || e.wording.whenText(p.state.start, p.state.end, ZoneOf(p.state.timeZone, now.timeZone))
               != e.wording.whenText(now.start, now.end, ZoneOf(now.timeZone, p.state.timeZone))
  {
    if e.location.Some? {
      LocationNeverAlike(p.state.location, e.location.value);
    }
    hide Json.Alike, LocationJson, ChangedFields, NewText;
    InTrail(pid, p, e);
    hide EditTrail;
  }

  lemma InTrail(pid: string, p: Process, e: Edit)
    ensures ChangeTold(pid) in EditTrail(pid, p, e) <==> TellsChange(p, e)
  {
    hide ChangedFields, TellsChange;
  }

  // ----- The words an event reads by -----

  /** Cancelled if it was cancelled, else past if it is closed, else scheduled. */
  lemma WordIff(p: Process)
    ensures WordOf(p) == CancelledWord <==> p.state.cancelled.Some?
    ensures WordOf(p) == Past <==> p.state.cancelled.None? && p.status == Closed
    ensures WordOf(p) == Scheduled <==> p.state.cancelled.None? && p.status != Closed
  {
  }
}
