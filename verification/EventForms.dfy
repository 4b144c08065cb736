/**
  Where an event's words, times and place come from: drafts written field by field
  (packages/civic.event/draftKind.ts), submitted, revised or saved over a live event
  through the hub's edit path. Nothing else makes or changes them.
 */
module EventForms {
  import opened Wrappers
  import opened Text
  import opened EventData
  import opened EventMachine
  import opened EventDraft
  import opened EventRuns
  import Json

  // ----- A draft -----

  const BLANK: Draft := Draft("", "", None, None, Where(None, None, None, None, None, None, None), None, None, None, None)

  /** One field as the form sends it. */
  datatype Field =
    | Title(text: string) | Description(text: string)
    | Start(at: Option<int>) | End(at: Option<int>)
    | Venue(value: Option<string>) | Street(value: Option<string>) | Locality(value: Option<string>)
    | Region(value: Option<string>) | PostalCode(value: Option<string>) | Country(value: Option<string>)
    | OnlineUrl(value: Option<string>) | TimeZone(value: Option<string>)
    | ImageUrl(value: Option<string>) | ImageAlt(value: Option<string>) | Capacity(number: Option<int>)

  function TextField(v: Option<string>, max: nat): Result<Option<string>, EventDraft.Error> {
    var s :- CheckText(v, max);
    Ok(if s == "" then None else Some(s))
  }

  /** The column a field is stored in, after its check; a link is stored as it is written out. */
  function Write(rt: Runtime, d: Draft, f: Field): Result<Draft, EventDraft.Error> {
    match f
    case Title(text) => Ok(d.(title := text))
    case Description(text) => Ok(d.(description := text))
    case Start(at) => Ok(d.(start := at))
    case End(at) => Ok(d.(end := at))
    case Venue(v) => var s :- TextField(v, VENUE_MAX); Ok(d.(place := d.place.(venue := s)))
    case Street(v) => var s :- TextField(v, ADDRESS_FIELD_MAX); Ok(d.(place := d.place.(street := s)))
    case Locality(v) => var s :- TextField(v, ADDRESS_FIELD_MAX); Ok(d.(place := d.place.(locality := s)))
    case Region(v) => var s :- TextField(v, ADDRESS_FIELD_MAX); Ok(d.(place := d.place.(region := s)))
    case PostalCode(v) => var s :- TextField(v, ADDRESS_FIELD_MAX); Ok(d.(place := d.place.(postalCode := s)))
    case Country(v) => var s :- TextField(v, ADDRESS_FIELD_MAX); Ok(d.(place := d.place.(country := s)))
    case OnlineUrl(v) => var href :- OnlineLink(rt, v); Ok(d.(place := d.place.(onlineUrl := href)))
    case TimeZone(v) => var z :- TimeZoneOf(rt, v); Ok(d.(timeZone := z))
    case ImageUrl(v) =>
      var image :- ImageOf(rt, v, Some(""));
      Ok(d.(imageUrl := if image.Some? then Some(image.value.url) else None))
    case ImageAlt(v) => var s :- TextField(v, ALT_MAX); Ok(d.(imageAlt := s))
    case Capacity(v) =>
      var n :- CapacityOf(v);
      Ok(d.(capacity := if n.Some? then Some(n.value) else None))
  }

  /** A required field is missing, or the name is too long. */
  predicate Missing(d: Draft) {
    || Trim(d.title) == "" || Length(Trim(d.title)) > TITLE_MAX || d.start.None? || d.end.None?
    || (d.place.venue.None? && d.place.onlineUrl.None?)
  }

  /** What submitting a draft asks for, read from its columns. */
  function Submitted(rt: Runtime, d: Draft, now: int): Option<Submission> {
    var read := ReadDraft(d);
    if Missing(read) || Build(rt, read, now).Err? then None else Some(Build(rt, read, now).value)
  }

  /** The edit a submission asks for: null, not left out, where the picture or the limit is cleared. */
  function EditOf(rt: Runtime, s: Submission): Edit {
    Edit(Some(s.title), Some(s.description), Some(s.state.start), Some(s.state.end), Some(s.state.location),
         Some(s.state.timeZone), Some(s.state.image), Some(s.state.capacity), rt.wording)
  }

  // ----- The office: every draft and the hub -----

  datatype Office = Office(drafts: map<string, Draft>, hub: State)

  const OPENING: Office := Office(map[], EMPTY)

  datatype Deed =
    | NewDraft(id: string)
    | WriteField(id: string, field: Field)
    | SubmitDraft(id: string, pid: string, now: int, later: int)
    | ReviseDraft(id: string, pid: string, now: int, later: int)
    | OpenDraft(id: string, pid: string)
    | SaveDraft(id: string, pid: string, now: int, reach: Reach)
    | Moves(step: Step)

  /** The hub's other steps: actions, their queued work, archiving and restoring. */
  predicate OnlyMoves(step: Step) {
    step.Acts? || step.Hooks? || step.HooksFail? || step.Archives? || step.Restores?
  }

  /** The state a submission brings into being, checked once more. */
  function Made(rt: Runtime, o: Office, id: string, now: int, later: int): Option<(Submission, EventState)> {
    if id !in o.drafts || Submitted(rt, o.drafts[id], now).None? then None
    else
      var s := Submitted(rt, o.drafts[id], now).value;
      var state := InitializeState(rt, s.state, later);
      if state.Err? then None else Some((s, state.value))
  }

  function Do(rt: Runtime, o: Office, deed: Deed): Office {
    match deed
    case NewDraft(id) => o.(drafts := o.drafts[id := BLANK])
    case WriteField(id, field) =>
      if id in o.drafts && Write(rt, o.drafts[id], field).Ok? then o.(drafts := o.drafts[id := Write(rt, o.drafts[id], field).value])
      else o
    case SubmitDraft(id, pid, now, later) =>
      var made := Made(rt, o, id, now, later);
      if made.None? then o
      else o.(hub := Submit(o.hub, pid, made.value.0.title, made.value.0.description, made.value.1))
    case ReviseDraft(id, pid, now, later) =>
      var made := Made(rt, o, id, now, later);
      if made.None? then o
      else o.(hub := Revise(o.hub, pid, made.value.0.title, made.value.0.description, made.value.1))
    case OpenDraft(id, pid) =>
      if pid !in o.hub.processes then o
      else
        var p := o.hub.processes[pid];
        o.(drafts := o.drafts[id := DraftColumns(p.title, p.description, p.state)])
    case SaveDraft(id, pid, now, reach) =>
      if id !in o.drafts || Submitted(rt, o.drafts[id], now).None? then o
      else o.(hub := ApplyEdit(o.hub, pid, EditOf(rt, Submitted(rt, o.drafts[id], now).value), reach))
    case Moves(step) => if OnlyMoves(step) then o.(hub := Next(o.hub, step)) else o
  }

  function AfterAll(rt: Runtime, deeds: seq<Deed>): Office
    decreases |deeds|
  {
    if deeds == [] then OPENING else Do(rt, AfterAll(rt, deeds[..|deeds| - 1]), deeds[|deeds| - 1])
  }

  // ----- What every draft and every event keeps -----

  /** The link a draft holds is written out. */
  predicate Written(rt: Runtime, d: Draft) {
    d.place.onlineUrl.Some? ==> GoodLink(rt, d.place.onlineUrl.value)
  }

  /** Words trimmed and within bounds, and a state that passes its checks again. */
  predicate Kept(rt: Runtime, title: string, description: string, s: EventState) {
    && Trimmed(title) && title != "" && Length(title) <= TITLE_MAX && Trimmed(description)
    && Good(rt, s) && Rechecks(s.location)
  }

  ghost predicate InOrder(rt: Runtime, o: Office) {
    && (forall id :: id in o.drafts ==> Written(rt, o.drafts[id]))
    && (forall pid :: pid in o.hub.processes ==>
          Kept(rt, o.hub.processes[pid].title, o.hub.processes[pid].description, o.hub.processes[pid].state))
  }

  lemma BlankIsWritten(rt: Runtime)
    ensures Written(rt, BLANK)
  {
  }

  lemma WriteKeepsWritten(rt: Runtime, d: Draft, f: Field)
    requires Normal(rt) && Written(rt, d) && Write(rt, d, f).Ok?
    ensures Written(rt, Write(rt, d, f).value)
  {
    hide CheckText, TimeZoneOf, ImageOf, CapacityOf, Trim, Trimmed;
  }

  /** A written link reads back as itself, so what is built from it is no longer than a link may be typed. */
  lemma BuiltRechecks(rt: Runtime, d: Draft, now: int)
    requires Normal(rt) && Written(rt, d) && Build(rt, ReadDraft(d), now).Ok?
    ensures Rechecks(Build(rt, ReadDraft(d), now).value.state.location)
  {
    hide Trim, Trimmed, Length, ImageOf, TimeZoneOf, CapacityOf, Put, CheckTimes;
    if d.place.onlineUrl.Some? {
      LinkAgain(rt, d.place.onlineUrl.value);
    }
    LinkAgainNone(rt);
  }

  lemma LinkAgainNone(rt: Runtime)
    ensures OnlineLink(rt, None) == Ok(None)
  {
    assert Length("") == 0;
  }

  lemma SubmittedKept(rt: Runtime, d: Draft, now: int)
    requires Normal(rt) && Written(rt, d) && Submitted(rt, d, now).Some?
    ensures var s := Submitted(rt, d, now).value; Kept(rt, s.title, s.description, s.state) && s.state.cancelled.None?
  {
    hide ReadDraft, InitializeState, Good, Rechecks, Trimmed, Trim, LocationFrom, ImageOf, TimeZoneOf, CapacityOf;
    var read := ReadDraft(d);
    BuiltRechecks(rt, d, now);
    StatesComeInGood(rt, read, Build(rt, read, now).value.state, now);
    TrimIsTrimmed(read.title);
    TrimIsTrimmed(read.description);
  }

  /** The second check lets through what the first one built, with the hub's zone where it had none. */
  lemma MadeKept(rt: Runtime, o: Office, id: string, now: int, later: int)
    requires Normal(rt) && InOrder(rt, o) && Made(rt, o, id, now, later).Some?
    ensures var made := Made(rt, o, id, now, later).value; Kept(rt, made.0.title, made.0.description, made.1)
  {
    hide Build, Submitted, Trimmed, Good, LocationFrom, ImageOf, TimeZoneOf, CapacityOf, CheckTimes, Written;
    var s := Submitted(rt, o.drafts[id], now).value;
    SubmittedKept(rt, o.drafts[id], now);
    StatesComeInGood(rt, o.drafts[id], s.state, later);
    SameLocation(rt, s.state, later);
  }

  lemma SameLocation(rt: Runtime, s: EventState, later: int)
    requires Good(rt, s) && Rechecks(s.location) && InitializeState(rt, s, later).Ok?
    ensures InitializeState(rt, s, later).value.location == s.location
  {
    LocationAgainIff(rt, s.location);
    hide CheckLocation, Trim, Trimmed, GoodLocation, GoodImage, ImageOf, TimeZoneOf, CapacityOf;
  }

  predicate SameWords(p: Process, q: Process) {
    q.title == p.title && q.description == p.description && q.state == p.state.(cancelled := q.state.cancelled)
  }

  lemma HandleKeepsWords(pid: string, p: Process, going: seq<string>, limit: Option<nat>, action: Action)
    requires Handle(pid, p, going, limit, action).Ok?
    ensures SameWords(p, Handle(pid, p, going, limit, action).value.process)
  {
    hide Trim, Length, Remove;
  }

  /** The hub's other steps change an event's status and its cancellation, never its words. */
  lemma MovesKeepWords(s: State, step: Step, pid: string)
    requires OnlyMoves(step)
    ensures Next(s, step).processes.Keys == s.processes.Keys
    ensures pid in s.processes ==> SameWords(s.processes[pid], Next(s, step).processes[pid])
  {
    hide Handle, RowOf, Upsert, Flag, Lands;
    if step.Acts? && step.pid in s.processes && Handle(step.pid, s.processes[step.pid], GoingTo(s, step.pid), LimitOf(s.rows, step.pid), step.action).Ok? {
      HandleKeepsWords(step.pid, s.processes[step.pid], GoingTo(s, step.pid), LimitOf(s.rows, step.pid), step.action);
    }
  }

  lemma KeptWhateverCancelled(rt: Runtime, title: string, description: string, s: EventState, t: EventState)
    requires Kept(rt, title, description, s) && t == s.(cancelled := t.cancelled)
    ensures Kept(rt, title, description, t)
  {
  }

  lemma OpenedIsWritten(rt: Runtime, title: string, description: string, s: EventState)
    requires Kept(rt, title, description, s)
    ensures Written(rt, DraftColumns(title, description, s))
  {
    hide GoodLink, Trimmed, Length;
  }

  lemma EditedWords(rt: Runtime, p: Process, s: Submission)
    requires s.state.cancelled.None? && Trimmed(s.title) && Trimmed(s.description) && Trimmed(p.title) && Trimmed(p.description)
    ensures var q := Edited(p, EditOf(rt, s));
            q.title == s.title && q.description == s.description && q.state == s.state.(cancelled := p.state.cancelled) &&
            q.status == p.status && q.previous == p.previous
  {
    TrimIsTrimmed(s.title);
    TrimIsTrimmed(s.description);
    TrimIsTrimmed(p.title);
    TrimIsTrimmed(p.description);
    hide Trim, Trimmed;
  }

  lemma KeptIsTrimmed(rt: Runtime, title: string, description: string, s: EventState)
    requires Kept(rt, title, description, s)
    ensures Trimmed(title) && Trimmed(description)
  {
  }

  lemma DeedKeepsOrder(rt: Runtime, o: Office, deed: Deed)
    requires Normal(rt) && InOrder(rt, o)
    ensures InOrder(rt, Do(rt, o, deed))
  {
    hide Kept, Written, Made, Submitted, Write, DraftColumns, Edited, EditOf, RowOf, Upsert, Next;
    match deed
    case NewDraft(id) =>
      BlankIsWritten(rt);
    case WriteField(id, field) =>
      if id in o.drafts && Write(rt, o.drafts[id], field).Ok? {
        WriteKeepsWritten(rt, o.drafts[id], field);
      }
    case SubmitDraft(id, pid, now, later) =>
      if Made(rt, o, id, now, later).Some? {
        MadeKept(rt, o, id, now, later);
        var made := Made(rt, o, id, now, later).value;
        KeptWhateverCancelled(rt, made.0.title, made.0.description, made.1, made.1.(cancelled := None));
      }
    case ReviseDraft(id, pid, now, later) =>
      if Made(rt, o, id, now, later).Some? {
        MadeKept(rt, o, id, now, later);
        var made := Made(rt, o, id, now, later).value;
        KeptWhateverCancelled(rt, made.0.title, made.0.description, made.1, made.1.(cancelled := None));
      }
    case OpenDraft(id, pid) =>
      if pid in o.hub.processes {
        OpenedIsWritten(rt, o.hub.processes[pid].title, o.hub.processes[pid].description, o.hub.processes[pid].state);
      }
    case SaveDraft(id, pid, now, reach) =>
      if id in o.drafts && Submitted(rt, o.drafts[id], now).Some? && pid in o.hub.processes {
        SubmittedKept(rt, o.drafts[id], now);
        var s := Submitted(rt, o.drafts[id], now).value;
        KeptIsTrimmed(rt, s.title, s.description, s.state);
        KeptIsTrimmed(rt, o.hub.processes[pid].title, o.hub.processes[pid].description, o.hub.processes[pid].state);
        EditedWords(rt, o.hub.processes[pid], s);
        KeptWhateverCancelled(rt, s.title, s.description, s.state, Edited(o.hub.processes[pid], EditOf(rt, s)).state);
      }
    case Moves(step) =>
      if OnlyMoves(step) {
        forall pid | pid in Next(o.hub, step).processes
          ensures var q := Next(o.hub, step).processes[pid]; Kept(rt, q.title, q.description, q.state)
        {
          MovesKeepWords(o.hub, step, pid);
          var p, q := o.hub.processes[pid], Next(o.hub, step).processes[pid];
          KeptWhateverCancelled(rt, p.title, p.description, p.state, q.state);
        }
      }
  }

  /** However drafts are written, submitted, revised and saved, every event passes its own checks again. */
  lemma {:induction false} EveryEventIsKept(rt: Runtime, deeds: seq<Deed>)
    requires Normal(rt)
    ensures InOrder(rt, AfterAll(rt, deeds))
    decreases |deeds|
  {
    hide Do, InOrder;
    if deeds == [] {
      OpeningInOrder(rt);
    } else {
      EveryEventIsKept(rt, deeds[..|deeds| - 1]);
      DeedKeepsOrder(rt, AfterAll(rt, deeds[..|deeds| - 1]), deeds[|deeds| - 1]);
    }
  }

  lemma OpeningInOrder(rt: Runtime)
    ensures InOrder(rt, OPENING)
  {
  }

  // ----- What is typed, filed and saved is what is shown -----

  /** A field typed as a kept event shows it goes into its own column, and into no other. */
  lemma TypedIntoItsColumn(rt: Runtime, d: Draft, title: string, description: string, s: EventState)
    requires Kept(rt, title, description, s)
    ensures var c := DraftColumns(title, description, s);
            var w := c.place;
            && Write(rt, d, Title(c.title)) == Ok(d.(title := c.title))
            && Write(rt, d, Description(c.description)) == Ok(d.(description := c.description))
            && Write(rt, d, Start(c.start)) == Ok(d.(start := c.start))
            && Write(rt, d, End(c.end)) == Ok(d.(end := c.end))
            && Write(rt, d, Venue(w.venue)) == Ok(d.(place := d.place.(venue := w.venue)))
            && Write(rt, d, Street(w.street)) == Ok(d.(place := d.place.(street := w.street)))
            && Write(rt, d, Locality(w.locality)) == Ok(d.(place := d.place.(locality := w.locality)))
            && Write(rt, d, Region(w.region)) == Ok(d.(place := d.place.(region := w.region)))
            && Write(rt, d, PostalCode(w.postalCode)) == Ok(d.(place := d.place.(postalCode := w.postalCode)))
            && Write(rt, d, Country(w.country)) == Ok(d.(place := d.place.(country := w.country)))
            && Write(rt, d, OnlineUrl(w.onlineUrl)) == Ok(d.(place := d.place.(onlineUrl := w.onlineUrl)))
            && Write(rt, d, TimeZone(c.timeZone)) == Ok(d.(timeZone := c.timeZone))
            && Write(rt, d, ImageUrl(c.imageUrl)) == Ok(d.(imageUrl := c.imageUrl))
            && Write(rt, d, ImageAlt(c.imageAlt)) == Ok(d.(imageAlt := c.imageAlt))
            && Write(rt, d, Capacity(c.capacity)) == Ok(d.(capacity := c.capacity))
  {
    hide TextField, OnlineLink, TimeZoneOf, ImageOf, WhereOf, Trimmed, Length, GoodLocation, GoodImage, Zone, Rechecks;
    PlaceFieldsAgain(rt, s.location);
    ImageFieldsAgain(rt, s.image);
    ZoneFieldAgain(rt, s.timeZone);
  }

  /** What is typed is stored trimmed, blank as none; a link and a picture's address as they are written out. */
  lemma TypedIsCleaned(rt: Runtime, d: Draft, v: Option<string>)
    ensures Write(rt, d, Venue(v)).Ok? ==> Write(rt, d, Venue(v)).value == d.(place := d.place.(venue := Cleaned(v)))
    ensures Write(rt, d, TimeZone(v)).Ok? ==> Write(rt, d, TimeZone(v)).value == d.(timeZone := Cleaned(v))
    ensures Write(rt, d, ImageAlt(v)).Ok? ==> Write(rt, d, ImageAlt(v)).value == d.(imageAlt := Cleaned(v))
    ensures Write(rt, d, OnlineUrl(v)).Ok? ==>
              if Given(v) == "" then Write(rt, d, OnlineUrl(v)).value == d.(place := d.place.(onlineUrl := None))
              else rt.parse(Given(v)).Some? &&
                   Write(rt, d, OnlineUrl(v)).value == d.(place := d.place.(onlineUrl := Some(rt.parse(Given(v)).value.text)))
    ensures Write(rt, d, ImageUrl(v)).Ok? ==>
              if Given(v) == "" then Write(rt, d, ImageUrl(v)).value == d.(imageUrl := None)
              else rt.parse(Given(v)).Some? && Write(rt, d, ImageUrl(v)).value == d.(imageUrl := Some(rt.parse(Given(v)).value.text))
  {
    hide Trim, Length;
  }

  /** A draft can be submitted exactly when it is named, in at most 120 characters, and builds. */
  lemma SubmittedIff(rt: Runtime, d: Draft, now: int)
    ensures Submitted(rt, d, now).Some? <==>
            Trim(d.title) != "" && Length(Trim(d.title)) <= 120 && Build(rt, ReadDraft(d), now).Ok?
    ensures Submitted(rt, d, now).Some? ==> Build(rt, ReadDraft(d), now) == Ok(Submitted(rt, d, now).value)
  {
    var read := ReadDraft(d);
    if read.place.venue.None? && read.place.onlineUrl.None? {
      NowhereIsRefused(rt, read.place);
    }
    hide Trim, Length, LocationFrom, ImageOf, TimeZoneOf, CapacityOf, Nullable;
  }

  lemma NowhereIsRefused(rt: Runtime, f: Where)
    requires f.venue.None? && f.onlineUrl.None?
    ensures LocationFrom(rt, f).Err?
  {
    assert Length("") == 0;
  }

  lemma PlaceFieldsAgain(rt: Runtime, l: Location)
    requires GoodLocation(rt, l) && Rechecks(l)
    ensures var w := WhereOf(l);
            && TextField(w.venue, VENUE_MAX) == Ok(w.venue) && OnlineLink(rt, w.onlineUrl) == Ok(w.onlineUrl)
            && TextField(w.street, ADDRESS_FIELD_MAX) == Ok(w.street) && TextField(w.locality, ADDRESS_FIELD_MAX) == Ok(w.locality)
            && TextField(w.region, ADDRESS_FIELD_MAX) == Ok(w.region) && TextField(w.postalCode, ADDRESS_FIELD_MAX) == Ok(w.postalCode)
            && TextField(w.country, ADDRESS_FIELD_MAX) == Ok(w.country)
  {
    NoText(VENUE_MAX);
    NoText(ADDRESS_FIELD_MAX);
    LinkAgainNone(rt);
    match l
    case Link(_, href) =>
      LinkAgain(rt, href);
    case Place(name, address) =>
      GoodTextChecks(name, VENUE_MAX);
      var a := if address.Some? then address.value else NOWHERE;
      FieldAgain(a.street);
      FieldAgain(a.locality);
      FieldAgain(a.region);
      FieldAgain(a.postalCode);
      FieldAgain(a.country);
      hide Trim, Trimmed, Length;
  }

  lemma NoText(max: nat)
    ensures TextField(None, max) == Ok(None)
  {
    assert Length("") == 0;
  }

  lemma FieldAgain(o: Option<string>)
    requires GoodField(o)
    ensures TextField(o, ADDRESS_FIELD_MAX) == Ok(o)
  {
    PutAgain(o);
    hide CheckText, Trimmed, Length;
  }

  lemma ImageFieldsAgain(rt: Runtime, image: Option<Image>)
    requires GoodImage(rt, image)
    ensures image.Some? ==> ImageOf(rt, Some(image.value.url), Some("")) == Ok(Some(Image(image.value.url, "")))
    ensures ImageOf(rt, None, Some("")) == Ok(None)
    ensures var alt := if image.Some? && image.value.alt != "" then Some(image.value.alt) else None;
            TextField(alt, ALT_MAX) == Ok(alt)
  {
    NoText(ALT_MAX);
    assert Length("") == 0;
    TrimTwice("");
    if image.Some? {
      GoodTextChecks(image.value.url, LINK_MAX);
      GoodTextChecks(image.value.alt, ALT_MAX);
    }
    hide Trim, Trimmed, Length;
  }

  lemma ZoneFieldAgain(rt: Runtime, zone: Option<string>)
    requires zone.Some? ==> Zone(rt, zone.value)
    ensures TimeZoneOf(rt, zone) == Ok(zone)
  {
    ZoneAgain(rt, zone);
    hide Trim, Trimmed;
  }

  /**
    A draft submitted as a new event, or over one still pending, and the event opened: the form shows what was
    submitted, in the hub's zone where it had none; and it is pending, and not on the calendar yet.
   */
  lemma FiledIsShown(rt: Runtime, o: Office, id: string, pid: string, now: int, later: int, form: string, revised: bool)
    requires Normal(rt) && InOrder(rt, o) && Made(rt, o, id, now, later).Some?
    requires if revised then pid in o.hub.processes && o.hub.processes[pid].status == PendingReview else pid !in o.hub.processes
    ensures var s := Submitted(rt, o.drafts[id], now).value;
            var filed := Do(rt, o, if revised then ReviseDraft(id, pid, now, later) else SubmitDraft(id, pid, now, later));
            var shown := Do(rt, filed, OpenDraft(form, pid));
            && pid in filed.hub.processes && filed.hub.processes[pid].status == PendingReview && filed.hub.rows == o.hub.rows
            && form in shown.drafts
            && Submitted(rt, shown.drafts[form], now) ==
               Some(s.(state := s.state.(timeZone := if s.state.timeZone.Some? then s.state.timeZone else Some(rt.hubZone))))
  {
    hide *;
    MadeKept(rt, o, id, now, later);
    MadeIs(rt, o, id, now, later);
    var made := Made(rt, o, id, now, later).value;
    Filed(rt, o, id, pid, now, later, revised);
    KeptWhateverCancelled(rt, made.0.title, made.0.description, made.1, made.1.(cancelled := None));
    SubmittedUpcoming(rt, o.drafts[id], now);
    OpenedShows(rt, Do(rt, o, if revised then ReviseDraft(id, pid, now, later) else SubmitDraft(id, pid, now, later)), pid, form, now);
  }

  lemma Filed(rt: Runtime, o: Office, id: string, pid: string, now: int, later: int, revised: bool)
    requires Made(rt, o, id, now, later).Some?
    requires if revised then pid in o.hub.processes && o.hub.processes[pid].status == PendingReview else pid !in o.hub.processes
    ensures var made := Made(rt, o, id, now, later).value;
            var filed := Do(rt, o, if revised then ReviseDraft(id, pid, now, later) else SubmitDraft(id, pid, now, later));
            && pid in filed.hub.processes && filed.hub.rows == o.hub.rows
            && var p := filed.hub.processes[pid];
               p.status == PendingReview && p.title == made.0.title && p.description == made.0.description &&
               p.state == made.1.(cancelled := None)
  {
    hide Made;
  }

  /** A kept event that is not over, opened: the form shows it. */
  lemma OpenedShows(rt: Runtime, o: Office, pid: string, form: string, now: int)
    requires pid in o.hub.processes
    requires var p := o.hub.processes[pid]; Kept(rt, p.title, p.description, p.state) && now < p.state.end
    ensures var p, shown := o.hub.processes[pid], Do(rt, o, OpenDraft(form, pid));
            form in shown.drafts &&
            Submitted(rt, shown.drafts[form], now) == Some(Submission(p.title, p.description, p.state.(cancelled := None)))
  {
    hide Submitted, Kept, DraftColumns;
    var p := o.hub.processes[pid];
    ReadsBack(rt, p.title, p.description, p.state, now);
  }

  lemma SubmittedUpcoming(rt: Runtime, d: Draft, now: int)
    requires Submitted(rt, d, now).Some?
    ensures now < Submitted(rt, d, now).value.state.end
  {
    hide LocationFrom, ImageOf, TimeZoneOf, CapacityOf, Trim, Length, ReadDraft;
  }

  lemma MadeIs(rt: Runtime, o: Office, id: string, now: int, later: int)
    requires Normal(rt) && InOrder(rt, o) && Made(rt, o, id, now, later).Some?
    ensures id in o.drafts && Submitted(rt, o.drafts[id], now).Some?
    ensures var made, s := Made(rt, o, id, now, later).value, Submitted(rt, o.drafts[id], now).value;
            made.0 == s && s.state.cancelled.None? &&
            made.1 == s.state.(timeZone := if s.state.timeZone.Some? then s.state.timeZone else Some(rt.hubZone))
  {
    var s := Submitted(rt, o.drafts[id], now).value;
    SubmittedKept(rt, o.drafts[id], now);
    InitializedNow(rt, s.state, later);
    hide Submitted, Kept, InitializeState, Normal, Written;
  }

  lemma InitializedNow(rt: Runtime, s: EventState, later: int)
    requires Good(rt, s) && Rechecks(s.location) && InitializeState(rt, s, later).Ok? && s.cancelled.None?
    ensures InitializeState(rt, s, later).value == s.(timeZone := if s.timeZone.Some? then s.timeZone else Some(rt.hubZone))
  {
    StillUpcoming(rt, s, later);
    InitializedIs(rt, s, later);
    hide Good, InitializeState;
  }

  lemma StillUpcoming(rt: Runtime, s: EventState, later: int)
    requires InitializeState(rt, s, later).Ok?
    ensures later < s.end
  {
    hide CheckLocation, ImageOf, TimeZoneOf, CapacityOf;
  }

  /** A changed draft saved over an upcoming event, and the event opened again: the form shows what was saved. */
  lemma SavedIsShown(rt: Runtime, o: Office, id: string, pid: string, now: int, form: string)
    requires Normal(rt) && InOrder(rt, o) && id in o.drafts && Submitted(rt, o.drafts[id], now).Some?
    requires pid in o.hub.processes && o.hub.processes[pid].status == Active
    ensures var s := Submitted(rt, o.drafts[id], now).value;
            var saved := Do(rt, o, SaveDraft(id, pid, now, WHOLE));
            var shown := Do(rt, saved, OpenDraft(form, pid));
            && pid in saved.hub.processes && saved.hub.processes[pid].status == Active
            && saved.hub.processes[pid].state.cancelled == o.hub.processes[pid].state.cancelled
            && form in shown.drafts && Submitted(rt, shown.drafts[form], now) == Some(s)
  {
    hide *;
    var s, p := Submitted(rt, o.drafts[id], now).value, o.hub.processes[pid];
    KeptThere(rt, o, id, pid);
    SubmittedKept(rt, o.drafts[id], now);
    SubmittedUpcoming(rt, o.drafts[id], now);
    KeptIsTrimmed(rt, s.title, s.description, s.state);
    KeptIsTrimmed(rt, p.title, p.description, p.state);
    EditedWords(rt, p, s);
    KeptWhateverCancelled(rt, s.title, s.description, s.state, s.state.(cancelled := p.state.cancelled));
    SavedThere(rt, o, id, pid, now);
    OpenedShows(rt, Do(rt, o, SaveDraft(id, pid, now, WHOLE)), pid, form, now);
  }

  lemma KeptThere(rt: Runtime, o: Office, id: string, pid: string)
    requires InOrder(rt, o) && id in o.drafts && pid in o.hub.processes
    ensures Written(rt, o.drafts[id])
    ensures var p := o.hub.processes[pid]; Kept(rt, p.title, p.description, p.state)
  {
    hide Written, Kept;
  }

  lemma SavedThere(rt: Runtime, o: Office, id: string, pid: string, now: int)
    requires id in o.drafts && Submitted(rt, o.drafts[id], now).Some?
    requires pid in o.hub.processes && o.hub.processes[pid].status == Active
    ensures var saved := Do(rt, o, SaveDraft(id, pid, now, WHOLE));
            pid in saved.hub.processes &&
            saved.hub.processes[pid] == Edited(o.hub.processes[pid], EditOf(rt, Submitted(rt, o.drafts[id], now).value))
  {
    hide Submitted, ApplyEdit, EditOf, Edited;
    SavedByEdit(rt, o.hub, pid, Submitted(rt, o.drafts[id], now).value);
  }

  lemma SavedByEdit(rt: Runtime, hub: State, pid: string, s: Submission)
    requires pid in hub.processes && hub.processes[pid].status == Active
    ensures var after := ApplyEdit(hub, pid, EditOf(rt, s), WHOLE);
            pid in after.processes && after.processes[pid] == Edited(hub.processes[pid], EditOf(rt, s))
  {
    SavesIff(hub.processes[pid], EditOf(rt, s));
    assert Saves(hub.processes[pid], EditOf(rt, s));
    hide Edited, Saves, EditTrail, RowOf, Upsert, EditOf;
  }

  // ----- Opened, and saved untouched -----

  lemma ReadsBack(rt: Runtime, title: string, description: string, s: EventState, now: int)
    requires Kept(rt, title, description, s) && now < s.end
    ensures Submitted(rt, DraftColumns(title, description, s), now) == Some(Submission(title, description, s.(cancelled := None)))
  {
    hide Trim, Length, Build;
    var d := DraftColumns(title, description, s);
    assert d == DraftColumns(title, description, s.(cancelled := None));
    EditUntouchedIff(rt, title, description, s.(cancelled := None), now);
    LocationAgainIff(rt, s.location);
    TrimIsTrimmed(title);
    TrimIsTrimmed(description);
    hide Good, GoodLocation, Nullable, Trimmed, Normal, GoodLink;
  }

  /**
    Every upcoming event a hub can have, opened for editing and saved untouched: the draft's columns build the
    event itself, and once saved its process is the same, and its row reads as it did: as the event.
   */
  lemma SavingUntouchedKeepsTheEvent(rt: Runtime, deeds: seq<Deed>, id: string, pid: string, now: int, reach: Reach)
    requires Normal(rt)
    requires pid in AfterAll(rt, deeds).hub.processes
    requires var p := AfterAll(rt, deeds).hub.processes[pid]; p.status == Active && now < p.state.end
    ensures var o := AfterAll(rt, deeds);
            var p := o.hub.processes[pid];
            var shown := Do(rt, o, OpenDraft(id, pid));
            var after := Do(rt, shown, SaveDraft(id, pid, now, reach)).hub;
            && id in shown.drafts
            && Submitted(rt, shown.drafts[id], now) == Some(Submission(p.title, p.description, p.state.(cancelled := None)))
            && after.processes == o.hub.processes && after.going == o.hub.going && after.hooks == o.hub.hooks
            && after.rows == (if reach.Written? then Upsert(o.hub.rows, RowOf(pid, p, false)) else o.hub.rows)
            && after.records == o.hub.records + Left(EditTrail(pid, p, EditOf(rt, Submission(p.title, p.description, p.state.(cancelled := None)))), reach)
  {
    hide AfterAll, Submitted, DraftColumns, Kept, ApplyEdit, EditTrail, Left, Upsert, RowOf;
    EveryEventIsKept(rt, deeds);
    var o := AfterAll(rt, deeds);
    var p := o.hub.processes[pid];
    ReadsBack(rt, p.title, p.description, p.state, now);
    KeptIsTrimmed(rt, p.title, p.description, p.state);
    SavedUntouched(rt, o.hub, pid, Submission(p.title, p.description, p.state.(cancelled := None)), reach);
  }

  lemma SavedUntouched(rt: Runtime, hub: State, pid: string, s: Submission, reach: Reach)
    requires pid in hub.processes && hub.processes[pid].status == Active
    requires var p := hub.processes[pid];
             s == Submission(p.title, p.description, p.state.(cancelled := None)) && Trimmed(p.title) && Trimmed(p.description)
    ensures var p, after := hub.processes[pid], ApplyEdit(hub, pid, EditOf(rt, s), reach);
            && after.processes == hub.processes && after.going == hub.going && after.hooks == hub.hooks
            && after.rows == (if reach.Written? then Upsert(hub.rows, RowOf(pid, p, false)) else hub.rows)
            && after.records == hub.records + Left(EditTrail(pid, p, EditOf(rt, s)), reach)
  {
    var p := hub.processes[pid];
    EditedWords(rt, p, s);
    SavesIff(p, EditOf(rt, s));
    hide Edited, RowOf, Upsert, Saves, EditTrail, Trimmed;
    assert Saves(p, EditOf(rt, s));
    assert hub.records + [] == hub.records;
  }

  /**
    And yet the save is never silent: the location reads as changed, a picture too, because the database hands
    them back with their keys in another order. An update goes out, those going are told of a new place, and an
    edit is recorded that names exactly these fields.
   */
  lemma UntouchedSaveIsAnEdit(rt: Runtime, pid: string, p: Process)
    requires Trimmed(p.title) && Trimmed(p.description)
    ensures var e := EditOf(rt, Submission(p.title, p.description, p.state.(cancelled := None)));
            && ChangedFields(p, e) == ["location"] + (if p.state.image.Some? then ["image"] else [])
            && EditTrail(pid, p, e) == [Updated(pid), ChangeTold(pid), EditRecorded(pid, ChangedFields(p, e))]
  {
    hide Trim, Json.Alike, LocationJson, ImageJson, Trimmed;
    LocationNeverAlike(p.state.location, p.state.location);
    PicturesAlikeIff(p.state.image, p.state.image);
  }

  /** A hall and a link: what is kept of each, which is not what is sent again. */
  lemma HallAndLink()
    ensures Json.ReadBack(LocationJson(Place("Hall", None))) ==
            Json.Object([Json.Field("name", Json.Str("Hall")), Json.Field("type", Json.Str("Place"))])
    ensures Json.ReadBack(LocationJson(Link("Online", "https://a.b/"))) ==
            Json.Object([Json.Field("href", Json.Str("https://a.b/")), Json.Field("name", Json.Str("Online")), Json.Field("type", Json.Str("Link"))])
    ensures !Json.Alike(LocationJson(Place("Hall", None)), LocationJson(Place("Hall", None)))
    ensures !Json.Alike(LocationJson(Link("Online", "https://a.b/")), LocationJson(Link("Online", "https://a.b/")))
  {
    TwoKept(Json.Str("Place"), Json.Str("Hall"));
    ThreeKept(Json.Str("Link"), Json.Str("Online"), Json.Str("https://a.b/"));
    LocationNeverAlike(Place("Hall", None), Place("Hall", None));
    LocationNeverAlike(Link("Online", "https://a.b/"), Link("Online", "https://a.b/"));
    assert [Json.Field("type", Json.Str("Place")), Json.Field("name", Json.Str("Hall"))] + [] ==
           [Json.Field("type", Json.Str("Place")), Json.Field("name", Json.Str("Hall"))];
    hide Json.ReadBack, Json.Alike;
  }

  lemma LocationKeys()
    ensures Json.KeyBefore("href", "name") && !Json.KeyBefore("name", "href")
    ensures Json.KeyBefore("name", "type") && !Json.KeyBefore("type", "name")
    ensures Json.KeyBefore("href", "type") && !Json.KeyBefore("type", "href")
  {
    assert Less("href", "name") && Less("href", "type") && Less("name", "type");
    assert !Less("name", "href") && !Less("type", "href") && !Less("type", "name");
  }

  predicate Plain(j: Json.Json) {
    j.Str?
  }

  lemma TwoKept(kind: Json.Json, name: Json.Json)
    requires Plain(kind) && Plain(name)
    ensures Json.ReadBack(Json.Object([Json.Field("type", kind), Json.Field("name", name)])) ==
            Json.Object([Json.Field("name", name), Json.Field("type", kind)])
  {
    LocationKeys();
    hide Json.KeyBefore;
    hide Json.Insert, Json.FieldsReadBack;
    var t, n := Json.Field("type", kind), Json.Field("name", name);
    assert [t, n] == [t] + [n] && [n] == [n] + [];
    Json.FieldsReadBackSteps(t, [n]);
    Json.FieldsReadBackSteps(n, []);
    Json.InsertSteps(n, n, []);
    Json.InsertSteps(t, n, []);
    assert [n] + [t] == [n, t];
  }

  lemma ThreeKept(kind: Json.Json, name: Json.Json, href: Json.Json)
    requires Plain(kind) && Plain(name) && Plain(href)
    ensures Json.ReadBack(Json.Object([Json.Field("type", kind), Json.Field("name", name), Json.Field("href", href)])) ==
            Json.Object([Json.Field("href", href), Json.Field("name", name), Json.Field("type", kind)])
  {
    LocationKeys();
    hide Json.KeyBefore;
    hide Json.Insert, Json.FieldsReadBack;
    var t, n, h := Json.Field("type", kind), Json.Field("name", name), Json.Field("href", href);
    assert [t, n, h] == [t] + [n, h] && [n, h] == [n] + [h] && [h] == [h] + [];
    Json.FieldsReadBackSteps(t, [n, h]);
    Json.FieldsReadBackSteps(n, [h]);
    Json.FieldsReadBackSteps(h, []);
    Json.InsertSteps(h, h, []);
    Json.InsertSteps(n, h, []);
    assert [h] + [n] == [h, n] && [n] == [n] + [];
    Json.InsertSteps(t, h, [n]);
    Json.InsertSteps(t, n, []);
    assert [h] + ([n] + [t]) == [h, n, t];
  }
}
