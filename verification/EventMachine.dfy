/**
  The Events plugin as a state machine (packages/civic.event/handler.ts,
  store.ts, manifest.ts): the hub's processes, the calendar's rows, who is
  going, the event log, and the work queued for after an action commits.
 */
module EventMachine {
  import opened Wrappers
  import opened Text
  import opened EventData
  import Json

  const REASON_MAX: nat := 500
  const SUBJECT_MAX: nat := 120
  const MESSAGE_MAX: nat := 2000

  datatype Status = PendingReview | Active | Closed | Archived

  /** `previous` is the status an archived process goes back to. */
  datatype Process = Process(title: string, description: string, state: EventState, status: Status, previous: Status)

  datatype Record =
    | Published(pid: string)
    | Updated(pid: string)
    | ChangeTold(pid: string)
    | EditRecorded(pid: string, fields: seq<string>)
    | Cancelled(pid: string, reason: string)
    | Join(pid: string, account: string, count: nat)
    | Leave(pid: string, account: string, count: nat)
    | Announced(pid: string, recipients: nat)
    | Ended(pid: string)

  /**
    Work run once the action has committed: a row written from a copy of the process, or the people going told;
    told of a cancellation, right after the row of that same action.
   */
  datatype Hook = Index(pid: string, copy: Process) | TellGoing(pid: string, cancelled: bool)

  datatype State = State(
    processes: map<string, Process>, rows: map<string, CalendarRow>, going: map<string, seq<string>>,
    records: seq<Record>, hooks: seq<Hook>)

  datatype Action =
    | Publish
    | Cancel(reason: string, at: int)
    | Going(account: string)
    | NotGoing(account: string)
    | Announce(sender: string, subject: string, message: string)
    | Close

  datatype Error = NotFound | WrongStatus | TooLong | EventFull | SubjectInvalid | MessageInvalid | NotEditable | Conflict | Thrown

  // ----- The calendar's row -----

  function RowOf(pid: string, p: Process, archived: bool): CalendarRow {
    var s := p.state;
    CalendarRow(
      pid, p.title, p.description, s.start, s.end, s.location, s.cancelled.Some?, archived,
      if s.image.Some? then Some(s.image.value.url) else None,
      if s.image.Some? && s.image.value.alt != "" then Some(s.image.value.alt) else None,
      s.timeZone, s.capacity)
  }

  /** An upsert writes every column but the archived flag, which a new row has down. */
  function Upsert(rows: map<string, CalendarRow>, row: CalendarRow): map<string, CalendarRow> {
    rows[row.processId := row.(archived := row.processId in rows && rows[row.processId].archived)]
  }

  /** An update: nothing happens where there is no row. */
  function Flag(rows: map<string, CalendarRow>, pid: string, archived: bool): map<string, CalendarRow> {
    if pid in rows then rows[pid := rows[pid].(archived := archived)] else rows
  }

  // ----- Who is going -----

  function GoingTo(s: State, pid: string): seq<string> {
    if pid in s.going then s.going[pid] else []
  }

  function Remove(accounts: seq<string>, account: string): seq<string> {
    if accounts == [] then []
    else (if accounts[0] == account then [] else [accounts[0]]) + Remove(accounts[1..], account)
  }

  /** The limit the attendance trigger reads: the row's, none where there is no row. */
  function LimitOf(rows: map<string, CalendarRow>, pid: string): Option<nat> {
    if pid in rows then rows[pid].capacity else None
  }

  datatype AddResult = Added | Already | Full

  function AddGoing(accounts: seq<string>, limit: Option<nat>, account: string): AddResult {
    if account in accounts then Already
    else if limit.Some? && |accounts| >= limit.value then Full
    else Added
  }

  // ----- The handler -----

  /** What a handled action leaves: the process, the attendance (written at once), the events held and the hooks queued. */
  datatype Effect = Effect(process: Process, going: seq<string>, records: seq<Record>, hooks: seq<Hook>)

  function Handle(pid: string, p: Process, going: seq<string>, limit: Option<nat>, action: Action): Result<Effect, Error> {
    match action
    case Publish =>
      var q := p.(status := Active);
      Ok(Effect(q, going, [Published(pid)], [Index(pid, q)]))
    case Cancel(text, at) =>
      var reason := Trim(text);
      if Length(reason) > REASON_MAX then Err(TooLong)
      else
        var q := p.(status := Closed, state := p.state.(cancelled := Some(Cancellation(at, reason))));
        Ok(Effect(q, going, [Cancelled(pid, reason)], [Index(pid, q), TellGoing(pid, true)]))
    case Going(account) =>
      (match AddGoing(going, limit, account)
       case Full => Err(EventFull)
       case Already => Ok(Effect(p, going, [], []))
       case Added => Ok(Effect(p, going + [account], [Join(pid, account, |going| + 1)], [])))
    case NotGoing(account) =>
      if account !in going then Ok(Effect(p, going, [], []))
      else
        var left := Remove(going, account);
        Ok(Effect(p, left, [Leave(pid, account, |left|)], []))
    case Announce(sender, subject, message) =>
      if Trim(subject) == "" || Length(Trim(subject)) > SUBJECT_MAX then Err(SubjectInvalid)
      else if Trim(message) == "" || Length(Trim(message)) > MESSAGE_MAX then Err(MessageInvalid)
      else Ok(Effect(p, going, [Announced(pid, |Remove(going, sender)|)], [TellGoing(pid, false)]))
    case Close =>
      Ok(Effect(p.(status := Closed), going, [Ended(pid)], []))
  }

  /** The action table (manifest.ts): where each action is declared to run from. */
  function From(action: Action): Status {
    if action == Publish then PendingReview else Active
  }

  // ----- The hub's steps -----

  function WithGoing(s: State, pid: string, going: seq<string>): State {
    if going == GoingTo(s, pid) then s else s.(going := s.going[pid := going])
  }

  /** How the dispatcher runs: a violation of the table is only reported in production, and the write may be lost. */
  datatype Dispatch = Dispatch(production: bool, commit: bool)

  /** The table is looked at after the handler has run, and it refuses outside production only. */
  predicate Lands(p: Process, action: Action, how: Dispatch) {
    how.commit && (how.production || p.status == From(action))
  }

  /**
    One attempt at an action: the handler first, then the table, then the write. The process, the events and
    the hooks land together or not at all; the attendance is the handler's own write.
   */
  function Attempt(s: State, pid: string, action: Action, how: Dispatch): State {
    if pid !in s.processes then s
    else
      var e := Handle(pid, s.processes[pid], GoingTo(s, pid), LimitOf(s.rows, pid), action);
      if e.Err? then s
      else
        var t := WithGoing(s, pid, e.value.going);
        if !Lands(s.processes[pid], action, how) then t
        else t.(processes := s.processes[pid := e.value.process], records := s.records + e.value.records, hooks := s.hooks + e.value.hooks)
  }

  /** The rows after one hook. */
  function Ran(rows: map<string, CalendarRow>, h: Hook): map<string, CalendarRow> {
    match h
    case Index(pid, copy) => Upsert(rows, RowOf(pid, copy, false))
    case TellGoing(_, _) => rows
  }

  function RunHook(s: State): State {
    if s.hooks == [] then s else s.(rows := Ran(s.rows, s.hooks[0]), hooks := s.hooks[1..])
  }

  /** A hook that throws: it does nothing, and the rest of its action's queue is not run. */
  function HookFails(s: State): State {
    if s.hooks == [] then s
    else
      var rest := s.hooks[1..];
      s.(hooks := if s.hooks[0].Index? && rest != [] && rest[0] == TellGoing(s.hooks[0].pid, true) then rest[1..] else rest)
  }

  // ----- Edits -----

  /** An edit's new values; what is None is left as it is. */
  datatype Edit = Edit(
    title: Option<string>, description: Option<string>, start: Option<int>, end: Option<int>, location: Option<Location>,
    timeZone: Option<Option<string>>, image: Option<Option<Image>>, capacity: Option<Option<nat>>, wording: Wording)

  predicate TextDiffers(given: Option<string>, was: string) {
    given.Some? && Trim(given.value) != Trim(was)
  }

  function NewText(given: Option<string>, was: string): string {
    if TextDiffers(given, was) then Trim(given.value) else was
  }

  function Edited(p: Process, e: Edit): Process {
    p.(title := NewText(e.title, p.title), description := NewText(e.description, p.description),
       state := p.state.(start := Or(e.start, p.state.start), end := Or(e.end, p.state.end),
                         location := Or(e.location, p.state.location), timeZone := Or(e.timeZone, p.state.timeZone),
                         image := Or(e.image, p.state.image), capacity := Or(e.capacity, p.state.capacity)))
  }

  /** More than its markup and spacing. */
  predicate Reworded(given: Option<string>, was: string, substanceOf: string -> string) {
    TextDiffers(given, was) && substanceOf(Trim(given.value)) != substanceOf(Trim(was))
  }

  predicate Differs<T(==)>(given: Option<T>, was: T) {
    given.Some? && given.value != was
  }

  predicate LocationDiffers(given: Option<Location>, was: Location) {
    given.Some? && !Json.Alike(LocationJson(was), LocationJson(given.value))
  }

  predicate ImageDiffers(given: Option<Option<Image>>, was: Option<Image>) {
    given.Some? && !Json.Alike(ImageJson(was), ImageJson(given.value))
  }

  function Named(differs: bool, field: string): seq<string> {
    if differs then [field] else []
  }

  /** The fields an edit changes, each state field by its JSON text against the one stored. */
  function ChangedFields(p: Process, e: Edit): seq<string> {
    Named(Reworded(e.title, p.title, e.wording.substanceOf), "title")
    + Named(Reworded(e.description, p.description, e.wording.substanceOf), "description")
    + Named(Differs(e.start, p.state.start), "start_time") + Named(Differs(e.end, p.state.end), "end_time")
    + Named(LocationDiffers(e.location, p.state.location), "location") + Named(Differs(e.timeZone, p.state.timeZone), "time_zone")
    + Named(ImageDiffers(e.image, p.state.image), "image") + Named(Differs(e.capacity, p.state.capacity), "capacity")
  }

  /** There is something to save, be it only markup and spacing. */
  predicate Saves(p: Process, e: Edit) {
    ChangedFields(p, e) != [] || TextDiffers(e.title, p.title) || TextDiffers(e.description, p.description)
  }

  /** A new time or place, as people going would read it. */
  predicate TellsChange(p: Process, e: Edit) {
    var was, now := p.state, Edited(p, e).state;
    var zone := if now.timeZone.Some? then now.timeZone.value else if was.timeZone.Some? then was.timeZone.value else "UTC";
    || was.start != now.start || was.end != now.end
    || e.wording.whenText(was.start, was.end, if was.timeZone.Some? then was.timeZone.value else zone)
       != e.wording.whenText(now.start, now.end, zone)
    || LocationDiffers(e.location, was.location)
  }

  /** What a saved edit leaves behind it, in order: the event's update, the message to those going, the edit's own record. */
  function EditTrail(pid: string, p: Process, e: Edit): seq<Record> {
    [Updated(pid)]
    + (if TellsChange(p, e) then [ChangeTold(pid)] else [])
    + (if ChangedFields(p, e) != [] then [EditRecorded(pid, ChangedFields(p, e))] else [])
  }

  /** How far an edit's writes get before one throws: none, the process, or its row too and so many records. */
  datatype Reach = Lost | Columns | Written(count: nat)

  /** All of them. */
  const WHOLE := Written(3)

  function Left(trail: seq<Record>, reach: Reach): seq<Record> {
    if !reach.Written? then [] else if reach.count < |trail| then trail[..reach.count] else trail
  }

  /** The hub's edit path: only an active event, only where a field differs; the process, then its row, then the records. */
  function ApplyEdit(s: State, pid: string, e: Edit, reach: Reach): State {
    if pid !in s.processes || s.processes[pid].status != Active then s
    else
      var p := s.processes[pid];
      if !Saves(p, e) || reach.Lost? then s
      else
        s.(processes := s.processes[pid := Edited(p, e)],
           rows := if reach.Columns? then s.rows else Upsert(s.rows, RowOf(pid, Edited(p, e), false)),
           records := s.records + Left(EditTrail(pid, p, e), reach))
  }

  // ----- Archiving, and what one starts from -----

  /** `synced`: the row's flag was written too; a failure there is logged and the process stays archived. */
  function Archive(s: State, pid: string, synced: bool): State {
    if pid !in s.processes || s.processes[pid].status == Archived then s
    else
      var p := s.processes[pid];
      s.(processes := s.processes[pid := p.(status := Archived, previous := p.status)],
         rows := if synced then Flag(s.rows, pid, true) else s.rows)
  }

  function Restore(s: State, pid: string, synced: bool): State {
    if pid !in s.processes || s.processes[pid].status != Archived then s
    else
      var p := s.processes[pid];
      s.(processes := s.processes[pid := p.(status := p.previous)],
         rows := if synced then Flag(s.rows, pid, false) else s.rows)
  }

  function Submit(s: State, pid: string, title: string, description: string, state: EventState): State {
    if pid in s.processes then s
    else s.(processes := s.processes[pid := Process(title, description, state.(cancelled := None), PendingReview, PendingReview)])
  }

  /** A submission an admin asked to be changed, made again: still pending. */
  function Revise(s: State, pid: string, title: string, description: string, state: EventState): State {
    if pid !in s.processes || s.processes[pid].status != PendingReview then s
    else s.(processes := s.processes[pid := s.processes[pid].(title := title, description := description, state := state.(cancelled := None))])
  }

  datatype Step =
    | Submits(pid: string, title: string, description: string, state: EventState)
    | Revises(pid: string, title: string, description: string, state: EventState)
    | Acts(pid: string, action: Action, how: Dispatch)
    | Hooks
    | HooksFail
    | Edits(pid: string, edit: Edit, reach: Reach)
    | Archives(pid: string, synced: bool)
    | Restores(pid: string, synced: bool)

  function Next(s: State, step: Step): State {
    match step
    case Submits(pid, title, description, state) => Submit(s, pid, title, description, state)
    case Revises(pid, title, description, state) => Revise(s, pid, title, description, state)
    case Acts(pid, action, how) => Attempt(s, pid, action, how)
    case Hooks => RunHook(s)
    case HooksFail => HookFails(s)
    case Edits(pid, edit, reach) => ApplyEdit(s, pid, edit, reach)
    case Archives(pid, synced) => Archive(s, pid, synced)
    case Restores(pid, synced) => Restore(s, pid, synced)
  }

  const EMPTY: State := State(map[], map[], map[], [], [])

  function After(s: State, steps: seq<Step>): State {
    if steps == [] then s else Next(After(s, steps[..|steps| - 1]), steps[|steps| - 1])
  }

  // ----- How one reads -----

  /** Its own words for where an event is, and the hub status each declares. */
  datatype Word = Scheduled | Past | CancelledWord

  function WordOf(p: Process): Word {
    if p.state.cancelled.Some? then CancelledWord else if p.status == Closed then Past else Scheduled
  }

  function HubStatus(w: Word): Status {
    if w == Scheduled then Active else Closed
  }

  /** Past its end and not yet closed it reads as closed; null where there is nothing to show. */
  function ReadAsClosed(p: Process, now: int): Option<Process> {
    if p.status != Active || !(now > p.state.end) then None else Some(p.(status := Closed))
  }
}
