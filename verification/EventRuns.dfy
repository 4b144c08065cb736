/**
  What the Events plugin keeps over whole runs, with actions that may abort and
  hooks run in commit order: the calendar's rows, the attendance and the words
  an event reads by.
 */
module EventRuns {
  import opened Wrappers
  import opened Text
  import opened EventData
  import Json
  import opened EventMachine

  // ----- The calendar agrees with the processes -----

  /** The status an event has, whether or not it is archived. */
  function Standing(p: Process): Status {
    if p.status == Archived then p.previous else p.status
  }

  /** It has been published. */
  predicate Live(p: Process) {
    Standing(p) == Active || Standing(p) == Closed
  }

  /** The last row still to be written for an event. */
  function Pending(hooks: seq<Hook>, pid: string): Option<Process> {
    if hooks == [] then None
    else
      var h := hooks[|hooks| - 1];
      if h.Index? && h.pid == pid then Some(h.copy) else Pending(hooks[..|hooks| - 1], pid)
  }

  /** Archived, it remembers what it was. */
  predicate Sane(p: Process) {
    p.status == Archived ==> p.previous != Archived
  }

  /** One event's row: as its process reads, or about to be. */
  predicate AgreesAt(s: State, pid: string)
    requires pid in s.processes
  {
    var p := s.processes[pid];
    Sane(p) &&
    (pid in s.rows ==> Live(p) && s.rows[pid].processId == pid && s.rows[pid].archived == (p.status == Archived)) &&
    match Pending(s.hooks, pid)
    case Some(copy) => Live(p) && RowOf(pid, copy, false) == RowOf(pid, p, false) && (pid !in s.rows ==> p.status != Archived)
    case None => (Live(p) ==> pid in s.rows) && (pid in s.rows ==> s.rows[pid] == RowOf(pid, p, p.status == Archived))
  }

  ghost predicate Agrees(s: State) {
    (forall pid :: pid in s.processes ==> AgreesAt(s, pid)) &&
    (forall pid :: pid in s.rows ==> pid in s.processes) &&
    (forall i :: 0 <= i < |s.hooks| && s.hooks[i].Index? ==> s.hooks[i].pid in s.processes)
  }

  /** The statuses an action may run from without the calendar falling behind: more than the table declares. */
  predicate CalendarSafe(p: Process, action: Action) {
    match action
    case Publish => p.status == Archived ==> p.previous == PendingReview
    case Cancel(_, _) => p.status == Archived ==> p.previous == PendingReview
    case Close => p.status == Active || p.status == Closed
    case _ => true
  }

  /** The action runs on an event there is, is not refused by the handler, and its write lands. */
  predicate Takes(s: State, pid: string, action: Action, how: Dispatch) {
    && pid in s.processes
    && Handle(pid, s.processes[pid], GoingTo(s, pid), LimitOf(s.rows, pid), action).Ok?
    && Lands(s.processes[pid], action, how)
  }

  /** The row at the queue's head is not missed: another is queued behind it, or the one there reads the same. */
  predicate RowSpared(s: State, pid: string, copy: Process)
    requires s.hooks != []
  {
    Pending(s.hooks[1..], pid).Some? || (pid in s.rows && s.rows[pid] == RowOf(pid, copy, s.rows[pid].archived))
  }

  /** What a step must meet, before it runs, for the calendar to keep up with it. */
  predicate Orderly(s: State, step: Step) {
    match step
    case Acts(pid, action, how) => Takes(s, pid, action, how) ==> CalendarSafe(s.processes[pid], action)
    case Edits(pid, e, reach) =>
      pid in s.processes && s.processes[pid].status == Active ==>
        || reach.Lost?
        || RowOf(pid, Edited(s.processes[pid], e), false) == RowOf(pid, s.processes[pid], false)
        || (reach.Written? && Pending(s.hooks, pid).None?)
    case Archives(pid, synced) =>
      pid in s.processes && s.processes[pid].status != Archived ==>
        if pid in s.rows then synced else Pending(s.hooks, pid).None?
    case Restores(pid, synced) =>
      pid in s.processes && s.processes[pid].status == Archived && pid in s.rows ==> synced
    case HooksFail => s.hooks != [] && s.hooks[0].Index? ==> RowSpared(s, s.hooks[0].pid, s.hooks[0].copy)
    case _ => true
  }

  ghost predicate OrderlyRun(s: State, steps: seq<Step>) {
    steps == [] ||
    (OrderlyRun(s, steps[..|steps| - 1]) && Orderly(After(s, steps[..|steps| - 1]), steps[|steps| - 1]))
  }

  /** Outside production the table's refusal is enough. */
  lemma DeclaredIsOrderly(s: State, pid: string, action: Action, how: Dispatch)
    requires !how.production
    ensures Orderly(s, Acts(pid, action, how))
  {
    hide Handle;
  }

  lemma {:induction false} PendingAppend(hooks: seq<Hook>, more: seq<Hook>, pid: string)
    ensures Pending(hooks + more, pid) == if Pending(more, pid).Some? then Pending(more, pid) else Pending(hooks, pid)
  {
    if more == [] {
      assert hooks + more == hooks;
    } else {
      var n := |more| - 1;
      assert (hooks + more)[..|hooks + more| - 1] == hooks + more[..n];
      PendingAppend(hooks, more[..n], pid);
    }
  }

  lemma PendingFirst(hooks: seq<Hook>, pid: string)
    requires hooks != []
    ensures Pending(hooks, pid) ==
              if Pending(hooks[1..], pid).Some? then Pending(hooks[1..], pid)
              else if hooks[0].Index? && hooks[0].pid == pid then Some(hooks[0].copy) else None
  {
    assert hooks == [hooks[0]] + hooks[1..];
    PendingAppend([hooks[0]], hooks[1..], pid);
    assert [hooks[0]][..0] == [];
  }

  lemma HookKeeps(s: State)
    requires Agrees(s) && s.hooks != []
    ensures Agrees(RunHook(s))
  {
    var t := RunHook(s);
    forall pid | pid in t.processes ensures AgreesAt(t, pid) {
      assert AgreesAt(s, pid);
      PendingFirst(s.hooks, pid);
      hide Pending;
    }
    assert s.hooks[0].Index? ==> s.hooks[0].pid in s.processes;
  }

  lemma {:induction false} FailAgreesIff(s: State)
    requires Agrees(s)
    ensures Agrees(HookFails(s)) <==> Orderly(s, HooksFail)
  {
    if s.hooks != [] {
      var t := HookFails(s);
      var h := s.hooks[0];
      AgreesThereIfIndex(s);
      FailedElsewhere(s);
      FailedHooksKnown(s);
      if h.Index? {
        PendingFirst(s.hooks, h.pid);
        FailedPending(s, h.pid);
        FailedThereIff(s, t, h.pid, h.copy);
      }
      hide Pending, AgreesAt, RowOf;
    }
  }

  lemma FailedElsewhere(s: State)
    requires Agrees(s) && s.hooks != []
    ensures var t, h := HookFails(s), s.hooks[0];
            forall other :: other in t.processes && !(h.Index? && other == h.pid) ==> AgreesAt(t, other)
  {
    hide RowOf, AgreesAt;
    var t, h := HookFails(s), s.hooks[0];
    forall other | other in t.processes && !(h.Index? && other == h.pid)
      ensures AgreesAt(t, other)
    {
      assert AgreesAt(s, other);
      FailedPending(s, other);
      Untouched(s, t, other);
    }
  }

  lemma FailedHooksKnown(s: State)
    requires Agrees(s) && s.hooks != []
    ensures var t := HookFails(s); forall i :: 0 <= i < |t.hooks| && t.hooks[i].Index? ==> t.hooks[i].pid in t.processes
  {
    hide AgreesAt;
    var t := HookFails(s);
    forall i | 0 <= i < |t.hooks| && t.hooks[i].Index?
      ensures t.hooks[i].pid in t.processes
    {
      assert t.hooks[i] == s.hooks[i + |s.hooks| - |t.hooks|];
    }
  }

  lemma FailedPending(s: State, other: string)
    requires s.hooks != []
    ensures Pending(HookFails(s).hooks, other) == Pending(s.hooks[1..], other)
    ensures Pending(s.hooks, other) == Pending(s.hooks[1..], other) || (s.hooks[0].Index? && other == s.hooks[0].pid)
  {
    PendingFirst(s.hooks, other);
    if HookFails(s).hooks != s.hooks[1..] {
      PendingFirst(s.hooks[1..], other);
    }
  }

  lemma AgreesThereIfIndex(s: State)
    requires Agrees(s) && s.hooks != []
    ensures s.hooks[0].Index? ==> s.hooks[0].pid in s.processes && AgreesAt(s, s.hooks[0].pid)
  {
    hide AgreesAt;
  }

  lemma FailedThereIff(s: State, t: State, pid: string, copy: Process)
    requires pid in s.processes && AgreesAt(s, pid) && s.hooks != []
    requires t.processes == s.processes && t.rows == s.rows && Pending(t.hooks, pid) == Pending(s.hooks[1..], pid)
    requires Pending(s.hooks, pid) == if Pending(s.hooks[1..], pid).Some? then Pending(s.hooks[1..], pid) else Some(copy)
    ensures AgreesAt(t, pid) <==> RowSpared(s, pid, copy)
  {
    hide Pending;
  }

  lemma {:induction false} ActAgreesIff(s: State, pid: string, action: Action, how: Dispatch)
    requires Agrees(s)
    ensures Agrees(Attempt(s, pid, action, how)) <==> Orderly(s, Acts(pid, action, how))
  {
    hide AgreesAt, Pending, Handle, CalendarSafe, Lands, Agrees;
    var t := Attempt(s, pid, action, how);
    if Takes(s, pid, action, how) {
      TakenAgreesIff(s, pid, action, how);
    } else {
      SameCalendar(s, t);
    }
  }

  /** The processes, the rows and the queue are all the calendar depends on. */
  lemma SameCalendar(s: State, t: State)
    requires Agrees(s) && t.processes == s.processes && t.rows == s.rows && t.hooks == s.hooks
    ensures Agrees(t)
  {
    forall pid | pid in t.processes
      ensures AgreesAt(t, pid)
    {
      hide AgreesAt;
      assert AgreesAt(s, pid);
      Untouched(s, t, pid);
    }
  }

  lemma {:induction false} TakenAgreesIff(s: State, pid: string, action: Action, how: Dispatch)
    requires Agrees(s) && Takes(s, pid, action, how)
    ensures Agrees(Attempt(s, pid, action, how)) <==> CalendarSafe(s.processes[pid], action)
  {
    hide AgreesAt, Pending, Handle, CalendarSafe, Lands;
    var t := Attempt(s, pid, action, how);
    var p := s.processes[pid];
    var e := Handle(pid, p, GoingTo(s, pid), LimitOf(s.rows, pid), action).value;
    assert AgreesAt(s, pid);
    EffectQueues(pid, p, GoingTo(s, pid), LimitOf(s.rows, pid), action);
    assert t.hooks == s.hooks + e.hooks && t.rows == s.rows;
    PendingAppend(s.hooks, e.hooks, pid);
    ActedAgreesIff(s, t, pid, action, e);
    forall other | other in t.processes && other != pid
      ensures AgreesAt(t, other)
    {
      PendingAppend(s.hooks, e.hooks, other);
      assert AgreesAt(s, other);
      Untouched(s, t, other);
    }
    forall i | 0 <= i < |t.hooks| && t.hooks[i].Index?
      ensures t.hooks[i].pid in t.processes
    {
      if i < |s.hooks| {
        assert t.hooks[i] == s.hooks[i];
      } else {
        assert t.hooks[i] == e.hooks[i - |s.hooks|];
      }
    }
    assert Agrees(t) <==> AgreesAt(t, pid);
  }

  /** What a handled action queues, and where it leaves the process. */
  lemma EffectQueues(pid: string, p: Process, going: seq<string>, limit: Option<nat>, action: Action)
    requires Handle(pid, p, going, limit, action).Ok?
    ensures var e := Handle(pid, p, going, limit, action).value;
            Leaves(p, e.process, action) &&
            (forall other ::
               Pending(e.hooks, other) == if other == pid && !LiveAction(action) then Some(e.process) else None) &&
            (forall i :: 0 <= i < |e.hooks| && e.hooks[i].Index? ==> e.hooks[i].pid == pid)
  {
    var e := Handle(pid, p, going, limit, action).value;
    forall other ensures Pending(e.hooks, other) == if other == pid && !LiveAction(action) then Some(e.process) else None {
      PendingOne(Index(pid, e.process), other);
      PendingOne(TellGoing(pid, false), other);
      PendingTwo(Index(pid, e.process), TellGoing(pid, true), other);
    }
    hide Pending;
  }

  /** The process after an action: its status, and what its row would show. */
  predicate Leaves(p: Process, q: Process, action: Action) {
    match action
    case Publish => q == p.(status := Active)
    case Cancel(_, _) => q == p.(status := Closed, state := p.state.(cancelled := q.state.cancelled)) && q.state.cancelled.Some?
    case Close => q == p.(status := Closed)
    case _ => q == p
  }

  lemma {:induction false} ActedAgreesIff(s: State, t: State, pid: string, action: Action, e: Effect)
    requires pid in s.processes && AgreesAt(s, pid)
    requires pid in t.processes && t.processes[pid] == e.process && t.rows == s.rows
    requires Leaves(s.processes[pid], e.process, action)
    requires Pending(t.hooks, pid) == if LiveAction(action) then Pending(s.hooks, pid) else Some(e.process)
    ensures AgreesAt(t, pid) <==> CalendarSafe(s.processes[pid], action)
  {
    hide Pending;
  }

  /** An action that leaves the calendar's row as it is. */
  predicate LiveAction(action: Action) {
    !action.Publish? && !action.Cancel?
  }

  lemma PendingOne(h: Hook, pid: string)
    ensures Pending([h], pid) == if h.Index? && h.pid == pid then Some(h.copy) else None
    ensures Pending([], pid) == None
  {
    assert [h][..0] == [];
  }

  lemma PendingTwo(h: Hook, last: Hook, pid: string)
    requires last.TellGoing?
    ensures Pending([h, last], pid) == Pending([h], pid)
  {
    assert [h, last][..1] == [h];
  }

  /** What does not touch an event keeps it agreeing. */
  lemma Untouched(s: State, t: State, pid: string)
    requires pid in s.processes && AgreesAt(s, pid)
    requires pid in t.processes && t.processes[pid] == s.processes[pid]
    requires pid in t.rows <==> pid in s.rows
    requires pid in t.rows ==> t.rows[pid] == s.rows[pid]
    requires Pending(t.hooks, pid) == Pending(s.hooks, pid)
    ensures AgreesAt(t, pid)
  {
  }

  /** When only one event's process and row change, the calendar agrees exactly when it agrees there. */
  lemma OneChanges(s: State, t: State, pid: string)
    requires Agrees(s) && t.hooks == s.hooks && pid in s.processes
    requires t.processes.Keys == s.processes.Keys
    requires forall other :: other in s.processes && other != pid ==> t.processes[other] == s.processes[other]
    requires forall other :: other != pid ==> (other in t.rows <==> other in s.rows) && (other in t.rows ==> t.rows[other] == s.rows[other])
    ensures Agrees(t) <==> AgreesAt(t, pid)
  {
    forall other | other in t.processes && other != pid
      ensures AgreesAt(t, other)
    {
      hide AgreesAt;
      assert AgreesAt(s, other);
      Untouched(s, t, other);
    }
    hide AgreesAt;
  }

  lemma {:induction false} EditAgreesIff(s: State, pid: string, e: Edit, reach: Reach)
    requires Agrees(s)
    ensures Agrees(ApplyEdit(s, pid, e, reach)) <==> Orderly(s, Edits(pid, e, reach))
  {
    hide Pending, Agrees, Edited, Saves, EditTrail;
    if pid in s.processes && s.processes[pid].status == Active {
      var p := s.processes[pid];
      AgreesThere(s, pid);
      if !Saves(p, e) {
        UnsavedIsSame(p, e);
      } else if !reach.Lost? {
        EditedStands(p, e);
        OneChanges(s, ApplyEdit(s, pid, e, reach), pid) by {
          hide AgreesAt;
        }
      }
    }
  }

  /** Where the calendar agrees and nothing is queued, writing an event's row again changes nothing. */
  lemma RowStands(s: State, pid: string)
    requires Agrees(s) && pid in s.processes && s.processes[pid].status == Active && Pending(s.hooks, pid).None?
    ensures Upsert(s.rows, RowOf(pid, s.processes[pid], false)) == s.rows
  {
    AgreesThere(s, pid);
    hide Pending;
  }

  lemma EditedStands(p: Process, e: Edit)
    ensures Edited(p, e).status == p.status && Edited(p, e).previous == p.previous
    ensures Edited(p, e).state.cancelled == p.state.cancelled
  {
  }

  /** Where nothing is saved, nothing would have been different. */
  lemma UnsavedIsSame(p: Process, e: Edit)
    requires !Saves(p, e)
    ensures Edited(p, e) == p
  {
    SavesIff(p, e);
  }

  /**
    An edit saves something exactly when it names a location or a picture at all (or takes a stored one away), or
    gives another text, time, zone or limit: what it sends is compared with what the database hands back.
   */
  lemma SavesIff(p: Process, e: Edit)
    ensures Saves(p, e) <==>
            || e.location.Some?
            || (e.image.Some? && (e.image.value.Some? || p.state.image.Some?))
            || TextDiffers(e.title, p.title) || TextDiffers(e.description, p.description)
            || Differs(e.start, p.state.start) || Differs(e.end, p.state.end)
            || Differs(e.timeZone, p.state.timeZone) || Differs(e.capacity, p.state.capacity)
  {
    hide TextDiffers, Differs, Json.Alike, LocationJson, ImageJson;
    if e.location.Some? {
      LocationNeverAlike(p.state.location, e.location.value);
    }
    if e.image.Some? {
      PicturesAlikeIff(p.state.image, e.image.value);
    }
  }

  lemma AgreesThere(s: State, pid: string)
    requires Agrees(s) && pid in s.processes
    ensures AgreesAt(s, pid)
  {
    hide AgreesAt;
  }

  lemma ArchiveAgreesIff(s: State, pid: string, synced: bool)
    requires Agrees(s)
    ensures Agrees(Archive(s, pid, synced)) <==> Orderly(s, Archives(pid, synced))
    ensures Agrees(Restore(s, pid, synced)) <==> Orderly(s, Restores(pid, synced))
  {
    hide Pending, Agrees, RowOf;
    if pid in s.processes {
      AgreesThere(s, pid);
      hide AgreesAt, Orderly;
      OneChanges(s, Archive(s, pid, synced), pid);
      OneChanges(s, Restore(s, pid, synced), pid);
      ArchivedAtIff(s, pid, synced);
    }
  }

  lemma ArchivedAtIff(s: State, pid: string, synced: bool)
    requires pid in s.processes && AgreesAt(s, pid)
    ensures AgreesAt(Archive(s, pid, synced), pid) <==> Orderly(s, Archives(pid, synced))
    ensures AgreesAt(Restore(s, pid, synced), pid) <==> Orderly(s, Restores(pid, synced))
  {
    hide Pending;
  }

  lemma SubmitKeeps(s: State, pid: string, title: string, description: string, state: EventState)
    requires Agrees(s)
    ensures Agrees(Submit(s, pid, title, description, state))
  {
    var t := Submit(s, pid, title, description, state);
    NonePending(s.hooks, pid);
    forall other | other in t.processes ensures AgreesAt(t, other) {
      assert other in s.processes ==> AgreesAt(s, other);
      hide Pending;
    }
  }

  lemma ReviseKeeps(s: State, pid: string, title: string, description: string, state: EventState)
    requires Agrees(s)
    ensures Agrees(Revise(s, pid, title, description, state))
  {
    hide Pending, Agrees, RowOf;
    if pid in s.processes {
      AgreesThere(s, pid);
      OneChanges(s, Revise(s, pid, title, description, state), pid) by {
        hide AgreesAt;
      }
    }
  }

  lemma {:induction false} NonePending(hooks: seq<Hook>, pid: string)
    ensures Pending(hooks, pid).Some? ==> exists i :: 0 <= i < |hooks| && hooks[i].Index? && hooks[i].pid == pid
  {
    if hooks != [] {
      NonePending(hooks[..|hooks| - 1], pid);
    }
  }

  /** One step keeps the calendar agreeing exactly when it is orderly. */
  lemma {:induction false} StepAgreesIff(s: State, step: Step)
    requires Agrees(s)
    ensures Agrees(Next(s, step)) <==> Orderly(s, step)
  {
    hide Agrees, Attempt, ApplyEdit, Archive, Restore, Submit, Revise, HookFails;
    match step
    case Submits(pid, title, description, state) => SubmitKeeps(s, pid, title, description, state);
    case Revises(pid, title, description, state) => ReviseKeeps(s, pid, title, description, state);
    case Acts(pid, action, how) => ActAgreesIff(s, pid, action, how);
    case Hooks =>
      if s.hooks != [] {
        HookKeeps(s);
      }
    case HooksFail => FailAgreesIff(s);
    case Edits(pid, edit, reach) => EditAgreesIff(s, pid, edit, reach);
    case Archives(pid, synced) => ArchiveAgreesIff(s, pid, synced);
    case Restores(pid, synced) => ArchiveAgreesIff(s, pid, synced);
  }

  /** One event's part of the calendar. */
  predicate CalendaredAt(s: State, pid: string) {
    (pid in s.rows <==> pid in s.processes && Live(s.processes[pid])) &&
    (pid in s.rows && pid in s.processes ==> s.rows[pid] == RowOf(pid, s.processes[pid], s.processes[pid].status == Archived))
  }

  /** Every published event has its row, as its process reads and flagged as it is archived; nothing else has one. */
  ghost predicate Calendared(s: State) {
    forall pid :: CalendaredAt(s, pid)
  }

  /** The calendar agrees after each of a run's first steps. */
  ghost predicate AgreesThroughout(steps: seq<Step>) {
    forall n :: 0 <= n <= |steps| ==> Agrees(After(EMPTY, steps[..n]))
  }

  /**
    A run of submit, revise, publish, cancel, going, announce, edit, close, archive and restore, aborted, refused or
    committed, keeps the calendar in step with the processes all through exactly when every step of it is
    orderly; and then, once the hooks have drained, the rows are the projection of the processes.
   */
  lemma {:induction false} RunsAgreeIff(steps: seq<Step>)
    ensures AgreesThroughout(steps) <==> OrderlyRun(EMPTY, steps)
    ensures OrderlyRun(EMPTY, steps) && After(EMPTY, steps).hooks == [] ==> Calendared(After(EMPTY, steps))
  {
    hide Agrees, Next, Calendared;
    if steps == [] {
      NothingAgrees();
      assert steps[..0] == [];
    } else {
      var last := |steps| - 1;
      var init := steps[..last];
      RunsAgreeIff(init);
      forall n | 0 <= n <= last
        ensures init[..n] == steps[..n]
      {
      }
      assert steps[..last + 1] == steps && init[..last] == init;
      if AgreesThroughout(init) {
        StepAgreesIff(After(EMPTY, init), steps[last]);
        assert AgreesThroughout(steps) <==> Agrees(After(EMPTY, steps)) by {
          assert forall n :: 0 <= n <= last ==> Agrees(After(EMPTY, init[..n]));
        }
      } else {
        var n :| 0 <= n <= last && !Agrees(After(EMPTY, init[..n]));
        assert !Agrees(After(EMPTY, steps[..n]));
      }
    }
    if OrderlyRun(EMPTY, steps) {
      assert steps[..|steps|] == steps;
      DrainedAgrees(After(EMPTY, steps));
    }
  }

  lemma NothingAgrees()
    ensures Agrees(EMPTY)
  {
  }

  lemma DrainedAgrees(s: State)
    requires Agrees(s)
    ensures s.hooks == [] ==> Calendared(s)
  {
    if s.hooks == [] {
      forall pid
        ensures CalendaredAt(s, pid)
      {
        assert pid in s.processes ==> AgreesAt(s, pid);
      }
    }
  }

  /** Column by column: what a calendar in step shows of an event is what its process holds. */
  lemma RowsShowTheirEvents(s: State, pid: string)
    requires Calendared(s) && pid in s.rows
    ensures pid in s.processes
    ensures var row, p, state := s.rows[pid], s.processes[pid], s.processes[pid].state;
            && row.processId == pid && row.title == p.title && row.description == p.description
            && row.start == state.start && row.end == state.end && row.timeZone == state.timeZone
            && row.location == state.location && row.capacity == state.capacity
            && (row.cancelled <==> state.cancelled.Some?) && (row.archived <==> p.status == Archived)
            && (state.image.None? ==> row.imageUrl.None? && row.imageAlt.None?)
            && (state.image.Some? ==> row.imageUrl == Some(state.image.value.url))
            && (state.image.Some? ==> if state.image.value.alt == "" then row.imageAlt.None? else row.imageAlt == Some(state.image.value.alt))
  {
    assert CalendaredAt(s, pid);
  }

  // ----- What an edit that overtakes a hook leaves -----

  /** The rows once every queued hook has run. */
  function Drained(rows: map<string, CalendarRow>, hooks: seq<Hook>): map<string, CalendarRow> {
    if hooks == [] then rows else Ran(Drained(rows, hooks[..|hooks| - 1]), hooks[|hooks| - 1])
  }

  lemma {:induction false} DrainedRow(rows: map<string, CalendarRow>, hooks: seq<Hook>, pid: string)
    requires pid in rows && rows[pid].processId == pid
    ensures var d := Drained(rows, hooks);
            pid in d && d[pid].archived == rows[pid].archived &&
            d[pid] == if Pending(hooks, pid).Some? then RowOf(pid, Pending(hooks, pid).value, rows[pid].archived) else rows[pid]
  {
    if hooks != [] {
      DrainedRow(rows, hooks[..|hooks| - 1], pid);
    }
  }

  /**
    An edit writes its row at once.  Where an action's row is still queued, the
    hook overwrites it: after draining the row reads as the edited process
    exactly when nothing was queued for it, or what was queued reads the same.
   */
  lemma EditOvertakesIff(s: State, pid: string, e: Edit)
    requires Agrees(s) && pid in s.processes && s.processes[pid].status == Active
    requires Saves(s.processes[pid], e)
    ensures var t := ApplyEdit(s, pid, e, WHOLE);
            var rows := Drained(t.rows, t.hooks);
            var queued := Pending(s.hooks, pid);
            pid in rows &&
            (rows[pid] == RowOf(pid, t.processes[pid], false) <==>
               queued.None? || RowOf(pid, queued.value, false) == RowOf(pid, t.processes[pid], false))
  {
    var t := ApplyEdit(s, pid, e, WHOLE);
    EditedStands(s.processes[pid], e);
    assert AgreesAt(s, pid);
    DrainedRow(t.rows, t.hooks, pid);
    hide Pending, Drained;
  }

  // ----- One request, to the end of its queue -----

  /** The queue run to its end, the `n`th hook throwing where `lost(n)`. */
  function Settle(s: State, lost: nat -> bool, n: nat): State
    decreases |s.hooks|
  {
    if s.hooks == [] then s else Settle(if lost(n) then HookFails(s) else RunHook(s), lost, n + 1)
  }

  lemma {:induction false} SettledIsDrained(s: State, lost: nat -> bool, n: nat)
    requires forall k: nat :: n <= k ==> !lost(k)
    ensures Settle(s, lost, n) == s.(hooks := [], rows := Drained(s.rows, s.hooks))
    decreases |s.hooks|
  {
    if s.hooks == [] {
      assert s == s.(hooks := [], rows := Drained(s.rows, s.hooks));
    } else {
      SettledIsDrained(RunHook(s), lost, n + 1);
      DrainedFirst(s.rows, s.hooks);
    }
  }

  /** Throwing at the first of a request's hooks, where it queues a row. */
  function AtFirst(rowLost: bool): nat -> bool {
    (n: nat) => rowLost && n == 0
  }

  /** The row an action queues is not missed: the one there already reads as it will. */
  predicate RowNeedless(p: Process, action: Action) {
    match action
    case Publish => Live(p)
    case Cancel(_, _) => Live(p) && p.state.cancelled.Some?
    case _ => true
  }

  /**
    A request, to the end of its queue, leaves the calendar in step exactly if the action was safe where it ran
    and the write of its row did not throw, or was not needed.
   */
  lemma {:induction false} RequestAgreesIff(s: State, pid: string, action: Action, how: Dispatch, rowLost: bool)
    requires Agrees(s) && s.hooks == []
    ensures Calendared(Settle(Attempt(s, pid, action, how), AtFirst(rowLost), 0)) <==>
            Orderly(s, Acts(pid, action, how)) && (rowLost && Takes(s, pid, action, how) ==> RowNeedless(s.processes[pid], action))
  {
    hide Agrees, Calendared, Attempt, Orderly, Takes, RowNeedless, Settle;
    if rowLost && Takes(s, pid, action, how) {
      OrderlyWhereTaken(s, pid, action, how);
      TakenThenLostIff(s, pid, action, how);
    } else if rowLost {
      NotTakenQueuesNothing(s, pid, action, how);
      SettledIsDrained(Attempt(s, pid, action, how), AtFirst(false), 0);
      NothingToSettle(Attempt(s, pid, action, how));
      KeptRequestAgreesIff(s, pid, action, how);
    } else {
      SettledIsDrained(Attempt(s, pid, action, how), AtFirst(rowLost), 0);
      KeptRequestAgreesIff(s, pid, action, how);
    }
  }

  lemma OrderlyWhereTaken(s: State, pid: string, action: Action, how: Dispatch)
    requires Takes(s, pid, action, how)
    ensures Orderly(s, Acts(pid, action, how)) <==> CalendarSafe(s.processes[pid], action)
  {
    hide Handle, CalendarSafe;
  }

  lemma NotTakenQueuesNothing(s: State, pid: string, action: Action, how: Dispatch)
    requires s.hooks == [] && !Takes(s, pid, action, how)
    ensures Attempt(s, pid, action, how).hooks == []
  {
    hide Handle, Lands;
  }

  lemma NothingToSettle(s: State)
    requires s.hooks == []
    ensures Settle(s, AtFirst(true), 0) == Settle(s, AtFirst(false), 0) == s
  {
  }

  lemma {:induction false} TakenThenLostIff(s: State, pid: string, action: Action, how: Dispatch)
    requires Agrees(s) && s.hooks == [] && Takes(s, pid, action, how)
    ensures Calendared(Settle(Attempt(s, pid, action, how), AtFirst(true), 0)) <==>
            CalendarSafe(s.processes[pid], action) && RowNeedless(s.processes[pid], action)
  {
    var t := Attempt(s, pid, action, how);
    DrainedAgrees(s);
    LostQueue(s, pid, action, how);
    var u := t.(hooks := []);
    assert Settle(t, AtFirst(true), 0) == u;
    var e := Handle(pid, s.processes[pid], GoingTo(s, pid), LimitOf(s.rows, pid), action).value;
    EffectQueues(pid, s.processes[pid], GoingTo(s, pid), LimitOf(s.rows, pid), action);
    AgreesThere(s, pid);
    LostThereIff(s, u, pid, action);
    hide Agrees, Handle, Settle, Attempt, Takes, CalendarSafe, RowNeedless, CalendaredAt;
    forall other | other != pid
      ensures CalendaredAt(s, other) && CalendaredAt(u, other)
    {
      SameThere(s, u, pid, other);
    }
  }

  lemma SameThere(s: State, u: State, pid: string, other: string)
    requires Calendared(s) && other != pid && u.rows == s.rows && pid in s.processes && pid in u.processes
    requires u.processes == s.processes[pid := u.processes[pid]]
    ensures CalendaredAt(s, other) && CalendaredAt(u, other)
  {
  }

  /** With its first hook lost, nothing of the request's queue has been run. */
  lemma LostQueue(s: State, pid: string, action: Action, how: Dispatch)
    requires s.hooks == [] && Takes(s, pid, action, how)
    ensures var t := Attempt(s, pid, action, how);
            && Settle(t, AtFirst(true), 0) == t.(hooks := [])
            && t.rows == s.rows && t.processes == s.processes[pid := t.processes[pid]]
  {
    var t := Attempt(s, pid, action, how);
    assert |t.hooks| <= 2;
    if t.hooks != [] {
      assert HookFails(t).hooks == [] by {
        assert t.hooks == [t.hooks[0]] || t.hooks == [t.hooks[0], TellGoing(pid, true)];
      }
    }
    hide Trim, Length, Remove, RowOf;
  }

  lemma LostThereIff(s: State, u: State, pid: string, action: Action)
    requires Calendared(s) && pid in s.processes && pid in u.processes && u.rows == s.rows && Sane(s.processes[pid])
    requires Leaves(s.processes[pid], u.processes[pid], action)
    ensures CalendaredAt(u, pid) <==> CalendarSafe(s.processes[pid], action) && RowNeedless(s.processes[pid], action)
  {
    assert CalendaredAt(s, pid);
  }

  /** With nothing lost, exactly if it was safe. */
  lemma {:induction false} KeptRequestAgreesIff(s: State, pid: string, action: Action, how: Dispatch)
    requires Agrees(s) && s.hooks == []
    ensures var t := Attempt(s, pid, action, how);
            Calendared(t.(hooks := [], rows := Drained(t.rows, t.hooks))) <==> Orderly(s, Acts(pid, action, how))
  {
    hide Agrees, Calendared, Attempt;
    var t := Attempt(s, pid, action, how);
    ActAgreesIff(s, pid, action, how);
    if Orderly(s, Acts(pid, action, how)) {
      DrainKeeps(t);
      DrainedAgrees(t.(hooks := [], rows := Drained(t.rows, t.hooks)));
    } else {
      UnsafeShows(s, pid, action, how);
    }
  }

  /** A first publication whose row write throws: the event is live and on no calendar. */
  lemma LostRowLeavesNone(pid: string, title: string, description: string, state: EventState)
    ensures var t := After(EMPTY, FirstPublished(pid, title, description, state)[..2] + [HooksFail]);
            t.hooks == [] && pid in t.processes && t.processes[pid].status == Active && pid !in t.rows && !Calendared(t)
  {
    QueuedState(pid, title, description, state);
    var steps := FirstPublished(pid, title, description, state)[..2];
    hide After, FirstPublished;
    AfterMore(EMPTY, steps, HooksFail);
    var t := HookFails(After(EMPTY, steps));
    assert t.hooks == [];
    assert !CalendaredAt(t, pid);
  }

  lemma {:induction false} DrainKeeps(t: State)
    requires Agrees(t)
    ensures Agrees(t.(hooks := [], rows := Drained(t.rows, t.hooks)))
    decreases |t.hooks|
  {
    hide Agrees;
    if t.hooks == [] {
      assert t.(hooks := [], rows := Drained(t.rows, t.hooks)) == t;
    } else {
      HookKeeps(t);
      DrainKeeps(RunHook(t));
      DrainedFirst(t.rows, t.hooks);
    }
  }

  lemma {:induction false} DrainedFirst(rows: map<string, CalendarRow>, hooks: seq<Hook>)
    requires hooks != []
    ensures Drained(rows, hooks) == Drained(Ran(rows, hooks[0]), hooks[1..])
  {
    hide Ran;
    if |hooks| > 1 {
      DrainedFirst(rows, hooks[..|hooks| - 1]);
      assert hooks[..|hooks| - 1][1..] == hooks[1..][..|hooks[1..]| - 1];
    } else {
      assert hooks[..0] == [] && hooks[1..] == [];
    }
  }

  lemma {:induction false} UnsafeShows(s: State, pid: string, action: Action, how: Dispatch)
    requires Agrees(s) && s.hooks == [] && Takes(s, pid, action, how) && !CalendarSafe(s.processes[pid], action)
    ensures var t := Attempt(s, pid, action, how);
            !Calendared(t.(hooks := [], rows := Drained(t.rows, t.hooks)))
  {
    var t := Attempt(s, pid, action, how);
    AgreesThere(s, pid);
    if pid in s.rows {
      DrainedRow(t.rows, t.hooks, pid);
    } else {
      assert action.Close? && t.hooks == [] && t.rows == s.rows;
    }
    assert !CalendaredAt(t.(hooks := [], rows := Drained(t.rows, t.hooks)), pid);
    hide Drained, Pending, RowOf, Trim;
  }

  // ----- Aborted and refused actions -----

  /** An attempt that does not land leaves no trace but the attendance it wrote: the process, the rows, the events and the queue stand. */
  lemma AbortLeavesOnlyAttendance(s: State, pid: string, action: Action, how: Dispatch)
    requires pid in s.processes ==> !Lands(s.processes[pid], action, how)
    ensures var t := Attempt(s, pid, action, how);
            t == s.(going := t.going) && (!action.Going? && !action.NotGoing? ==> t == s)
  {
  }

  /** An edit none of whose writes is lost leaves no trace exactly when it saves nothing. */
  lemma EditLeavesNothingIff(s: State, pid: string, e: Edit, reach: Reach)
    requires pid in s.processes && s.processes[pid].status == Active
    requires reach.Written? && reach.count > 0
    ensures ApplyEdit(s, pid, e, reach) == s <==> !Saves(s.processes[pid], e)
  {
    hide Edited, Upsert, RowOf, Saves, TellsChange, ChangedFields;
    if Saves(s.processes[pid], e) {
      assert |ApplyEdit(s, pid, e, reach).records| > |s.records|;
    }
  }

  // ----- Attendance is its own record -----

  /** What one record says of one event's attendance. */
  function Applied(accounts: seq<string>, r: Record, pid: string): seq<string> {
    if r.Join? && r.pid == pid then accounts + [r.account]
    else if r.Leave? && r.pid == pid then Remove(accounts, r.account)
    else accounts
  }

  /** Who is going, by the Join and Leave records alone. */
  function Replay(records: seq<Record>, pid: string): seq<string> {
    if records == [] then [] else Applied(Replay(records[..|records| - 1], pid), records[|records| - 1], pid)
  }

  /** A record that can be where it is: joining when not going, leaving when going, counting who is left. */
  predicate Fits(records: seq<Record>, i: nat)
    requires i < |records|
  {
    var r, before := records[i], Replay(records[..i], records[i].pid);
    if r.Join? then r.account !in before && r.count == |before| + 1
    else if r.Leave? then r.account in before && r.count == |Remove(before, r.account)|
    else true
  }

  ghost predicate AllFit(records: seq<Record>) {
    forall i :: 0 <= i < |records| ==> Fits(records, i)
  }

  ghost predicate Recorded(s: State) {
    forall pid :: GoingTo(s, pid) == Replay(s.records, pid)
  }

  lemma ReplayPush(records: seq<Record>, r: Record, pid: string)
    ensures Replay(records + [r], pid) == Applied(Replay(records, pid), r, pid)
  {
    assert (records + [r])[..|records + [r]| - 1] == records;
  }

  lemma AllFitPush(records: seq<Record>, r: Record)
    requires AllFit(records)
    requires Fits(records + [r], |records|)
    ensures AllFit(records + [r])
  {
    var all := records + [r];
    forall i | 0 <= i < |all| ensures Fits(all, i) {
      if i < |records| {
        assert all[..i] == records[..i];
        assert Fits(records, i);
      }
    }
  }

  lemma {:induction false} RemoveShorter(accounts: seq<string>, account: string)
    ensures account in accounts <==> Remove(accounts, account) != accounts
    ensures |Remove(accounts, account)| <= |accounts|
    ensures account !in Remove(accounts, account)
    ensures forall a :: a != account ==> (a in Remove(accounts, account) <==> a in accounts)
    ensures account in accounts ==> |Remove(accounts, account)| < |accounts|
  {
    if accounts != [] {
      RemoveShorter(accounts[1..], account);
    }
  }

  /** The handler writes the event's attendance. */
  predicate WritesGoing(s: State, pid: string, action: Action) {
    match action
    case Going(account) => AddGoing(GoingTo(s, pid), LimitOf(s.rows, pid), account).Added?
    case NotGoing(account) => account in GoingTo(s, pid)
    case _ => false
  }

  /** An attempt that writes attendance and then does not land. */
  predicate Unrecorded(s: State, pid: string, action: Action, how: Dispatch) {
    pid in s.processes && WritesGoing(s, pid, action) && !Lands(s.processes[pid], action, how)
  }

  /** What one attempt records and what it writes. */
  lemma {:induction false} ActRecords(s: State, pid: string, action: Action, how: Dispatch)
    requires Recorded(s) && AllFit(s.records)
    ensures var t := Attempt(s, pid, action, how);
            AllFit(t.records) && (Recorded(t) <==> !Unrecorded(s, pid, action, how))
  {
    if Takes(s, pid, action, how) {
      CommitRecords(s, pid, action, how);
    } else {
      var t := Attempt(s, pid, action, how);
      assert GoingTo(s, pid) == Replay(s.records, pid);
      LeftGoing(s, pid, action, how);
      forall other
        ensures other != pid || !Unrecorded(s, pid, action, how) ==> GoingTo(t, other) == Replay(t.records, other)
      {
        assert GoingTo(s, other) == Replay(s.records, other);
      }
      hide Replay, Attempt, WritesGoing, Unrecorded;
    }
  }

  /** An attempt that does not take changes attendance exactly when the handler had written it. */
  lemma LeftGoing(s: State, pid: string, action: Action, how: Dispatch)
    requires !Takes(s, pid, action, how)
    ensures var t := Attempt(s, pid, action, how);
            t.records == s.records && (forall other :: other != pid ==> GoingTo(t, other) == GoingTo(s, other)) &&
            (GoingTo(t, pid) == GoingTo(s, pid) <==> !Unrecorded(s, pid, action, how))
  {
    if action.NotGoing? {
      RemoveShorter(GoingTo(s, pid), action.account);
    }
    hide Remove, Lands;
  }

  /** The one record an action leaves fits, and is what it did to the attendance. */
  lemma EffectFits(pid: string, p: Process, going: seq<string>, limit: Option<nat>, action: Action, records: seq<Record>)
    requires going == Replay(records, pid)
    requires Handle(pid, p, going, limit, action).Ok?
    ensures var e := Handle(pid, p, going, limit, action).value;
            |e.records| <= 1 &&
            (e.records == [] ==> e.going == going) &&
            (|e.records| == 1 ==>
               e.records[0].pid == pid && e.going == Applied(going, e.records[0], pid) &&
               Fits(records + [e.records[0]], |records|))
  {
    var e := Handle(pid, p, going, limit, action).value;
    if |e.records| == 1 {
      assert (records + [e.records[0]])[..|records|] == records;
    }
    hide Remove, Replay;
  }

  lemma CommitOutcome(s: State, pid: string, action: Action, how: Dispatch)
    requires Takes(s, pid, action, how)
    ensures var e := Handle(pid, s.processes[pid], GoingTo(s, pid), LimitOf(s.rows, pid), action).value;
            var t := Attempt(s, pid, action, how);
            t.records == s.records + e.records && GoingTo(t, pid) == e.going &&
            forall other :: other != pid ==> GoingTo(t, other) == GoingTo(s, other)
  {
    hide Handle;
  }

  lemma {:induction false} CommitRecords(s: State, pid: string, action: Action, how: Dispatch)
    requires Recorded(s) && AllFit(s.records)
    requires Takes(s, pid, action, how)
    ensures var t := Attempt(s, pid, action, how);
            AllFit(t.records) && Recorded(t)
  {
    hide Handle, Replay, AllFit, Fits, Attempt, GoingTo, Applied, LimitOf, Lands;
    var t := Attempt(s, pid, action, how);
    var e := Handle(pid, s.processes[pid], GoingTo(s, pid), LimitOf(s.rows, pid), action).value;
    assert GoingTo(s, pid) == Replay(s.records, pid);
    EffectFits(pid, s.processes[pid], GoingTo(s, pid), LimitOf(s.rows, pid), action, s.records);
    CommitOutcome(s, pid, action, how);
    if e.records == [] {
      assert t.records == s.records;
      forall other ensures GoingTo(t, other) == Replay(t.records, other) {
        assert GoingTo(s, other) == Replay(s.records, other);
      }
    } else {
      var r := e.records[0];
      assert t.records == s.records + [r];
      AllFitPush(s.records, r);
      forall other ensures GoingTo(t, other) == Replay(t.records, other) {
        assert GoingTo(s, other) == Replay(s.records, other);
        ReplayPush(s.records, r, other);
        OtherEvent(GoingTo(s, other), r, other);
      }
    }
  }

  lemma OtherEvent(accounts: seq<string>, r: Record, pid: string)
    ensures r.pid != pid ==> Applied(accounts, r, pid) == accounts
  {
  }

  /** Nothing stops between an attendance write and its record. */
  predicate Whole(s: State, step: Step) {
    step.Acts? ==> !Unrecorded(s, step.pid, step.action, step.how)
  }

  predicate WholeRun(steps: seq<Step>) {
    steps == [] || (WholeRun(steps[..|steps| - 1]) && Whole(After(EMPTY, steps[..|steps| - 1]), steps[|steps| - 1]))
  }

  /** One step keeps the attendance its record exactly when it is whole. */
  lemma StepRecordsIff(s: State, step: Step)
    requires Recorded(s) && AllFit(s.records)
    ensures AllFit(Next(s, step).records)
    ensures Recorded(Next(s, step)) <==> Whole(s, step)
  {
    hide Replay, Fits;
    var t := Next(s, step);
    match step
    case Acts(pid, action, how) =>
      hide Attempt, Unrecorded;
      ActRecords(s, pid, action, how);
    case Edits(pid, edit, reach) =>
      hide ApplyEdit, Recorded, AllFit;
      EditRecords(s, pid, edit, reach);
    case _ =>
      forall other ensures GoingTo(t, other) == Replay(t.records, other) {
        assert GoingTo(s, other) == Replay(s.records, other);
      }
  }

  lemma EditRecords(s: State, pid: string, e: Edit, reach: Reach)
    requires Recorded(s) && AllFit(s.records)
    ensures Recorded(ApplyEdit(s, pid, e, reach)) && AllFit(ApplyEdit(s, pid, e, reach).records)
  {
    hide Edited, RowOf, Upsert, Saves, TellsChange, ChangedFields, Replay, AllFit;
    var t := ApplyEdit(s, pid, e, reach);
    var more: seq<Record> := [];
    if pid in s.processes && s.processes[pid].status == Active && Saves(s.processes[pid], e) && !reach.Lost? {
      more := Left(EditTrail(pid, s.processes[pid], e), reach);
      TrailIsNeutral(pid, s.processes[pid], e, reach);
    } else {
      assert s.records + [] == s.records;
    }
    assert t.records == s.records + more && t.going == s.going;
    hide ApplyEdit;
    forall other ensures GoingTo(t, other) == Replay(t.records, other) {
      assert GoingTo(s, other) == Replay(s.records, other);
      NeutralRecords(s.records, more, other);
    }
    NeutralRecords(s.records, more, pid);
  }

  lemma TrailIsNeutral(pid: string, p: Process, e: Edit, reach: Reach)
    ensures var more := Left(EditTrail(pid, p, e), reach); forall i :: 0 <= i < |more| ==> !more[i].Join? && !more[i].Leave?
  {
    hide TellsChange, ChangedFields;
  }

  /** Records of neither joining nor leaving. */
  lemma {:induction false} NeutralRecords(records: seq<Record>, more: seq<Record>, pid: string)
    requires AllFit(records)
    requires forall i :: 0 <= i < |more| ==> !more[i].Join? && !more[i].Leave?
    ensures AllFit(records + more) && Replay(records + more, pid) == Replay(records, pid)
    decreases |more|
  {
    hide AllFit, Replay;
    if more == [] {
      assert records + more == records;
    } else {
      var n := |more| - 1;
      NeutralRecords(records, more[..n], pid);
      assert records + more == (records + more[..n]) + [more[n]];
      ReplayPush(records + more[..n], more[n], pid);
      AllFitPush(records + more[..n], more[n]);
    }
  }

  /**
    Replaying an event's Join and Leave records reproduces its attendance, in
    order; each record's count is the number going just after it.
   */
  lemma {:induction false} AttendanceReplays(steps: seq<Step>)
    requires WholeRun(steps)
    ensures Recorded(After(EMPTY, steps)) && AllFit(After(EMPTY, steps).records)
  {
    hide Next, Whole;
    if steps != [] {
      AttendanceReplays(steps[..|steps| - 1]);
      StepRecordsIff(After(EMPTY, steps[..|steps| - 1]), steps[|steps| - 1]);
    } else {
      NobodyRecorded();
    }
  }

  lemma NobodyRecorded()
    ensures Recorded(EMPTY) && AllFit(EMPTY.records)
  {
  }

  /** One account's joinings (true) and leavings (false) of one event, in order. */
  function Comings(records: seq<Record>, pid: string, account: string): seq<bool> {
    if records == [] then []
    else
      var r := records[|records| - 1];
      Comings(records[..|records| - 1], pid, account) +
      if r.Join? && r.pid == pid && r.account == account then [true]
      else if r.Leave? && r.pid == pid && r.account == account then [false]
      else []
  }

  predicate Alternate(c: seq<bool>) {
    forall i :: 0 <= i < |c| ==> c[i] == (i % 2 == 0)
  }

  lemma OneComingMore(c: seq<bool>, b: bool)
    requires Alternate(c) && b == (|c| % 2 == 0)
    ensures Alternate(c + [b]) && (|c + [b]| % 2 == 1 <==> b)
  {
  }

  lemma ComingsStep(records: seq<Record>, pid: string, account: string)
    requires records != []
    ensures var n := |records| - 1;
            var r := records[n];
            Comings(records, pid, account) ==
            if r.Join? && r.pid == pid && r.account == account then Comings(records[..n], pid, account) + [true]
            else if r.Leave? && r.pid == pid && r.account == account then Comings(records[..n], pid, account) + [false]
            else Comings(records[..n], pid, account)
  {
  }

  /** They strictly alternate, starting with joining; the last says whether the account is going. */
  lemma {:induction false} ComingsAlternate(records: seq<Record>, pid: string, account: string)
    requires AllFit(records)
    ensures var c := Comings(records, pid, account);
            Alternate(c) && (account in Replay(records, pid) <==> |c| % 2 == 1)
  {
    if records != [] {
      var n := |records| - 1;
      forall i | 0 <= i < n ensures Fits(records[..n], i) {
        assert Fits(records, i);
        assert records[..n][..i] == records[..i];
      }
      ComingsAlternate(records[..n], pid, account);
      assert Fits(records, n);
      var c, before, r := Comings(records[..n], pid, account), Replay(records[..n], pid), records[n];
      ComingsStep(records, pid, account);
      hide Comings, Remove;
      if r.Join? && r.pid == pid && r.account == account {
        assert account !in before;
        OneComingMore(c, true);
      }
      if r.Leave? && r.pid == pid {
        RemoveShorter(before, r.account);
        if r.account == account {
          assert account in before;
          OneComingMore(c, false);
        }
      }
      hide Alternate;
    }
  }

  /**
    Attendance grows in exactly one way: someone not going yet asks to, below the limit in force. It does so
    whatever the event's status and whether or not the attempt then lands.
   */
  lemma {:induction false} GrowsIff(s: State, step: Step, pid: string)
    ensures |GoingTo(Next(s, step), pid)| > |GoingTo(s, pid)| <==>
            && step.Acts? && step.pid == pid && pid in s.processes && step.action.Going?
            && step.action.account !in GoingTo(s, pid)
            && (LimitOf(s.rows, pid).None? || |GoingTo(s, pid)| < LimitOf(s.rows, pid).value)
    ensures |GoingTo(Next(s, step), pid)| > |GoingTo(s, pid)| ==>
              GoingTo(Next(s, step), pid) == GoingTo(s, pid) + [step.action.account]
  {
    hide ApplyEdit;
    if step.Acts? {
      if step.action.NotGoing? {
        RemoveShorter(GoingTo(s, step.pid), step.action.account);
      }
      hide Remove, Lands;
    } else {
      OthersKeepGoing(s, step);
    }
  }

  lemma OthersKeepGoing(s: State, step: Step)
    requires !step.Acts?
    ensures Next(s, step).going == s.going
  {
    hide Upsert, Flag, RowOf, Edited, Saves, EditTrail;
  }

  /** That limit is the event's own once it is published, however far an edit lowered it; before that there is none. */
  lemma LimitInForce(s: State, pid: string)
    requires Agrees(s) && pid in s.processes && Pending(s.hooks, pid).None?
    ensures LimitOf(s.rows, pid) == if Live(s.processes[pid]) then s.processes[pid].state.capacity else None
  {
    assert AgreesAt(s, pid);
    hide Pending;
  }

  // ----- Past and cancelled -----

  /** From publication on a cancelled event is closed. */
  predicate Sound(p: Process) {
    Sane(p) && (p.state.cancelled.Some? ==> Standing(p) == Closed)
  }

  ghost predicate AllSound(s: State) {
    forall pid :: pid in s.processes ==> Sound(s.processes[pid])
  }

  /** Then its word is one that declares its hub status. */
  lemma WordsFit(s: State, pid: string)
    requires AllSound(s) && pid in s.processes
    ensures var p := s.processes[pid];
            (p.state.cancelled.Some? ==> Standing(p) == Closed) &&
            (p.status == Active || p.status == Closed ==> HubStatus(WordOf(p)) == p.status)
  {
    assert Sound(s.processes[pid]);
  }

  /** A cancelled event published again. */
  predicate Revives(s: State, step: Step) {
    && step.Acts? && step.action.Publish? && Takes(s, step.pid, step.action, step.how)
    && s.processes[step.pid].state.cancelled.Some?
  }

  lemma HandleSoundIff(pid: string, p: Process, going: seq<string>, limit: Option<nat>, action: Action)
    requires Sound(p) && Handle(pid, p, going, limit, action).Ok?
    ensures Sound(Handle(pid, p, going, limit, action).value.process) <==> !(action.Publish? && p.state.cancelled.Some?)
  {
  }

  lemma {:induction false} ActSoundIff(s: State, pid: string, action: Action, how: Dispatch)
    requires AllSound(s)
    ensures AllSound(Attempt(s, pid, action, how)) <==> !Revives(s, Acts(pid, action, how))
  {
    hide Handle, Lands, Sound;
    var t := Attempt(s, pid, action, how);
    if Takes(s, pid, action, how) {
      var e := Handle(pid, s.processes[pid], GoingTo(s, pid), LimitOf(s.rows, pid), action).value;
      assert t.processes == s.processes[pid := e.process];
      HandleSoundIff(pid, s.processes[pid], GoingTo(s, pid), LimitOf(s.rows, pid), action);
      assert AllSound(t) <==> Sound(t.processes[pid]);
    } else {
      assert t.processes == s.processes;
    }
  }

  lemma {:induction false} OthersStaySound(s: State, step: Step)
    requires AllSound(s) && !step.Acts?
    ensures AllSound(Next(s, step))
  {
    hide Upsert, Flag, RowOf;
    var t := Next(s, step);
    forall pid | pid in t.processes
      ensures Sound(t.processes[pid])
    {
      assert pid in s.processes ==> Sound(s.processes[pid]);
    }
  }

  /** One step keeps every event sound exactly when it revives none. */
  lemma {:induction false} StepSoundIff(s: State, step: Step)
    requires AllSound(s)
    ensures AllSound(Next(s, step)) <==> !Revives(s, step)
  {
    hide AllSound;
    if step.Acts? {
      ActSoundIff(s, step.pid, step.action, step.how);
    } else {
      OthersStaySound(s, step);
    }
  }

  predicate RevivesIn(s: State, steps: seq<Step>)
    decreases |steps|
  {
    steps != [] && (RevivesIn(s, steps[..|steps| - 1]) || Revives(After(s, steps[..|steps| - 1]), steps[|steps| - 1]))
  }

  ghost predicate SoundThroughout(s: State, steps: seq<Step>) {
    forall n :: 0 <= n <= |steps| ==> AllSound(After(s, steps[..n]))
  }

  /** A run keeps every event sound all through exactly when no step of it publishes a cancelled one. */
  lemma {:induction false} RunsSoundIff(s: State, steps: seq<Step>)
    requires AllSound(s)
    ensures SoundThroughout(s, steps) <==> !RevivesIn(s, steps)
    decreases |steps|
  {
    hide Next, AllSound, Revives;
    if steps == [] {
      assert steps[..0] == [];
    } else {
      var last := |steps| - 1;
      var init := steps[..last];
      RunsSoundIff(s, init);
      forall n | 0 <= n <= last
        ensures init[..n] == steps[..n]
      {
      }
      assert steps[..last + 1] == steps && init[..last] == init;
      if SoundThroughout(s, init) {
        StepSoundIff(After(s, init), steps[last]);
        assert forall n :: 0 <= n <= last ==> AllSound(After(s, init[..n]));
      } else {
        var n :| 0 <= n <= last && !AllSound(After(s, init[..n]));
        assert !AllSound(After(s, steps[..n]));
      }
    }
  }

  /** Past or cancelled. */
  predicate Over(s: State, pid: string) {
    pid in s.processes && Standing(s.processes[pid]) == Closed
  }

  /** Still so, its words, times, place and cancellation as they were. */
  predicate StillOver(s: State, t: State, pid: string)
    requires pid in s.processes
  {
    Over(t, pid) &&
    var p, q := s.processes[pid], t.processes[pid];
    q.state == p.state && q.title == p.title && q.description == p.description
  }

  /** Published again, or cancelled anew. */
  predicate Reopens(s: State, step: Step, pid: string)
    requires pid in s.processes
  {
    && step.Acts? && step.pid == pid && Takes(s, pid, step.action, step.how)
    && match step.action
       case Publish => true
       case Cancel(reason, at) => s.processes[pid].state.cancelled != Some(Cancellation(at, Trim(reason)))
       case _ => false
  }

  /** One step leaves a past or cancelled event as it is exactly when it neither publishes nor cancels it. */
  lemma {:induction false} StepOverIff(s: State, step: Step, pid: string)
    requires Over(s, pid)
    ensures StillOver(s, Next(s, step), pid) <==> !Reopens(s, step, pid)
  {
    if step.Acts? {
      hide Trim, Remove, ApplyEdit;
    } else {
      OthersKeepOver(s, step, pid);
    }
  }

  lemma {:induction false} OthersKeepOver(s: State, step: Step, pid: string)
    requires Over(s, pid) && !step.Acts?
    ensures StillOver(s, Next(s, step), pid)
  {
    hide Upsert, Flag, RowOf, Edited, Saves, EditTrail;
  }

  predicate ReopensIn(s: State, steps: seq<Step>, pid: string)
    requires Over(s, pid)
    decreases |steps|
  {
    steps != [] &&
    var init := steps[..|steps| - 1];
    ReopensIn(s, init, pid) || (pid in After(s, init).processes && Reopens(After(s, init), steps[|steps| - 1], pid))
  }

  ghost predicate OverThroughout(s: State, steps: seq<Step>, pid: string)
    requires pid in s.processes
  {
    forall n :: 0 <= n <= |steps| ==> StillOver(s, After(s, steps[..n]), pid)
  }

  /** Past and cancelled last all through a run exactly when no step of it publishes the event again or cancels it anew. */
  lemma {:induction false} OverIsAbsorbingIff(s: State, steps: seq<Step>, pid: string)
    requires Over(s, pid)
    ensures OverThroughout(s, steps, pid) <==> !ReopensIn(s, steps, pid)
    decreases |steps|
  {
    hide Next, Reopens;
    if steps == [] {
      assert steps[..0] == [];
    } else {
      var last := |steps| - 1;
      var init := steps[..last];
      OverIsAbsorbingIff(s, init, pid);
      forall n | 0 <= n <= last
        ensures init[..n] == steps[..n]
      {
      }
      assert steps[..last + 1] == steps && init[..last] == init;
      if OverThroughout(s, init, pid) {
        StepOverIff(After(s, init), steps[last], pid);
        assert StillOver(s, After(s, init[..last]), pid);
        assert forall n :: 0 <= n <= last ==> StillOver(s, After(s, init[..n]), pid);
      } else {
        var n :| 0 <= n <= last && !StillOver(s, After(s, init[..n]), pid);
        assert !StillOver(s, After(s, steps[..n]), pid);
      }
    }
  }

  /** And so does its word. */
  lemma SameWord(s: State, t: State, pid: string)
    requires Over(s, pid) && StillOver(s, t, pid)
    ensures var p, q := s.processes[pid], t.processes[pid];
            p.status != Archived && q.status != Archived ==> WordOf(q) == WordOf(p) && WordOf(p) != Scheduled
  {
  }

  /** No action the table refuses ever lands. */
  predicate TableKept(steps: seq<Step>) {
    forall i :: 0 <= i < |steps| && steps[i].Acts? ==> !steps[i].how.production
  }

  /** Where the table's refusal is enforced, nothing published is revived and nothing over reopened. */
  lemma {:induction false} TableKeepsOver(s: State, steps: seq<Step>, pid: string)
    requires AllSound(s) && TableKept(steps)
    ensures !RevivesIn(s, steps)
    ensures Over(s, pid) ==> !ReopensIn(s, steps, pid)
    decreases |steps|
  {
    if steps != [] {
      var n := |steps| - 1;
      var init := steps[..n];
      TableKeepsOver(s, init, pid);
      RunsSoundIff(s, init);
      assert init[..n] == init && AllSound(After(s, init[..n]));
      DeclaredNeitherRevives(After(s, init), steps[n], pid);
      if Over(s, pid) {
        OverIsAbsorbingIff(s, init, pid);
        assert StillOver(s, After(s, init[..n]), pid);
      }
    }
  }

  lemma DeclaredNeitherRevives(s: State, step: Step, pid: string)
    requires AllSound(s) && (step.Acts? ==> !step.how.production)
    ensures !Revives(s, step)
    ensures Over(s, pid) ==> !Reopens(s, step, pid)
  {
    if step.Acts? && step.pid in s.processes {
      assert Sound(s.processes[step.pid]);
    }
    hide Handle, Trim;
  }

  /** An event reads as closed exactly when it is active and its end has passed, and then as the close action would leave it. */
  lemma ReadsAsItWillClose(s: State, pid: string, now: int, how: Dispatch)
    requires pid in s.processes && AllSound(s) && how.commit
    ensures var p := s.processes[pid];
            (ReadAsClosed(p, now).Some? <==> p.status == Active && p.state.end < now) &&
            (ReadAsClosed(p, now).Some? ==>
               var shown, closed := ReadAsClosed(p, now).value, Attempt(s, pid, Close, how).processes[pid];
               shown == closed && WordOf(shown) == Past)
  {
    assert Sound(s.processes[pid]);
  }

  // ----- In production -----

  const PRODUCTION := Dispatch(true, true)
  const CHECKED := Dispatch(false, true)

  lemma AfterMore(s: State, steps: seq<Step>, step: Step)
    ensures After(s, steps + [step]) == Next(After(s, steps), step)
  {
    assert (steps + [step])[..|steps|] == steps;
  }

  /** Submitted, published, and its row written. */
  function FirstPublished(pid: string, title: string, description: string, state: EventState): seq<Step> {
    [Submits(pid, title, description, state), Acts(pid, Publish, PRODUCTION), Hooks]
  }

  /** Where such a run is: one active event and its row. */
  function OnePublished(pid: string, p: Process, records: seq<Record>): State {
    State(map[pid := p], map[pid := RowOf(pid, p, false)], map[], records, [])
  }

  lemma QueuedState(pid: string, title: string, description: string, state: EventState)
    ensures var p := Process(title, description, state.(cancelled := None), Active, PendingReview);
            After(EMPTY, FirstPublished(pid, title, description, state)[..2])
            == State(map[pid := p], map[], map[], [Published(pid)], [Index(pid, p)])
  {
    var submit, publish := Submits(pid, title, description, state), Acts(pid, Publish, PRODUCTION);
    AfterMore(EMPTY, [], submit);
    AfterMore(EMPTY, [submit], publish);
    assert After(EMPTY, []) == EMPTY;
    assert [] + [submit] == [submit] && [submit] + [publish] == [submit, publish];
    assert FirstPublished(pid, title, description, state)[..2] == [submit, publish];
    hide After, FirstPublished;
    var q := Process(title, description, state.(cancelled := None), PendingReview, PendingReview);
    assert Next(EMPTY, submit) == State(map[pid := q], map[], map[], [], []);
    PublishesFirst(pid, q);
  }

  lemma PublishesFirst(pid: string, q: Process)
    requires q.status == PendingReview
    ensures Next(State(map[pid := q], map[], map[], [], []), Acts(pid, Publish, PRODUCTION)) ==
            State(map[pid := q.(status := Active)], map[], map[], [Published(pid)], [Index(pid, q.(status := Active))])
  {
    assert map[pid := q][pid := q.(status := Active)] == map[pid := q.(status := Active)];
    assert [] + [Published(pid)] == [Published(pid)];
  }

  lemma PublishedState(pid: string, title: string, description: string, state: EventState)
    ensures var p := Process(title, description, state.(cancelled := None), Active, PendingReview);
            After(EMPTY, FirstPublished(pid, title, description, state)) == OnePublished(pid, p, [Published(pid)])
  {
    QueuedState(pid, title, description, state);
    var steps := FirstPublished(pid, title, description, state);
    assert steps == steps[..2] + [Hooks];
    AfterMore(EMPTY, steps[..2], Hooks);
    var p := Process(title, description, state.(cancelled := None), Active, PendingReview);
    assert [Index(pid, p)][1..] == [];
    hide After;
  }

  /** An edit of the name alone. */
  function Renaming(title: string, wording: Wording): Edit {
    Edit(Some(title), None, None, None, None, None, None, None, wording)
  }

  /** An edit before the publication's row is written: the row then shows the old name. */
  lemma QueuedRowOvertakesEdit(pid: string, title: string, description: string, state: EventState, renamed: string, wording: Wording)
    requires Trim(renamed) != Trim(title) && Trim(renamed) == renamed
    ensures var steps := FirstPublished(pid, title, description, state)[..2] + [Edits(pid, Renaming(renamed, wording), WHOLE)];
            var t := After(EMPTY, steps + [Hooks]);
            && t.hooks == [] && pid in t.processes && t.processes[pid].title == renamed
            && pid in t.rows && t.rows[pid].title == title
  {
    hide After, ApplyEdit, Attempt;
    QueuedState(pid, title, description, state);
    var steps := FirstPublished(pid, title, description, state)[..2];
    var edit := Edits(pid, Renaming(renamed, wording), WHOLE);
    AfterMore(EMPTY, steps, edit);
    AfterMore(EMPTY, steps + [edit], Hooks);
    RenamedState(After(EMPTY, steps), pid, renamed, wording);
  }

  lemma RenamedState(s: State, pid: string, renamed: string, wording: Wording)
    requires pid in s.processes && s.processes[pid].status == Active && Trim(renamed) == renamed != Trim(s.processes[pid].title)
    ensures var t := ApplyEdit(s, pid, Renaming(renamed, wording), WHOLE);
            && t.hooks == s.hooks && pid in t.processes && t.processes[pid].title == renamed
            && pid in t.rows && t.rows == Upsert(s.rows, RowOf(pid, t.processes[pid], false))
  {
    hide Trim, TellsChange, ChangedFields, Upsert, RowOf;
    assert TextDiffers(Some(renamed), s.processes[pid].title);
    assert pid in Upsert(s.rows, RowOf(pid, Edited(s.processes[pid], Renaming(renamed, wording)), false)) by {
      InItsPlace(s.rows, pid, Edited(s.processes[pid], Renaming(renamed, wording)));
    }
  }

  lemma InItsPlace(rows: map<string, CalendarRow>, pid: string, p: Process)
    ensures pid in Upsert(rows, RowOf(pid, p, false))
  {
  }

  /** An admin's publish after a cancellation: active again and still cancelled, under a word that declares it closed. */
  lemma PublishRevivesCancelled(pid: string, title: string, description: string, state: EventState, at: int)
    ensures var steps := FirstPublished(pid, title, description, state) + [Acts(pid, Cancel("", at), PRODUCTION)];
            var s, t := After(EMPTY, steps), After(EMPTY, steps + [Acts(pid, Publish, PRODUCTION)]);
            && Over(s, pid) && !Over(t, pid)
            && pid in t.processes && t.processes[pid].status == Active
            && HubStatus(WordOf(t.processes[pid])) == Closed && !Sound(t.processes[pid])
  {
    PublishedState(pid, title, description, state);
    var steps := FirstPublished(pid, title, description, state);
    AfterMore(EMPTY, steps, Acts(pid, Cancel("", at), PRODUCTION));
    AfterMore(EMPTY, steps + [Acts(pid, Cancel("", at), PRODUCTION)], Acts(pid, Publish, PRODUCTION));
    assert Trim("") == "" && Length("") == 0;
    hide After, RowOf, Trim, Length;
  }

  /** A cancel after the end: a past event becomes a cancelled one. */
  lemma CancelRewritesPast(pid: string, title: string, description: string, state: EventState, at: int)
    ensures var steps := FirstPublished(pid, title, description, state) + [Acts(pid, Close, PRODUCTION)];
            var s, t := After(EMPTY, steps), After(EMPTY, steps + [Acts(pid, Cancel("", at), PRODUCTION)]);
            && pid in s.processes && WordOf(s.processes[pid]) == Past
            && pid in t.processes && WordOf(t.processes[pid]) == CancelledWord && !StillOver(s, t, pid)
  {
    PublishedState(pid, title, description, state);
    var steps := FirstPublished(pid, title, description, state);
    AfterMore(EMPTY, steps, Acts(pid, Close, PRODUCTION));
    AfterMore(EMPTY, steps + [Acts(pid, Close, PRODUCTION)], Acts(pid, Cancel("", at), PRODUCTION));
    assert Trim("") == "" && Length("") == 0;
    hide After, RowOf, Trim, Length;
  }

  /** A publish of an archived event: it is active, and its row stays archived and off the calendar. */
  lemma PublishLeavesArchivedRow(pid: string, title: string, description: string, state: EventState)
    ensures var steps := FirstPublished(pid, title, description, state) + [Archives(pid, true)];
            var t := After(EMPTY, steps + [Acts(pid, Publish, PRODUCTION)] + [Hooks]);
            && t.hooks == [] && pid in t.processes && t.processes[pid].status == Active
            && pid in t.rows && t.rows[pid].archived && !Calendared(t)
  {
    PublishedState(pid, title, description, state);
    var steps := FirstPublished(pid, title, description, state);
    AfterMore(EMPTY, steps, Archives(pid, true));
    AfterMore(EMPTY, steps + [Archives(pid, true)], Acts(pid, Publish, PRODUCTION));
    AfterMore(EMPTY, steps + [Archives(pid, true)] + [Acts(pid, Publish, PRODUCTION)], Hooks);
    var t := After(EMPTY, steps + [Archives(pid, true)] + [Acts(pid, Publish, PRODUCTION)] + [Hooks]);
    hide After;
    assert !CalendaredAt(t, pid);
  }

  lemma ClosedState(pid: string, title: string, description: string, state: EventState)
    ensures var p := Process(title, description, state.(cancelled := None), Closed, PendingReview);
            After(EMPTY, FirstPublished(pid, title, description, state) + [Acts(pid, Close, CHECKED)])
            == State(map[pid := p], map[pid := RowOf(pid, p, false)], map[], [Published(pid), Ended(pid)], [])
  {
    PublishedState(pid, title, description, state);
    AfterMore(EMPTY, FirstPublished(pid, title, description, state), Acts(pid, Close, CHECKED));
    hide After;
  }

  /** Outside production: the refusal comes after the write, and someone is going to an event that is over, unrecorded. */
  lemma RefusedButGoing(pid: string, title: string, description: string, state: EventState, account: string)
    requires state.capacity.None?
    ensures var steps := FirstPublished(pid, title, description, state) + [Acts(pid, Close, CHECKED)];
            var s, t := After(EMPTY, steps), After(EMPTY, steps + [Acts(pid, Going(account), CHECKED)]);
            && Over(s, pid) && GoingTo(s, pid) == [] && GoingTo(t, pid) == [account]
            && t.records == s.records && !Recorded(t)
  {
    hide After, Replay, FirstPublished;
    ClosedState(pid, title, description, state);
    NobodyCame(pid);
    AfterMore(EMPTY, FirstPublished(pid, title, description, state) + [Acts(pid, Close, CHECKED)], Acts(pid, Going(account), CHECKED));
  }

  lemma NobodyCame(pid: string)
    ensures Replay([Published(pid), Ended(pid)], pid) == []
  {
    ReplayPush([], Published(pid), pid);
    ReplayPush([Published(pid)], Ended(pid), pid);
    assert [] + [Published(pid)] == [Published(pid)];
    assert [Published(pid)] + [Ended(pid)] == [Published(pid), Ended(pid)];
  }
}
