/**
  The Events plugin as its code runs: a store of rows (packages/civic.event/
  store.ts) and the handler's actions on the hub's processes (handler.ts), each
  method leaving exactly the state its step of the machine names.
 */
module EventHub {
  import opened Wrappers
  import opened Text
  import opened EventData
  import opened EventMachine
  import opened EventRuns

  // ----- The calendar's order -----

  /** Earliest first, then by identifier. */
  predicate Before(a: CalendarRow, b: CalendarRow) {
    a.start < b.start || (a.start == b.start && !Less(b.processId, a.processId))
  }

  predicate Ordered(rows: seq<CalendarRow>) {
    forall i, j :: 0 <= i < j < |rows| ==> Before(rows[i], rows[j])
  }

  lemma {:induction false} LessTotal(a: string, b: string, c: string)
    ensures Less(a, b) ==> !Less(b, a)
    ensures !Less(b, a) && !Less(c, b) ==> !Less(c, a)
  {
    if a != "" && b != "" && c != "" {
      LessTotal(a[1..], b[1..], c[1..]);
    } else if a != "" && b != "" {
      LessTotal(a[1..], b[1..], c);
    }
  }

  lemma BeforeTotal(a: CalendarRow, b: CalendarRow, c: CalendarRow)
    ensures Before(a, b) || Before(b, a)
    ensures Before(a, b) && Before(b, c) ==> Before(a, c)
  {
    LessTotal(a.processId, b.processId, c.processId);
    LessTotal(b.processId, a.processId, c.processId);
  }

  function Listed(rows: map<string, CalendarRow>): set<string> {
    set pid | pid in rows && !rows[pid].archived
  }

  // ----- What the plugin keeps beyond each process -----

  class EventStore {
    var events: map<string, CalendarRow>
    var attendance: map<string, seq<string>>

    constructor ()
      ensures events == map[] && attendance == map[]
    {
      events, attendance := map[], map[];
    }

    method UpsertEvent(row: CalendarRow)
      modifies this`events
      ensures events == Upsert(old(events), row)
      ensures row.processId in old(events) ==> events[row.processId].archived == old(events)[row.processId].archived
    {
      if row.processId in events {
        events := events[row.processId := row.(archived := events[row.processId].archived)];
      } else {
        events := events[row.processId := row.(archived := false)];
      }
    }

    method SetArchived(pid: string, archived: bool)
      modifies this`events
      ensures events == Flag(old(events), pid, archived)
    {
      if pid in events {
        events := events[pid := events[pid].(archived := archived)];
      }
    }

    /** The calendar, earliest first, archived events left out. */
    method Calendar() returns (rows: seq<CalendarRow>)
      ensures forall i, j :: 0 <= i < j < |rows| ==>
                rows[i].start < rows[j].start || (rows[i].start == rows[j].start && !Less(rows[j].processId, rows[i].processId))
      ensures |rows| == |Listed(events)|
      ensures forall row :: row in rows <==> exists pid :: pid in events && !events[pid].archived && row == events[pid]
    {
      rows := [];
      var left := Listed(events);
      ghost var done: set<string> := {};
      while left != {}
        invariant left + done == Listed(events) && left !! done
        invariant Ordered(rows) && |rows| == |done|
        invariant forall row :: row in rows <==> exists pid :: pid in done && row == events[pid]
        decreases left
      {
        var pid :| pid in left;
        rows := Insert(rows, events[pid]);
        left := left - {pid};
        done := done + {pid};
      }
    }

    function GoingCount(pid: string): nat
      reads this`attendance
    {
      |Attending(pid)|
    }

    function Attending(pid: string): seq<string>
      reads this`attendance
    {
      if pid in attendance then attendance[pid] else []
    }

    /** The insert the database's key and capacity trigger may refuse. */
    method InsertGoing(pid: string, account: string) returns (r: AddResult)
      modifies this`attendance
      ensures r == AddGoing(old(Attending(pid)), LimitOf(events, pid), account)
      ensures attendance == if r.Added? then old(attendance)[pid := old(Attending(pid)) + [account]] else old(attendance)
    {
      var accounts := Attending(pid);
      if account in accounts {
        return Already;
      }
      if pid in events && events[pid].capacity.Some? && |accounts| >= events[pid].capacity.value {
        return Full;
      }
      attendance := attendance[pid := accounts + [account]];
      return Added;
    }

    method RemoveGoing(pid: string, account: string) returns (removed: bool)
      modifies this`attendance
      ensures removed <==> account in old(Attending(pid))
      ensures attendance == if removed then old(attendance)[pid := Remove(old(Attending(pid)), account)] else old(attendance)
    {
      var accounts := Attending(pid);
      removed := account in accounts;
      if removed {
        attendance := attendance[pid := Remove(accounts, account)];
      }
    }
  }

  /** A row put in its place. */
  method Insert(rows: seq<CalendarRow>, row: CalendarRow) returns (out: seq<CalendarRow>)
    requires Ordered(rows)
    ensures Ordered(out) && |out| == |rows| + 1
    ensures forall r :: r in out <==> r in rows || r == row
  {
    var i := 0;
    while i < |rows| && Before(rows[i], row)
      invariant 0 <= i <= |rows|
      invariant forall j :: 0 <= j < i ==> Before(rows[j], row)
    {
      i := i + 1;
    }
    out := rows[..i] + [row] + rows[i..];
    forall j | i <= j < |rows| ensures Before(row, rows[j]) {
      BeforeTotal(row, rows[i], rows[j]);
    }
    assert rows == rows[..i] + rows[i..];
  }

  // ----- The hub -----

  class Hub {
    const store: EventStore
    var processes: map<string, Process>
    var records: seq<Record>
    var hooks: seq<Hook>

    constructor (store: EventStore)
      ensures this.store == store && processes == map[] && records == [] && hooks == []
    {
      this.store := store;
      processes, records, hooks := map[], [], [];
    }

    ghost function Now(): State
      reads this, store
    {
      State(processes, store.events, store.attendance, records, hooks)
    }

    /** The handler: works on its copy of the process, queues what must wait, and writes attendance itself. */
    method HandleAction(pid: string, process: Process, action: Action)
      returns (error: Option<Error>, after: Process, held: seq<Record>, queued: seq<Hook>)
      modifies store`attendance
      ensures var e := Handle(pid, process, old(store.Attending(pid)), LimitOf(store.events, pid), action);
              if e.Err? then error == Some(e.error) && store.attendance == old(store.attendance)
              else error.None? && after == e.value.process && held == e.value.records && queued == e.value.hooks &&
                   store.attendance == WithGoing(old(Now()), pid, e.value.going).going
    {
      error, after, held, queued := None, process, [], [];
      match action
      case Publish =>
        after := after.(status := Active);
        queued := queued + [Index(pid, after)];
        held := held + [Published(pid)];
      case Cancel(text, at) =>
        var reason := Trim(text);
        if Length(reason) > REASON_MAX {
          error := Some(TooLong);
          return;
        }
        after := after.(state := after.state.(cancelled := Some(Cancellation(at, reason))));
        after := after.(status := Closed);
        queued := queued + [Index(pid, after)];
        held := held + [Cancelled(pid, reason)];
        queued := queued + [TellGoing(pid, true)];
      case Going(account) =>
        var added := store.InsertGoing(pid, account);
        if added.Full? {
          error := Some(EventFull);
          return;
        }
        if added.Added? {
          held := held + [Join(pid, account, store.GoingCount(pid))];
        }
      case NotGoing(account) =>
        ghost var before := store.Attending(pid);
        var removed := store.RemoveGoing(pid, account);
        RemoveShorter(before, account);
        if removed {
          held := held + [Leave(pid, account, store.GoingCount(pid))];
        }
      case Announce(sender, rawSubject, rawMessage) =>
        var subject, message := Trim(rawSubject), Trim(rawMessage);
        if subject == "" || Length(subject) > SUBJECT_MAX {
          error := Some(SubjectInvalid);
          return;
        }
        if message == "" || Length(message) > MESSAGE_MAX {
          error := Some(MessageInvalid);
          return;
        }
        held := held + [Announced(pid, |Remove(store.Attending(pid), sender)|)];
        queued := queued + [TellGoing(pid, false)];
      case Close =>
        after := after.(status := Closed);
        held := held + [Ended(pid)];
    }

    /** One attempt: the handler, then the action table, then the write of the process, its events and its queued work. */
    method ExecuteAction(pid: string, action: Action, how: Dispatch) returns (error: Option<Error>)
      modifies this, store`attendance
      ensures Now() == Attempt(old(Now()), pid, action, how)
      ensures error.None? <==> Takes(old(Now()), pid, action, how)
      ensures error.Some? ==> processes == old(processes) && records == old(records) && hooks == old(hooks)
    {
      if pid !in processes {
        return Some(NotFound);
      }
      var before := processes[pid];
      var refused, after, held, queued := HandleAction(pid, before, action);
      if refused.Some? {
        return refused;
      }
      if before.status != From(action) && !how.production {
        return Some(WrongStatus);
      }
      if !how.commit {
        return Some(Conflict);
      }
      processes := processes[pid := after];
      records := records + held;
      hooks := hooks + queued;
      return None;
    }

    method RunNext()
      requires hooks != []
      modifies this`hooks, store`events
      ensures Now() == RunHook(old(Now()))
    {
      var h := hooks[0];
      if h.Index? {
        store.UpsertEvent(RowOf(h.pid, h.copy, false));
      }
      hooks := hooks[1..];
    }

    /** A hook that throws: nothing it was to do is done, nor the rest of its action's. */
    method LoseNext()
      requires hooks != []
      modifies this`hooks
      ensures Now() == HookFails(old(Now()))
    {
      var h := hooks[0];
      hooks := hooks[1..];
      if h.Index? && hooks != [] && hooks[0] == TellGoing(h.pid, true) {
        hooks := hooks[1..];
      }
    }

    /** The work after a commit, in the order it was queued, the `n`th throwing where `lost(n)`. */
    method Drain(lost: nat -> bool)
      modifies this`hooks, store`events
      ensures Now() == Settle(old(Now()), lost, 0)
      ensures hooks == [] && processes == old(processes) && records == old(records)
    {
      var n := 0;
      while hooks != []
        invariant Settle(Now(), lost, n) == Settle(old(Now()), lost, 0)
        invariant processes == old(processes) && records == old(records)
        decreases |hooks|
      {
        if lost(n) {
          LoseNext();
        } else {
          RunNext();
        }
        n := n + 1;
      }
    }

    /**
      One request: an attempt and, if it lands, its queued work, the write of its row perhaps throwing. The
      calendar agrees at its end exactly if the action was safe and that write went through or was not needed.
     */
    method Perform(pid: string, action: Action, how: Dispatch, rowLost: bool) returns (error: Option<Error>)
      requires Agrees(Now()) && hooks == []
      modifies this, store
      ensures hooks == [] && processes == Attempt(old(Now()), pid, action, how).processes
      ensures records == Attempt(old(Now()), pid, action, how).records
      ensures Calendared(Now()) <==>
              old(Orderly(Now(), Acts(pid, action, how)) && (rowLost && Takes(Now(), pid, action, how) ==> RowNeedless(processes[pid], action)))
    {
      hide Agrees, Calendared, Attempt, Orderly, Takes, Settle, RowNeedless;
      RequestAgreesIff(Now(), pid, action, how, rowLost);
      error := ExecuteAction(pid, action, how);
      Drain(AtFirst(rowLost));
    }

    /** The hub's edit path: the process is written, then its row, then what is recorded; any of the writes may throw. */
    method EditEvent(pid: string, e: Edit, reach: Reach) returns (error: Option<Error>)
      modifies this, store`events
      ensures Now() == ApplyEdit(old(Now()), pid, e, reach)
    {
      hide RowOf, TellsChange, ChangedFields;
      if pid !in processes {
        return Some(NotFound);
      }
      var before := processes[pid];
      if before.status != Active {
        return Some(NotEditable);
      }
      var fields := ChangedFields(before, e);
      if fields == [] && !TextDiffers(e.title, before.title) && !TextDiffers(e.description, before.description) {
        return None;
      }
      if reach.Lost? {
        return Some(Conflict);
      }
      var after := Edited(before, e);
      processes := processes[pid := after];
      if reach.Columns? {
        return Some(Thrown);
      }
      store.UpsertEvent(RowOf(pid, after, false));
      var trail := [Updated(pid)];
      if TellsChange(before, e) {
        trail := trail + [ChangeTold(pid)];
      }
      if fields != [] {
        trail := trail + [EditRecorded(pid, fields)];
      }
      assert trail == EditTrail(pid, before, e);
      records := records + Left(trail, reach);
      return if reach.count < |trail| then Some(Thrown) else None;
    }

    method ArchiveEvent(pid: string, synced: bool)
      modifies this`processes, store`events
      ensures Now() == Archive(old(Now()), pid, synced)
    {
      if pid in processes && processes[pid].status != Archived {
        processes := processes[pid := processes[pid].(previous := processes[pid].status, status := Archived)];
        if synced {
          store.SetArchived(pid, true);
        }
      }
    }

    method RestoreEvent(pid: string, synced: bool)
      modifies this`processes, store`events
      ensures Now() == Restore(old(Now()), pid, synced)
    {
      if pid in processes && processes[pid].status == Archived {
        processes := processes[pid := processes[pid].(status := processes[pid].previous)];
        if synced {
          store.SetArchived(pid, false);
        }
      }
    }
  }
}
