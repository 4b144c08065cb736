/**
  The hub's event log, and the two reads of it the analytics feature makes.

  The log is append-only (supabase/README.md:39).  An event carries the local
  day it happened on, in the hub's one time zone.
 */
module EventLog {
  import opened Wrappers

  datatype Event = Event(day: int, processType: string, eventType: string, actor: string, sample: bool)

  type Log = seq<Event>

  datatype Key = Key(day: int, processType: string, eventType: string)

  datatype Row = Row(key: Key, events: nat)

  function KeyOf(e: Event): Key {
    Key(e.day, e.processType, e.eventType)
  }

  // ----- Events per day -----

  /** How many events of the log fall under `k`, samples left out. */
  function CountOf(log: Log, k: Key): nat {
    if log == [] then 0
    else
      var e := log[|log| - 1];
      CountOf(log[..|log| - 1], k) + if !e.sample && KeyOf(e) == k then 1 else 0
  }

  /** The places in the log of the events of one day, process type and event type, samples left out. */
  function PlacesOf(log: Log, day: int, processType: string, eventType: string): set<nat> {
    set i: nat | i < |log| && !log[i].sample &&
                 log[i].day == day && log[i].processType == processType && log[i].eventType == eventType
  }

  lemma PlacesStep(log: Log, day: int, processType: string, eventType: string)
    requires log != []
    ensures var n := |log| - 1;
            |PlacesOf(log, day, processType, eventType)| ==
            |PlacesOf(log[..n], day, processType, eventType)| +
            if !log[n].sample && KeyOf(log[n]) == Key(day, processType, eventType) then 1 else 0
  {
    var n := |log| - 1;
    var before, after := PlacesOf(log[..n], day, processType, eventType), PlacesOf(log, day, processType, eventType);
    assert after == before + if n in after then {n} else {};
    assert n !in before;
  }

  /** So many, exactly. */
  lemma {:induction false} CountOfIsNumber(log: Log, day: int, processType: string, eventType: string)
    ensures CountOf(log, Key(day, processType, eventType)) == |PlacesOf(log, day, processType, eventType)|
  {
    if log != [] {
      var n := |log| - 1;
      CountOfIsNumber(log[..n], day, processType, eventType);
      PlacesStep(log, day, processType, eventType);
      hide PlacesOf;
    }
  }

  function KeysIn(log: Log, from: int, to: int): set<Key> {
    set e | e in log && !e.sample && from <= e.day <= to :: KeyOf(e)
  }

  /** The counts of the local days `from` to `to` (`event_counts_by_day`). */
  function CountByDay(log: Log, from: int, to: int): map<Key, nat> {
    map k | k in KeysIn(log, from, to) :: CountOf(log, k)
  }

  lemma {:induction false} CountOfAppend(log: Log, more: Log, k: Key)
    ensures CountOf(log + more, k) == CountOf(log, k) + CountOf(more, k)
  {
    if more == [] {
      assert log + more == log;
    } else {
      var n := |more| - 1;
      assert (log + more)[..|log + more| - 1] == log + more[..n];
      CountOfAppend(log, more[..n], k);
    }
  }

  lemma {:induction false} CountOfPositive(log: Log, k: Key)
    ensures CountOf(log, k) > 0 <==> exists e :: e in log && !e.sample && KeyOf(e) == k
  {
    if log != [] {
      CountOfPositive(log[..|log| - 1], k);
      assert log == log[..|log| - 1] + [log[|log| - 1]];
    }
  }

  lemma CountedIff(log: Log, from: int, to: int, k: Key)
    ensures k in CountByDay(log, from, to) <==> CountOf(log, k) > 0 && from <= k.day <= to
  {
    CountOfPositive(log, k);
  }

  lemma CountedAll(log: Log, from: int, to: int)
    ensures forall k :: k in CountByDay(log, from, to) <==> CountOf(log, k) > 0 && from <= k.day <= to
    ensures forall k :: k in CountByDay(log, from, to) ==> CountByDay(log, from, to)[k] == CountOf(log, k)
  {
    forall k ensures k in CountByDay(log, from, to) <==> CountOf(log, k) > 0 && from <= k.day <= to {
      CountedIff(log, from, to, k);
    }
  }

  // ----- Rows -----

  /** The table a sequence of upserts leaves, later rows winning. */
  function MapOf(rows: seq<Row>): map<Key, nat> {
    if rows == [] then map[]
    else var r := rows[|rows| - 1]; MapOf(rows[..|rows| - 1])[r.key := r.events]
  }

  lemma {:induction false} MapOfAppend(a: seq<Row>, b: seq<Row>)
    ensures MapOf(a + b) == MapOf(a) + MapOf(b)
  {
    if b == [] {
      assert a + b == a;
    } else {
      var n := |b| - 1;
      assert (a + b)[..|a + b| - 1] == a + b[..n];
      MapOfAppend(a, b[..n]);
    }
  }

  /** `rows` are the entries of `m`, each once. */
  ghost predicate Lists(rows: seq<Row>, m: map<Key, nat>) {
    (forall i, j :: 0 <= i < j < |rows| ==> rows[i].key != rows[j].key) &&
    MapOf(rows) == m
  }

  lemma {:induction false} MapOfKeys(rows: seq<Row>)
    ensures forall k :: k in MapOf(rows) <==> exists i :: 0 <= i < |rows| && rows[i].key == k
  {
    if rows != [] {
      var n := |rows| - 1;
      MapOfKeys(rows[..n]);
      forall k ensures k in MapOf(rows) <==> exists i :: 0 <= i < |rows| && rows[i].key == k {
        if k in MapOf(rows[..n]) {
          var i :| 0 <= i < n && rows[..n][i].key == k;
          assert rows[i].key == k;
        }
        if i :| 0 <= i < |rows| && rows[i].key == k && i < n {
          assert rows[..n][i].key == k;
        }
        assert rows[n].key in MapOf(rows);
      }
    }
  }

  /** The read as the database answers it: one row per key of the window. */
  method CountRows(log: Log, from: int, to: int) returns (rows: seq<Row>)
    ensures Lists(rows, CountByDay(log, from, to))
  {
    rows := [];
    var left := KeysIn(log, from, to);
    while left != {}
      invariant left <= KeysIn(log, from, to)
      invariant forall i :: 0 <= i < |rows| ==> rows[i].key !in left
      invariant forall i, j :: 0 <= i < j < |rows| ==> rows[i].key != rows[j].key
      invariant MapOf(rows) == map k | k in KeysIn(log, from, to) - left :: CountOf(log, k)
      decreases left
    {
      var k :| k in left;
      var before := rows;
      rows := rows + [Row(k, CountOf(log, k))];
      assert rows[..|rows| - 1] == before;
      left := left - {k};
    }
  }

  // ----- Distinct residents -----

  /** The local days counted, and the period before them for "returning". */
  datatype Window = Window(from: int, to: int, prev: Option<(int, int)>)

  /** The events on or before a day. */
  function UpTo(log: Log, day: int): Log {
    if log == [] then []
    else
      var e := log[|log| - 1];
      UpTo(log[..|log| - 1], day) + if e.day <= day then [e] else []
  }

  lemma {:induction false} UpToAppend(log: Log, more: Log, day: int)
    requires forall e :: e in more ==> day < e.day
    ensures UpTo(log + more, day) == UpTo(log, day)
  {
    if more == [] {
      assert log + more == log;
    } else {
      var n := |more| - 1;
      assert (log + more)[..|log + more| - 1] == log + more[..n];
      UpToAppend(log, more[..n], day);
    }
  }

  /**
    `event_actor_counts`: for a plan the hub's types fix, the measures of a
    window.  What it counts is the database's; that it reads no event after the
    window's last day is its WHERE clause, and all that is used here.
   */
  datatype Counter = Counter(count: (Log, Window) -> map<string, nat>)

  function CountActors(c: Counter, log: Log, w: Window): map<string, nat> {
    c.count(UpTo(log, w.to), w)
  }
}
