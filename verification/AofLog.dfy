/**
 The append-only file: entries tagged with SELECT markers when the database changes, and what a reader
 recovers from the bytes, whole or torn.
 */
module AofLog {
  import opened Wrappers
  import opened GoText
  import opened Sequences
  import opened Resp

  datatype Entry = Entry(db: int, value: Value)

  /**
   What happens to the file: a process opens it, forgetting which database was last; an entry is logged; or all
   that a torn write leaves of an entry is its marker, which no later entry of that process follows.
   */
  datatype LogEvent = Opened | Logged(entry: Entry) | Stub(db: int)

  function SelectMarker(db: int): Value {
    Array([BulkString("SELECT"), BulkString(Itoa(db))])
  }

  /** `isSelectEntry`; case folding is ASCII here. */
  predicate IsSelect(v: Value) {
    v.Array? && |v.items| == 2 && ToUpper(Str(v.items[0])) == "SELECT"
  }

  /** The marker in front of an entry for `db` when the previous entry was for `lastDB`. */
  function MarkerBytes(lastDB: int, db: int): Bytes {
    if db != lastDB then Encode(SelectMarker(db)) else ""
  }

  /** What `Aof.Write` appends. */
  function EntryBytes(lastDB: int, e: Entry): Bytes {
    MarkerBytes(lastDB, e.db) + Encode(e.value)
  }

  function BytesOf(lastDB: int, ev: LogEvent): Bytes {
    match ev
    case Opened => ""
    case Logged(e) => EntryBytes(lastDB, e)
    case Stub(db) => Encode(SelectMarker(db))
  }

  /** The database the process remembers having logged for last; -1 for none. */
  function NextDB(ev: LogEvent): int {
    match ev
    case Logged(e) => e.db
    case _ => -1
  }

  function EntriesOf(ev: LogEvent): seq<Entry> {
    match ev
    case Logged(e) => [e]
    case _ => []
  }

  function Written(lastDB: int, events: seq<LogEvent>): Bytes
    decreases events
  {
    if events == [] then "" else BytesOf(lastDB, events[0]) + Written(NextDB(events[0]), events[1..])
  }

  function Entries(events: seq<LogEvent>): seq<Entry> {
    if events == [] then [] else EntriesOf(events[0]) + Entries(events[1..])
  }

  function LastDB(lastDB: int, events: seq<LogEvent>): int {
    if events == [] then lastDB else NextDB(events[|events| - 1])
  }

  lemma {:induction false} WrittenAppend(lastDB: int, events: seq<LogEvent>, ev: LogEvent)
    ensures Written(lastDB, events + [ev]) == Written(lastDB, events) + BytesOf(LastDB(lastDB, events), ev)
    ensures Entries(events + [ev]) == Entries(events) + EntriesOf(ev)
    decreases events
  {
    hide BytesOf, EntriesOf, NextDB;
    var all := events + [ev];
    if events == [] {
      assert all[1..] == [];
    } else {
      var first, rest := events[0], events[1..];
      assert all[0] == first && all[1..] == rest + [ev];
      WrittenAppend(NextDB(first), rest, ev);
      Assoc(BytesOf(lastDB, first), Written(NextDB(first), rest), BytesOf(LastDB(NextDB(first), rest), ev));
      Assoc(EntriesOf(first), Entries(rest), EntriesOf(ev));
    }
  }

  /** The calls a reader makes, and the error that ended it; `EOF` is a clean end. */
  datatype Recovered = Recovered(entries: seq<Entry>, end: ReadError)

  function Next(current: int, marker: Value): int
    requires IsSelect(marker)
  {
    match Atoi(Str(marker.items[1]))
    case Some(db) => db
    case None => current
  }

  function ReadLog(s: Bytes, current: int): Recovered
    decreases |s|
  {
    match Decode(s)
    case Stopped(e) => Recovered([], e)
    case Got(v, rest) =>
      if IsSelect(v) then ReadLog(rest, Next(current, v))
      else After([Entry(current, v)], ReadLog(rest, current))
  }

  function After(entries: seq<Entry>, r: Recovered): Recovered {
    Recovered(entries + r.entries, r.end)
  }

  lemma AfterAfter(first: seq<Entry>, second: seq<Entry>, r: Recovered)
    ensures After(first, After(second, r)) == After(first + second, r)
  {
    Assoc(first, second, r.entries);
  }

  /** Entries the server can log: a wire value that is not itself a marker, for one of the databases. */
  predicate Loggable(e: Entry) {
    e.db >= 0 && e.db <= MAX64 && Sendable(e.value) && !IsSelect(e.value)
  }

  predicate LoggableEvent(ev: LogEvent) {
    match ev
    case Opened => true
    case Logged(e) => Loggable(e)
    case Stub(db) => 0 <= db <= MAX64
  }

  ghost predicate AllLoggable(events: seq<LogEvent>) {
    forall i :: 0 <= i < |events| ==> LoggableEvent(events[i])
  }

  // ------------------------------------------------------------- whole logs

  lemma MarkerIsSelect(db: int)
    requires 0 <= db <= MAX64
    ensures Sendable(SelectMarker(db)) && IsSelect(SelectMarker(db))
    ensures forall current :: Next(current, SelectMarker(db)) == db
  {
    assert ToUpper("SELECT") == "SELECT";
    DecimalShort(db);
    AtoiOfItoa(db);
  }

  lemma {:induction false} DecimalShort(n: nat)
    ensures |Decimal(n)| <= if n < 10 then 1 else n
  {
    if n >= 10 {
      DecimalShort(n / 10);
    }
  }

  /** The reader's index after an event. */
  function NextCurrent(current: int, ev: LogEvent): int {
    match ev
    case Opened => current
    case Logged(e) => e.db
    case Stub(db) => db
  }

  function Current(current: int, events: seq<LogEvent>): int
    decreases events
  {
    if events == [] then current else Current(NextCurrent(current, events[0]), events[1..])
  }

  lemma ReadMarker(db: int, current: int, tail: Bytes)
    requires 0 <= db <= MAX64
    ensures ReadLog(Encode(SelectMarker(db)) + tail, current) == ReadLog(tail, db)
  {
    MarkerIsSelect(db);
    RoundTrip(SelectMarker(db), tail);
    hide SelectMarker, Encode;
  }

  lemma ReadValue(v: Value, current: int, tail: Bytes)
    requires Sendable(v) && !IsSelect(v)
    ensures ReadLog(Encode(v) + tail, current) == After([Entry(current, v)], ReadLog(tail, current))
  {
    RoundTrip(v, tail);
    hide Encode, IsSelect;
  }

  lemma ReadEntry(lastDB: int, e: Entry, current: int, tail: Bytes)
    requires Loggable(e) && (lastDB == -1 || lastDB == current)
    ensures ReadLog(EntryBytes(lastDB, e) + tail, current) == After([e], ReadLog(tail, e.db))
  {
    var value := Encode(e.value);
    ReadValue(e.value, e.db, tail);
    hide Encode, ReadLog, SelectMarker;
    if e.db != lastDB {
      Assoc(Encode(SelectMarker(e.db)), value, tail);
      ReadMarker(e.db, current, value + tail);
    } else {
      assert EntryBytes(lastDB, e) == value;
    }
  }

  lemma ReadEvent(lastDB: int, ev: LogEvent, current: int, tail: Bytes)
    requires LoggableEvent(ev) && (lastDB == -1 || lastDB == current)
    ensures ReadLog(BytesOf(lastDB, ev) + tail, current) ==
            After(EntriesOf(ev), ReadLog(tail, NextCurrent(current, ev)))
  {
    hide EntryBytes, ReadLog, Loggable, SelectMarker, Encode;
    match ev {
      case Opened => assert "" + tail == tail;
      case Logged(e) => ReadEntry(lastDB, e, current, tail);
      case Stub(db) => ReadMarker(db, current, tail);
    }
  }

  /** A log followed by any bytes at all: its entries come first, then whatever the other bytes give. */
  lemma {:induction false} ReadThen(lastDB: int, events: seq<LogEvent>, current: int, tail: Bytes)
    requires AllLoggable(events) && (lastDB == -1 || lastDB == current)
    ensures ReadLog(Written(lastDB, events) + tail, current) ==
            After(Entries(events), ReadLog(tail, Current(current, events)))
    decreases events
  {
    if events == [] {
      assert Written(lastDB, events) + tail == tail;
    } else {
      var ev, rest := events[0], Written(NextDB(events[0]), events[1..]);
      Assoc(BytesOf(lastDB, ev), rest, tail);
      assert LoggableEvent(ev);
      ReadEvent(lastDB, ev, current, rest + tail);
      ReadThen(NextDB(ev), events[1..], NextCurrent(current, ev), tail);
      AfterAfter(EntriesOf(ev), Entries(events[1..]), ReadLog(tail, Current(current, events)));
      hide ReadLog, BytesOf, LoggableEvent;
    }
  }

  /**
   The markers lose nothing: over any number of sessions, reading the whole log gives back exactly the
   database indices and commands that were written, in order, and ends cleanly.
   */
  lemma ReadWritten(lastDB: int, events: seq<LogEvent>, current: int)
    requires AllLoggable(events) && (lastDB == -1 || lastDB == current)
    ensures ReadLog(Written(lastDB, events), current) == Recovered(Entries(events), EOF)
  {
    ReadThen(lastDB, events, current, "");
    assert Written(lastDB, events) + "" == Written(lastDB, events);
    hide Written, Entries;
  }

  // -------------------------------------------------------------- torn logs

  /** What is left of a log when only its first `n` bytes are: whole events, then perhaps a marker on its own. */
  function Kept(lastDB: int, events: seq<LogEvent>, n: nat): seq<LogEvent>
    decreases events
  {
    if events == [] then []
    else
      var size := |BytesOf(lastDB, events[0])|;
      if size <= n then [events[0]] + Kept(NextDB(events[0]), events[1..], n - size)
      else if MarkerSurvives(lastDB, events[0], n) then [Stub(events[0].entry.db)]
      else []
  }

  /** An event that wrote a marker first, of which the first `n` bytes hold at least that. */
  predicate MarkerSurvives(lastDB: int, ev: LogEvent, n: nat) {
    ev.Logged? && ev.entry.db != lastDB && |Encode(SelectMarker(ev.entry.db))| <= n
  }

  /** The cut falls between two events, or right behind the marker of one. */
  predicate CleanCut(lastDB: int, events: seq<LogEvent>, n: nat)
    decreases events
  {
    n == 0 ||
    (events != [] &&
     var size := |BytesOf(lastDB, events[0])|;
     if size <= n then CleanCut(NextDB(events[0]), events[1..], n - size)
     else MarkerSurvives(lastDB, events[0], n) && n == |Encode(SelectMarker(events[0].entry.db))|)
  }

  /** The bytes that are left over behind what is kept. */
  ghost predicate Remainder(whole: Bytes, n: nat, kept: Bytes, t: Bytes) {
    n <= |whole| && whole[..n] == kept + t && Decode(t).Stopped? && Truncated(Decode(t).error)
  }

  lemma TornEntry(lastDB: int, e: Entry, n: nat) returns (t: Bytes)
    requires Loggable(e) && n < |EntryBytes(lastDB, e)|
    ensures var kept := if MarkerSurvives(lastDB, Logged(e), n) then Encode(SelectMarker(e.db)) else "";
            && Remainder(EntryBytes(lastDB, e), n, kept, t)
            && (t == "" <==> n == |kept|)
  {
    var marker, value := MarkerBytes(lastDB, e.db), Encode(e.value);
    hide SelectMarker, Encode, Decode, Sendable, IsSelect;
    TakeOfAppend(marker, value, n);
    if n < |marker| {
      MarkerIsSelect(e.db);
      t := marker[..n];
      ProperPrefixStops(SelectMarker(e.db), n);
    } else {
      t := value[..n - |marker|];
      ProperPrefixStops(e.value, n - |marker|);
    }
  }

  lemma TornInFirst(lastDB: int, events: seq<LogEvent>, n: nat) returns (t: Bytes)
    requires events != [] && LoggableEvent(events[0])
    requires n < |BytesOf(lastDB, events[0])| && (events[0].Stub? ==> events[0].db >= 0)
    ensures Remainder(Written(lastDB, events), n, Written(lastDB, Kept(lastDB, events, n)), t)
    ensures t == "" <==> CleanCut(lastDB, events, n)
  {
    var first := BytesOf(lastDB, events[0]);
    TakeOfAppend(first, Written(NextDB(events[0]), events[1..]), n);
    match events[0] {
      case Logged(e) =>
        t := TornEntry(lastDB, e, n);
        assert Written(lastDB, [Stub(e.db)]) == Encode(SelectMarker(e.db));
      case Stub(db) =>
        t := first[..n];
        MarkerIsSelect(db);
        ProperPrefixStops(SelectMarker(db), n);
    }
  }

  lemma TornPastFirst(lastDB: int, events: seq<LogEvent>, n: nat, t: Bytes)
    requires events != [] && |BytesOf(lastDB, events[0])| <= n
    requires var next, left := NextDB(events[0]), n - |BytesOf(lastDB, events[0])|;
             Remainder(Written(next, events[1..]), left, Written(next, Kept(next, events[1..], left)), t)
    ensures Remainder(Written(lastDB, events), n, Written(lastDB, Kept(lastDB, events, n)), t)
    ensures CleanCut(lastDB, events, n) ==
            (n == 0 || CleanCut(NextDB(events[0]), events[1..], n - |BytesOf(lastDB, events[0])|))
    ensures CleanCut(NextDB(events[0]), events[1..], 0)
  {
    hide BytesOf, Decode, NextDB, MarkerSurvives;
    var ev, first := events[0], BytesOf(lastDB, events[0]);
    var rest, kept := Written(NextDB(ev), events[1..]), Kept(NextDB(ev), events[1..], n - |first|);
    TakeOfAppend(first, rest, n);
    Assoc(first, Written(NextDB(ev), kept), t);
    assert ([ev] + kept)[1..] == kept;
  }

  /** Cutting a log leaves the bytes of what is kept, and a remainder that no parser takes for a value. */
  lemma {:induction false} TornAt(lastDB: int, events: seq<LogEvent>, n: nat) returns (t: Bytes)
    requires AllLoggable(events) && n <= |Written(lastDB, events)|
    ensures Remainder(Written(lastDB, events), n, Written(lastDB, Kept(lastDB, events, n)), t)
    ensures t == "" <==> CleanCut(lastDB, events, n)
    decreases events
  {
    if events == [] {
      t := "";
    } else {
      var ev, first, rest := events[0], BytesOf(lastDB, events[0]), Written(NextDB(events[0]), events[1..]);
      assert LoggableEvent(ev);
      hide BytesOf, LoggableEvent, Remainder, CleanCut, Kept;
      if n < |first| {
        t := TornInFirst(lastDB, events, n);
      } else {
        t := TornAt(NextDB(ev), events[1..], n - |first|);
        TornPastFirst(lastDB, events, n, t);
      }
    }
  }

  lemma {:induction false} KeptLoggable(lastDB: int, events: seq<LogEvent>, n: nat)
    requires AllLoggable(events)
    ensures AllLoggable(Kept(lastDB, events, n))
    decreases events
  {
    if events != [] {
      assert LoggableEvent(events[0]);
      var size := |BytesOf(lastDB, events[0])|;
      if size <= n {
        KeptLoggable(NextDB(events[0]), events[1..], n - size);
      }
    }
  }

  /** The first `m` events are exactly those wholly inside the first `n` bytes. */
  ghost predicate WhollyInside(lastDB: int, events: seq<LogEvent>, n: nat, m: nat) {
    && m <= |events|
    && |Written(lastDB, events[..m])| <= n
    && (m < |events| ==> n < |Written(lastDB, events[..m + 1])|)
  }

  lemma WrittenSplit(lastDB: int, events: seq<LogEvent>, m: nat)
    requires 0 < m <= |events|
    ensures Written(lastDB, events[..m]) ==
            BytesOf(lastDB, events[0]) + Written(NextDB(events[0]), events[1..][..m - 1])
    ensures Entries(events[..m]) == EntriesOf(events[0]) + Entries(events[1..][..m - 1])
  {
    assert events[..m][0] == events[0];
    assert events[..m][1..] == events[1..][..m - 1];
  }

  /** What is kept are the events wholly inside, then the marker of the next one if that survives. */
  lemma {:induction false} KeptIsInside(lastDB: int, events: seq<LogEvent>, n: nat) returns (m: nat)
    ensures WhollyInside(lastDB, events, n, m)
    ensures WithStub(Kept(lastDB, events, n), events, m)
    decreases events
  {
    hide BytesOf, NextDB, MarkerSurvives, WithStub, Written;
    if events == [] {
      m := 0;
      NothingKept(lastDB, events);
    } else {
      var size, rest := |BytesOf(lastDB, events[0])|, events[1..];
      if n < size {
        m := 0;
        NothingKept(lastDB, events);
        WrittenSplit(lastDB, events, 1);
        FirstIsTorn(lastDB, events, n);
      } else {
        var k := KeptIsInside(NextDB(events[0]), rest, n - size);
        m := StepOver(lastDB, events, n, k);
        OneMoreKept(events[0], rest, Kept(NextDB(events[0]), rest, n - size), k);
        assert [events[0]] + rest == events;
      }
    }
  }

  /** The first `m` events, then perhaps a marker on its own. */
  predicate WithStub(kept: seq<LogEvent>, events: seq<LogEvent>, m: nat) {
    m <= |events| && (kept == events[..m] || (|kept| == m + 1 && kept[m].Stub? && kept[..m] == events[..m]))
  }

  lemma NothingKept(lastDB: int, events: seq<LogEvent>)
    ensures Written(lastDB, events[..0]) == "" && WithStub([], events, 0)
  {
  }

  lemma FirstIsTorn(lastDB: int, events: seq<LogEvent>, n: nat)
    requires events != [] && n < |BytesOf(lastDB, events[0])|
    ensures WithStub(Kept(lastDB, events, n), events, 0)
  {
    hide BytesOf, NextDB, MarkerSurvives;
  }

  /** One more event in front shifts the cut by the bytes that event wrote. */
  lemma StepOver(lastDB: int, events: seq<LogEvent>, n: nat, m: nat) returns (m': nat)
    requires events != [] && |BytesOf(lastDB, events[0])| <= n
    requires WhollyInside(NextDB(events[0]), events[1..], n - |BytesOf(lastDB, events[0])|, m)
    ensures m' == m + 1 && WhollyInside(lastDB, events, n, m')
  {
    hide BytesOf, NextDB, Written;
    m' := m + 1;
    WrittenSplit(lastDB, events, m + 1);
    if m + 1 < |events| {
      WrittenSplit(lastDB, events, m + 2);
    }
  }

  lemma OneMoreKept(ev: LogEvent, rest: seq<LogEvent>, kept: seq<LogEvent>, k: nat)
    requires WithStub(kept, rest, k)
    ensures WithStub([ev] + kept, [ev] + rest, k + 1)
  {
    assert ([ev] + rest)[..k + 1] == [ev] + rest[..k];
    if |kept| > k {
      assert ([ev] + kept)[..k + 1] == [ev] + kept[..k];
    }
  }

  lemma KeptEntries(events: seq<LogEvent>, kept: seq<LogEvent>, m: nat)
    requires WithStub(kept, events, m)
    ensures Entries(kept) == Entries(events[..m])
  {
    hide Written, Entries;
    if |kept| == m + 1 && kept[m].Stub? {
      assert kept[..m] + [kept[m]] == kept;
      WrittenAppend(-1, kept[..m], kept[m]);
      assert EntriesOf(kept[m]) == [];
    }
  }

  /**
   A torn log: from any prefix of the bytes the reader hands over exactly the commands wholly inside it, and
   the error it meets only says that the file ended.
   */
  lemma ReadTorn(lastDB: int, events: seq<LogEvent>, current: int, n: nat) returns (m: nat)
    requires AllLoggable(events) && (lastDB == -1 || lastDB == current)
    requires n <= |Written(lastDB, events)|
    ensures WhollyInside(lastDB, events, n, m)
    ensures ReadLog(Written(lastDB, events)[..n], current).entries == Entries(events[..m])
    ensures Truncated(ReadLog(Written(lastDB, events)[..n], current).end)
  {
    var t := TornAt(lastDB, events, n);
    KeptLoggable(lastDB, events, n);
    m := KeptIsInside(lastDB, events, n);
    var kept := Kept(lastDB, events, n);
    KeptEntries(events, kept, m);
    ReadThen(lastDB, kept, current, t);
    hide Kept, Written, Entries, AllLoggable, WhollyInside;
  }

  // ---------------------------------------------------------------- the class

  /** The open log: the bytes of the file and the database of the last entry this process wrote. */
  class Aof {
    var file: Bytes
    var lastDB: int

    constructor Open(contents: Bytes)
      ensures file == contents && lastDB == -1
    {
      file, lastDB := contents, -1;
    }

    method Write(dbIndex: int, value: Value)
      modifies this
      ensures file == old(file) + EntryBytes(old(lastDB), Entry(dbIndex, value))
      ensures lastDB == dbIndex
    {
      var writer := new Writer(file);
      if dbIndex != lastDB {
        writer.Write(SelectMarker(dbIndex));
        lastDB := dbIndex;
      }
      writer.Write(value);
      file := writer.out;
      Assoc(old(file), MarkerBytes(old(lastDB), dbIndex), Encode(value));
    }

    method Read() returns (calls: seq<Entry>, end: ReadError)
      ensures Recovered(calls, end) == ReadLog(file, 0)
    {
      var parser := new Parser(file);
      var currentDB := 0;
      calls := [];
      while true
        invariant fresh(parser)
        invariant ReadLog(file, 0) == After(calls, ReadLog(parser.reader, currentDB))
        decreases |parser.reader|
      {
        var value := parser.Parse();
        if value.Err? {
          assert calls + [] == calls;
          return calls, value.error;
        }
        if IsSelect(value.value) {
          var idx := Atoi(Str(value.value.items[1]));
          if idx.Some? {
            currentDB := idx.value;
          }
        } else {
          AfterAfter(calls, [Entry(currentDB, value.value)], ReadLog(parser.reader, currentDB));
          calls := calls + [Entry(currentDB, value.value)];
        }
      }
    }
  }
}
