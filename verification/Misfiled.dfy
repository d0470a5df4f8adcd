/**
 Torn tails that do harm: the next session's commands are lost, or the last command loses only its line end and
 the next session is filed under the wrong database.
 */
module Misfiled {
  import opened Wrappers
  import opened GoText
  import opened Sequences
  import opened Resp
  import opened AofLog

  /** All that is left of the last entry is its first byte: nothing that later sessions log is ever read back. */
  lemma TornTailHidesLaterEntries(before: seq<LogEvent>, e: Entry, later: seq<LogEvent>)
    requires AllLoggable(before) && Loggable(e)
    ensures ReadLog(Written(-1, before) + ("*" + (EntryBytes(-1, e) + Written(e.db, later))), 0)
            == Recovered(Entries(before), Malformed)
  {
    var tail := EntryBytes(-1, e) + Written(e.db, later);
    StarThenMarker(e, Written(e.db, later));
    hide Written, EntryBytes, Decode, Entries;
    ReadThen(-1, before, 0, "*" + tail);
  }

  lemma StarThenMarker(e: Entry, tail: Bytes)
    requires Loggable(e)
    ensures Decode("*" + (EntryBytes(-1, e) + tail)) == Stopped(Malformed)
  {
    var head, items, value := Header('*', 2), EncodeAll(SelectMarker(e.db).items), Encode(e.value);
    var after := items + (value + tail);
    assert EntryBytes(-1, e) == head + items + value;
    assert EntryBytes(-1, e) + tail == head + after by {
      Assoc(head + items, value, tail);
      Assoc(head, items, value + tail);
    }
    assert head == "*2" + "\r\n";
    StarThenCount(after);
  }

  lemma StarThenCount(after: Bytes)
    ensures Decode("*" + ("*2" + "\r\n" + after)) == Stopped(Malformed)
  {
    var body := "*2" + "\r\n" + after;
    assert ("*" + body)[1..] == body;
    DecodeByPrefix("*" + body);
    ReadLineOfText("*2", after);
    assert !IsDigit("*2"[0]);
    assert Unsigned("*2") == "*2";
  }

  /** As every command does: a bulk string, or an array whose last item ends so. */
  predicate EndsInBulk(v: Value)
    decreases v
  {
    match v
    case BulkString(_) => true
    case Array(items) => items != [] && EndsInBulk(items[|items| - 1])
    case _ => false
  }

  /** The bytes without their last `k`. */
  function Shorn(b: Bytes, k: nat): Bytes
    requires k <= |b|
  {
    b[..|b| - k]
  }

  lemma ShornAppend(a: Bytes, b: Bytes, k: nat)
    requires k <= |b|
    ensures Shorn(a + b, k) == a + Shorn(b, k)
  {
  }

  lemma ShornBulk(s: Bytes, k: nat, r: Bytes)
    requires |s| <= MAX64 && 1 <= k <= 2
    ensures |Encode(BulkString(s))| >= 2
    ensures Decode(Shorn(Encode(BulkString(s)), k) + ("*2\r\n" + r)) == Got(BulkString(s), r)
  {
    var head, cr, next := Header('$', |s|), Shorn("\r\n", k), "*2\r\n" + r;
    Assoc(head, s, "\r\n");
    ShornAppend(head, s + "\r\n", k);
    ShornAppend(s, "\r\n", k);
    var input := Shorn(Encode(BulkString(s)), k) + next;
    Assoc(head, s + cr, next);
    Assoc(s, cr, next);
    assert input == head + (s + (cr + next));
    HeaderRoundTrip('$', |s|, s + (cr + next));
    DecodeByPrefix(input);
    TakeToMarker(s, cr, r);
  }

  /** The end of a bulk string is looked for beyond its missing line end. */
  lemma TakeToMarker(s: Bytes, cr: Bytes, r: Bytes)
    requires cr == "" || cr == "\r"
    ensures TakeBulk(|s|, s + (cr + ("*2\r\n" + r))) == Got(BulkString(s), r)
  {
    var after := cr + ("*2\r\n" + r);
    Halves(s, after);
    assert after == cr + "*2\r" + [LF] + r;
    FirstLFAt(cr + "*2\r", r);
    assert after[|cr| + 4..] == r;
  }

  /**
   An entry that has lost its last byte or two is taken for whole, and the first line of what follows is
   dropped with it.
   */
  lemma {:induction false} ShornValue(v: Value, k: nat, r: Bytes)
    requires Sendable(v) && EndsInBulk(v) && 1 <= k <= 2
    ensures |Encode(v)| >= 2
    ensures Decode(Shorn(Encode(v), k) + ("*2\r\n" + r)) == Got(v, r)
    decreases v, 1
  {
    match v {
      case BulkString(s) => ShornBulk(s, k, r);
      case Array(items) =>
        ShornAll(items, k, r);
        ShornArray(items, k, r);
    }
  }

  lemma ShornArray(items: seq<Value>, k: nat, r: Bytes)
    requires |items| <= MAX64 && |EncodeAll(items)| >= 2 >= k
    requires DecodeMany(|items|, Shorn(EncodeAll(items), k) + ("*2\r\n" + r)) == GotAll(items, r)
    ensures Decode(Shorn(Encode(Array(items)), k) + ("*2\r\n" + r)) == Got(Array(items), r)
  {
    var head, rest := Header('*', |items|), Shorn(EncodeAll(items), k) + ("*2\r\n" + r);
    ShornAppend(head, EncodeAll(items), k);
    var input := Shorn(Encode(Array(items)), k) + ("*2\r\n" + r);
    Assoc(head, Shorn(EncodeAll(items), k), "*2\r\n" + r);
    assert input == head + rest;
    HeaderRoundTrip('*', |items|, rest);
    DecodeByPrefix(input);
    hide EncodeAll, DecodeMany;
  }

  lemma {:induction false} ShornAll(vs: seq<Value>, k: nat, r: Bytes)
    requires vs != [] && EndsInBulk(vs[|vs| - 1]) && 1 <= k <= 2
    requires forall i :: 0 <= i < |vs| ==> Sendable(vs[i])
    ensures |EncodeAll(vs)| >= 2
    ensures DecodeMany(|vs|, Shorn(EncodeAll(vs), k) + ("*2\r\n" + r)) == GotAll(vs, r)
    decreases vs, 0
  {
    var first, rest, next := Encode(vs[0]), EncodeAll(vs[1..]), "*2\r\n" + r;
    if |vs| == 1 {
      ShornValue(vs[0], k, r);
      assert EncodeAll(vs) == first;
      assert DecodeMany(0, r) == GotAll([], r);
    } else {
      ShornAll(vs[1..], k, r);
      ShornAppend(first, rest, k);
      Assoc(first, Shorn(rest, k), next);
      RoundTrip(vs[0], Shorn(rest, k) + next);
    }
  }

  /** The log of a process that writes these commands in one database. */
  function InDatabase(d: int, values: seq<Value>): (r: seq<LogEvent>)
    ensures |r| == |values|
  {
    seq(|values|, i requires 0 <= i < |values| => Logged(Entry(d, values[i])))
  }

  function FiledUnder(d: int, values: seq<Value>): (r: seq<Entry>)
    ensures |r| == |values|
  {
    seq(|values|, i requires 0 <= i < |values| => Entry(d, values[i]))
  }

  lemma InDatabaseTail(d: int, values: seq<Value>)
    requires values != []
    ensures InDatabase(d, values)[0] == Logged(Entry(d, values[0]))
    ensures InDatabase(d, values)[1..] == InDatabase(d, values[1..])
    ensures forall current ::
              FiledUnder(current, values) == [Entry(current, values[0])] + FiledUnder(current, values[1..])
  {
  }

  /** Without a marker in front, the reader files them all under the database it is at. */
  lemma {:induction false} ReadUnmarked(d: int, values: seq<Value>, current: int)
    requires forall i :: 0 <= i < |values| ==> Sendable(values[i]) && !IsSelect(values[i])
    ensures ReadLog(Written(d, InDatabase(d, values)), current) == Recovered(FiledUnder(current, values), EOF)
    decreases values
  {
    if values != [] {
      InDatabaseTail(d, values);
      ReadUnmarked(d, values[1..], current);
      hide InDatabase, FiledUnder, Encode, ReadLog, Sendable, IsSelect;
      var rest := Written(d, InDatabase(d, values[1..]));
      assert Written(d, InDatabase(d, values)) == "" + Encode(values[0]) + rest;
      assert "" + Encode(values[0]) == Encode(values[0]);
      ReadValue(values[0], current, rest);
    }
  }

  lemma {:induction false} LastIsCurrent(lastDB: int, events: seq<LogEvent>, current: int)
    requires lastDB == -1 || lastDB == current
    ensures LastDB(lastDB, events) == -1 || LastDB(lastDB, events) == Current(current, events)
    decreases events
  {
    if events != [] {
      LastIsCurrent(NextDB(events[0]), events[1..], NextCurrent(current, events[0]));
    }
  }

  /** A torn command, its line end gone, and the session behind it. */
  lemma ReadShorn(v: Value, k: nat, current: int, d: int, session: Bytes)
    requires Sendable(v) && !IsSelect(v) && EndsInBulk(v) && 1 <= k <= 2 && 0 <= d <= MAX64
    ensures |Encode(v)| >= 2
    ensures ReadLog(Shorn(Encode(v), k) + (Encode(SelectMarker(d)) + session), current) ==
            After([Entry(current, v), Entry(current, BulkString("SELECT")), Entry(current, BulkString(Itoa(d)))],
                  ReadLog(session, current))
  {
    var name, index := BulkString("SELECT"), BulkString(Itoa(d));
    var rest := Encode(name) + (Encode(index) + session);
    PartsSendable(d);
    hide *;
    MarkerSplit(d, session);
    ShornValue(v, k, rest);
    ReadValue(name, current, Encode(index) + session);
    ReadValue(index, current, session);
    ReadFirst(Shorn(Encode(v), k) + (Encode(SelectMarker(d)) + session), v, rest, current);
    AfterThree(Entry(current, v), Entry(current, name), Entry(current, index), ReadLog(session, current));
  }

  lemma AfterThree(a: Entry, b: Entry, c: Entry, r: Recovered)
    ensures After([a], After([b], After([c], r))) == After([a, b, c], r)
  {
    AfterAfter([b], [c], r);
    AfterAfter([a], [b] + [c], r);
    assert [a] + ([b] + [c]) == [a, b, c];
  }

  lemma PartsSendable(d: int)
    requires 0 <= d <= MAX64
    ensures Sendable(BulkString("SELECT")) && Sendable(BulkString(Itoa(d)))
    ensures !IsSelect(BulkString("SELECT")) && !IsSelect(BulkString(Itoa(d)))
  {
    MarkerIsSelect(d);
    assert Sendable(SelectMarker(d).items[1]);
  }

  lemma ReadFirst(s: Bytes, v: Value, rest: Bytes, current: int)
    requires Decode(s) == Got(v, rest) && !IsSelect(v)
    ensures ReadLog(s, current) == After([Entry(current, v)], ReadLog(rest, current))
  {
  }

  lemma MarkerSplit(d: int, session: Bytes)
    ensures Encode(SelectMarker(d)) + session ==
            "*2\r\n" + (Encode(BulkString("SELECT")) + (Encode(BulkString(Itoa(d))) + session))
  {
    var name, index := BulkString("SELECT"), BulkString(Itoa(d));
    EncodePair(name, index);
    assert Header('*', 2) == "*2\r\n";
    Assoc(Header('*', 2), Encode(name) + Encode(index), session);
    Assoc(Encode(name), Encode(index), session);
  }

  lemma SessionSplit(d: int, values: seq<Value>)
    requires values != [] && d != -1
    ensures Written(-1, InDatabase(d, values)) == Encode(SelectMarker(d)) + Written(d, InDatabase(d, values))
  {
    InDatabaseTail(d, values);
    hide InDatabase, Encode, SelectMarker, FiledUnder;
    var marker, value, rest := Encode(SelectMarker(d)), Encode(values[0]), Written(d, InDatabase(d, values[1..]));
    Assoc(marker, value, rest);
    assert Written(d, InDatabase(d, values)) == "" + value + rest;
    assert "" + value == value;
  }

  lemma ShornLog(before: seq<LogEvent>, e: Entry, k: nat, next: Bytes)
    requires k <= |Encode(e.value)|
    ensures |Written(-1, before + [Logged(e)])| >= k
    ensures Shorn(Written(-1, before + [Logged(e)]), k) + next ==
            Written(-1, before) + (MarkerBytes(LastDB(-1, before), e.db) + (Shorn(Encode(e.value), k) + next))
  {
    WrittenAppend(-1, before, Logged(e));
    hide Written, MarkerBytes, Encode, LastDB;
    var head, marker, value := Written(-1, before), MarkerBytes(LastDB(-1, before), e.db), Encode(e.value);
    ShornAppend(head, marker + value, k);
    ShornAppend(marker, value, k);
    hide Shorn;
    Assoc(head, marker + Shorn(value, k), next);
    Assoc(marker, Shorn(value, k), next);
  }

  lemma ReadOwnMarker(lastDB: int, db: int, current: int, tail: Bytes)
    requires 0 <= db <= MAX64 && (lastDB == -1 || lastDB == current)
    ensures ReadLog(MarkerBytes(lastDB, db) + tail, current) == ReadLog(tail, db)
  {
    if db != lastDB {
      ReadMarker(db, current, tail);
    } else {
      assert "" + tail == tail;
    }
  }

  /**
   The last entry has lost only its last byte or two, so the reader takes it for whole and swallows the first
   line of the next session's marker. The rest of the marker is handed over as two commands, and everything
   that session logs for database `d` is filed under the database of the torn entry instead.
   */
  lemma LostLineEndMisfiles(before: seq<LogEvent>, e: Entry, k: nat, d: int, values: seq<Value>)
    requires AllLoggable(before) && Loggable(e) && EndsInBulk(e.value) && 1 <= k <= 2
    requires values != [] && forall i :: 0 <= i < |values| ==> Loggable(Entry(d, values[i]))
    ensures |Written(-1, before + [Logged(e)])| >= k
    ensures ReadLog(Shorn(Written(-1, before + [Logged(e)]), k) + Written(-1, InDatabase(d, values)), 0) ==
            Recovered(Entries(before) + [e] +
                      FiledUnder(e.db, [BulkString("SELECT"), BulkString(Itoa(d))] + values), EOF)
  {
    assert Loggable(Entry(d, values[0]));
    var session := Written(d, InDatabase(d, values));
    var next := Encode(SelectMarker(d)) + session;
    var name, index := BulkString("SELECT"), BulkString(Itoa(d));
    SessionSplit(d, values);
    ReadShorn(e.value, k, e.db, d, session);
    ReadUnmarked(d, values, e.db);
    ShornLog(before, e, k, next);
    var rest := Shorn(Encode(e.value), k) + next;
    LastIsCurrent(-1, before, 0);
    hide Written, Encode, IsSelect, ReadLog, Shorn, MarkerBytes, LastDB, Current, Entries, InDatabase, SelectMarker;
    ReadThen(-1, before, 0, MarkerBytes(LastDB(-1, before), e.db) + rest);
    ReadOwnMarker(LastDB(-1, before), e.db, Current(0, before), rest);
    var filed := FiledUnder(e.db, values);
    AfterAfter(Entries(before), [e, Entry(e.db, name), Entry(e.db, index)], Recovered(filed, EOF));
    FiledBehind(Entries(before), e, name, index, values);
  }

  lemma FiledBehind(first: seq<Entry>, e: Entry, a: Value, b: Value, values: seq<Value>)
    ensures first + [e, Entry(e.db, a), Entry(e.db, b)] + FiledUnder(e.db, values) ==
            first + [e] + FiledUnder(e.db, [a, b] + values)
  {
    assert FiledUnder(e.db, [a, b] + values) == [Entry(e.db, a), Entry(e.db, b)] + FiledUnder(e.db, values);
    assert [e, Entry(e.db, a), Entry(e.db, b)] == [e] + [Entry(e.db, a), Entry(e.db, b)];
  }
}
