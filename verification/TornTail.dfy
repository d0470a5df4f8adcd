/**
 Logging on behind a torn tail. Opening the log does not cut off what a crash left of its last entry, so the
 next session writes right behind it: when that is harmless, and what it does otherwise.
 */
module TornTail {
  import opened Wrappers
  import opened GoText
  import opened Sequences
  import opened Resp
  import opened AofLog

  // ------------------------------------------------------- where a parse can end

  predicate IsTail(rest: Bytes, s: Bytes) {
    |rest| <= |s| && rest == s[|s| - |rest|..]
  }

  lemma TailOfTail(a: Bytes, b: Bytes, c: Bytes)
    requires IsTail(a, b) && IsTail(b, c)
    ensures IsTail(a, c)
  {
    assert forall i :: 0 <= i < |a| ==> a[i] == b[|b| - |a| + i];
  }

  lemma LineLeavesTail(s: Bytes)
    ensures ReadLine(s).Line? ==> IsTail(ReadLine(s).rest, s)
    ensures ReadNumber(s).Length? ==> IsTail(ReadNumber(s).rest, s)
  {
  }

  lemma BulkLeavesTail(s: Bytes)
    ensures DecodeBulk(s).Got? ==> IsTail(DecodeBulk(s).rest, s)
  {
    hide IsTail, ReadNumber, TakeBulk;
    var r := ReadNumber(s);
    LineLeavesTail(s);
    if r.Length? && r.n >= 0 {
      TakeLeavesTail(r.n, r.rest);
      if TakeBulk(r.n, r.rest).Got? {
        TailOfTail(TakeBulk(r.n, r.rest).rest, r.rest, s);
      }
    }
  }

  lemma TakeLeavesTail(size: nat, s: Bytes)
    ensures TakeBulk(size, s).Got? ==> IsTail(TakeBulk(size, s).rest, s)
  {
    if size <= |s| {
      var after := s[size..];
      assert IsTail(after, s);
      if FirstLF(after) < |after| {
        assert IsTail(after[FirstLF(after) + 1..], after);
        TailOfTail(after[FirstLF(after) + 1..], after, s);
      }
    }
  }

  predicate Flat(s: Bytes) {
    s != "" && s[0] != '$' && s[0] != '*'
  }

  /** The types other than bulk strings and arrays are one line. */
  lemma DecodeFlat(s: Bytes)
    requires Flat(s)
    ensures match Decode(s)
            case Got(v, rest) =>
              && ReadLine(s[1..]).Line? && rest == ReadLine(s[1..]).rest
              && !v.Array? && (Str(v) == "" || Str(v) == ReadLine(s[1..]).text)
            case Stopped(e) => Truncated(e) ==> ReadLine(s[1..]) == NoLine(e)
  {
  }

  /** The parser consumes from the front: what it leaves is a tail of the stream. */
  lemma {:induction false} DecodeLeavesTail(s: Bytes)
    ensures Decode(s).Got? ==> IsTail(Decode(s).rest, s)
    decreases |s|, 0
  {
    if s != "" {
      var body := s[1..];
      assert IsTail(body, s);
      DecodeByPrefix(s);
      if s[0] == '$' {
        BulkLeavesTail(body);
      } else if s[0] == '*' {
        ArrayLeavesTail(body);
      } else {
        DecodeFlat(s);
        LineLeavesTail(body);
      }
      hide Decode, IsTail;
      if Decode(s).Got? {
        TailOfTail(Decode(s).rest, body, s);
      }
    }
  }

  lemma {:induction false} ArrayLeavesTail(s: Bytes)
    ensures DecodeArray(s).Got? ==> IsTail(DecodeArray(s).rest, s)
    decreases |s|, 2
  {
    var r := ReadNumber(s);
    LineLeavesTail(s);
    if r.Length? && r.n >= 0 {
      ManyLeaveTail(r.n, r.rest);
      if DecodeMany(r.n, r.rest).GotAll? {
        TailOfTail(DecodeMany(r.n, r.rest).rest, r.rest, s);
      }
    }
  }

  lemma {:induction false} ManyLeaveTail(n: nat, s: Bytes)
    ensures DecodeMany(n, s).GotAll? ==> IsTail(DecodeMany(n, s).rest, s)
    decreases |s|, 1, n
  {
    hide Decode;
    if n > 0 {
      DecodeLeavesTail(s);
      var r := Decode(s);
      if r.Got? {
        DecodeManyUnfold(n, s);
        ManyLeaveTail(n - 1, r.rest);
        hide IsTail;
        if DecodeMany(n - 1, r.rest).GotAll? {
          TailOfTail(DecodeMany(n - 1, r.rest).rest, r.rest, s);
        }
      }
    }
  }


  lemma NoEarlierLF(s: Bytes, next: Bytes)
    requires FirstLF(s) == |s|
    ensures FirstLF(s + next) >= |s|
  {
    assert forall i :: 0 <= i < |s| ==> (s + next)[i] == s[i];
  }

  lemma LineCrosses(q: Bytes, next: Bytes)
    ensures ReadLine(q).NoLine? && Truncated(ReadLine(q).error) && ReadLine(q + next).Line? ==>
              |ReadLine(q + next).rest| < |next|
    ensures ReadNumber(q).NoLength? && Truncated(ReadNumber(q).error) && ReadNumber(q + next).Length? ==>
              |ReadNumber(q + next).rest| < |next|
  {
  }

  lemma TakeCrosses(size: nat, q: Bytes, next: Bytes)
    requires TakeBulk(size, q).Stopped? && TakeBulk(size, q + next).Got?
    ensures |TakeBulk(size, q + next).rest| < |next|
  {
    if size <= |q| {
      var after := q[size..];
      CutAppended(q, next, size);
      NoEarlierLF(after, next);
    }
  }

  lemma BulkCrosses(q: Bytes, next: Bytes)
    requires DecodeBulk(q).Stopped? && Truncated(DecodeBulk(q).error) && DecodeBulk(q + next).Got?
    ensures |DecodeBulk(q + next).rest| < |next|
  {
    LineCrosses(q, next);
    ReadNumberStable(q, next);
    var r := ReadNumber(q);
    if r.Length? && r.n >= 0 {
      TakeCrosses(r.n, r.rest, next);
    }
  }

  lemma {:induction false} DecodeCrosses(q: Bytes, next: Bytes)
    requires Decode(q).Stopped? && Truncated(Decode(q).error) && Decode(q + next).Got?
    ensures |Decode(q + next).rest| < |next|
    decreases |q|, 0
  {
    if q == "" {
      assert q + next == next;
    } else {
      var body := q[1..];
      assert (q + next)[1..] == body + next;
      DecodeByPrefix(q);
      DecodeByPrefix(q + next);
      if q[0] == '$' {
        BulkCrosses(body, next);
      } else if q[0] == '*' {
        ArrayCrosses(body, next);
      } else {
        DecodeFlat(q);
        DecodeFlat(q + next);
        hide Decode;
        LineCrosses(body, next);
      }
    }
  }

  lemma {:induction false} ArrayCrosses(q: Bytes, next: Bytes)
    requires DecodeArray(q).Stopped? && Truncated(DecodeArray(q).error) && DecodeArray(q + next).Got?
    ensures |DecodeArray(q + next).rest| < |next|
    decreases |q|, 2
  {
    hide ReadNumber;
    LineCrosses(q, next);
    ReadNumberStable(q, next);
    var r := ReadNumber(q);
    if r.Length? && r.n >= 0 {
      ManyCross(r.n, r.rest, next);
    }
  }

  lemma {:induction false} ManyCross(n: nat, q: Bytes, next: Bytes)
    requires DecodeMany(n, q).StoppedAll? && Truncated(DecodeMany(n, q).error) && DecodeMany(n, q + next).GotAll?
    ensures |DecodeMany(n, q + next).rest| < |next|
    decreases |q|, 1, n
  {
    DecodeStable(q, next);
    if Decode(q).Got? {
      DecodeManyUnfold(n, q);
      DecodeManyUnfold(n, q + next);
      ManyCross(n - 1, Decode(q).rest, next);
    } else {
      DecodeCrosses(q, next);
    }
  }

  // ----------------------------------------- the first value of the next session

  predicate HasStar(s: Bytes) {
    exists i :: 0 <= i < |s| && s[i] == '*'
  }

  lemma StarIsNoNumber(s: Bytes)
    requires HasStar(s)
    ensures Atoi(s).None?
  {
    var i :| 0 <= i < |s| && s[i] == '*';
    if Signed(s) {
      assert Unsigned(s)[i - 1] == '*';
    }
    assert !IsDigit('*');
  }

  lemma StarLineIsNoNumber(s: Bytes)
    requires ReadLine(s).Line? && HasStar(ReadLine(s).text)
    ensures ReadNumber(s).NoLength?
  {
    hide ReadLine, HasStar, Atoi;
    StarIsNoNumber(ReadLine(s).text);
  }

  /** A line whose end the stream does not hold yet runs up to the end of the marker's first line. */
  lemma LineIntoMarker(q: Bytes, r: Bytes)
    requires FirstLF(q) == |q|
    ensures var l := ReadLine(q + ("*2\r\n" + r)); l.Line? && HasStar(l.text) && l.rest == r
    ensures ReadNumber(q + ("*2\r\n" + r)).NoLength?
  {
    var text := q + "*2";
    LineWithStar(q, r);
    hide *;
    ReadLineOfText(text, r);
    StarLineIsNoNumber(text + "\r\n" + r);
  }

  lemma LineWithStar(q: Bytes, r: Bytes)
    requires FirstLF(q) == |q|
    ensures q + ("*2\r\n" + r) == q + "*2" + "\r\n" + r
    ensures NoLF(q + "*2") && HasStar(q + "*2")
  {
    NoLFThenStar(q);
    hide *;
    Regroup(q, "*2", "\r\n", r);
    assert "*2\r\n" == "*2" + "\r\n";
  }

  lemma Regroup<T>(a: seq<T>, b: seq<T>, c: seq<T>, d: seq<T>)
    ensures a + (b + c + d) == a + b + c + d
  {
    Assoc(a, b + c, d);
    Assoc(a, b, c);
  }

  lemma NoLFThenStar(q: Bytes)
    requires FirstLF(q) == |q|
    ensures NoLF(q + "*2") && HasStar(q + "*2")
  {
    var n := |q|;
    assert forall i :: 0 <= i < n ==> q[i] != LF;
    hide FirstLF;
    assert (q + "*2")[|q|] == '*';
  }

  lemma BulkIntoMarker(q: Bytes, r: Bytes)
    requires DecodeBulk(q).Stopped? && Truncated(DecodeBulk(q).error) && DecodeBulk(q + ("*2\r\n" + r)).Got?
    ensures var p := DecodeBulk(q + ("*2\r\n" + r)); HasStar(Str(p.value)) || p.rest == r
  {
    var next := "*2\r\n" + r;
    ReadNumberStable(q, next);
    var l := ReadNumber(q);
    if FirstLF(q) == |q| {
      LineIntoMarker(q, r);
    } else if l.Length? && l.n >= 0 {
      TakeIntoMarker(l.n, l.rest, r);
    }
  }

  lemma TakeIntoMarker(size: nat, q: Bytes, r: Bytes)
    requires TakeBulk(size, q).Stopped? && TakeBulk(size, q + ("*2\r\n" + r)).Got?
    ensures var p := TakeBulk(size, q + ("*2\r\n" + r)); HasStar(Str(p.value)) || p.rest == r
  {
    var next := "*2\r\n" + r;
    if size <= |q| {
      var after := q[size..];
      CutAppended(q, next, size);
      assert after + next == after + "*2\r" + [LF] + r;
      FirstLFAt(after + "*2\r", r);
      assert (after + next)[|after| + 4..] == r;
    } else {
      assert (q + next)[..size][|q|] == '*';
    }
  }

  /**
   A value begun in a torn tail and finished by the bytes of a new session swallows the first line of that
   session's marker, in its text or behind it, unless it is a number, null or an array.
   */
  lemma IntoMarker(q: Bytes, r: Bytes)
    requires Decode(q).Stopped? && Truncated(Decode(q).error) && Decode(q + ("*2\r\n" + r)).Got?
    ensures var p := Decode(q + ("*2\r\n" + r)); Str(p.value) == "" || HasStar(Str(p.value)) || p.rest == r
  {
    var next := "*2\r\n" + r;
    if q == "" {
      assert q + next == next;
      DecodeByPrefix(next);
    } else {
      assert (q + next)[1..] == q[1..] + next;
      DecodeByPrefix(q);
      DecodeByPrefix(q + next);
      if q[0] == '$' {
        BulkIntoMarker(q[1..], r);
      } else if q[0] == '*' {
        ArrayHasNoText(q[1..] + next);
      } else {
        DecodeFlat(q);
        DecodeFlat(q + next);
        LineIntoMarker(q[1..], r);
      }
    }
  }

  lemma ArrayHasNoText(s: Bytes)
    ensures DecodeArray(s).Got? ==> Str(DecodeArray(s).value) == ""
  {
  }

  // ------------------------------------------------- an unsafe tail disturbs a session

  const PROBE := Array([BulkString("DEL"), BulkString("k")])

  function AfterName(d: int): Bytes {
    Encode(BulkString(Itoa(d))) + Encode(PROBE)
  }

  function AfterFirstLine(d: int): Bytes {
    Encode(BulkString("SELECT")) + AfterName(d)
  }

  /** What a session writes that logs one command in database `d`. */
  function Session(d: int): Bytes {
    "*2\r\n" + AfterFirstLine(d)
  }

  lemma SessionIsWritten(d: int)
    requires d == 0 || d == 1
    ensures Loggable(Entry(d, PROBE)) && Written(-1, [Logged(Entry(d, PROBE))]) == Session(d)
  {
    MarkerIsSelect(d);
    assert UpperChar('D') == 'D';
    assert Header('*', 2) == "*2\r\n";
    var name, number := BulkString("SELECT"), BulkString(Itoa(d));
    EncodePair(name, number);
    Assoc(Header('*', 2), Encode(name) + Encode(number), Encode(PROBE));
    Assoc(Encode(name), Encode(number), Encode(PROBE));
    assert Written(-1, [Logged(Entry(d, PROBE))]) == EntryBytes(-1, Entry(d, PROBE)) + "";
  }

  /** Stars only at the front of each of two parts. */
  lemma TailAtStar(lead: Bytes, last: Bytes, rest: Bytes)
    requires lead != "" && forall i :: 1 <= i < |lead| ==> lead[i] != '*'
    requires last != "" && forall i :: 1 <= i < |last| ==> last[i] != '*'
    requires IsTail(rest, lead + last) && 0 < |rest| < |lead + last| && rest[0] == '*'
    ensures rest == last
  {
    var all := lead + last;
    assert rest[0] == all[|all| - |rest|];
    assert forall i :: 1 <= i < |all| && all[i] == '*' ==> i == |lead|;
  }

  lemma ProbeText()
    ensures Encode(PROBE) == "*2\r\n$3\r\nDEL\r\n$1\r\nk\r\n"
  {
    assert Encode(BulkString("DEL")) == "$3\r\nDEL\r\n";
    assert Encode(BulkString("k")) == "$1\r\nk\r\n";
    var items := PROBE.items;
    assert EncodeAll(items) == Encode(items[0]) + EncodeAll(items[1..]);
  }

  lemma MarkerText(d: int)
    requires d == 0 || d == 1
    ensures Encode(BulkString("SELECT")) == "$6\r\nSELECT\r\n"
    ensures Encode(BulkString(Itoa(d))) == if d == 0 then "$1\r\n0\r\n" else "$1\r\n1\r\n"
  {
  }

  function Lead(d: int): Bytes {
    if d == 0 then "*2\r\n$6\r\nSELECT\r\n$1\r\n0\r\n" else "*2\r\n$6\r\nSELECT\r\n$1\r\n1\r\n"
  }

  lemma SessionText(d: int)
    requires d == 0 || d == 1
    ensures Session(d) == Lead(d) + Encode(PROBE)
  {
    MarkerText(d);
    hide Encode;
    assert Lead(d) == "*2\r\n" + Encode(BulkString("SELECT")) + Encode(BulkString(Itoa(d)));
    Assoc("*2\r\n", Encode(BulkString("SELECT")), AfterName(d));
    Assoc("*2\r\n" + Encode(BulkString("SELECT")), Encode(BulkString(Itoa(d))), Encode(PROBE));
  }

  /** The two stars in a session: its marker's and its command's. */
  lemma SessionStars(d: int, rest: Bytes)
    requires d == 0 || d == 1
    requires IsTail(rest, Session(d)) && 0 < |rest| < |Session(d)| && rest[0] == '*'
    ensures rest == Encode(PROBE)
  {
    SessionText(d);
    SessionStarFree(d);
    hide *;
    TailAtStar(Lead(d), Encode(PROBE), rest);
  }

  lemma SessionStarFree(d: int)
    ensures Lead(d) != "" && forall i :: 1 <= i < |Lead(d)| ==> Lead(d)[i] != '*'
    ensures forall i :: 1 <= i < |Encode(PROBE)| ==> Encode(PROBE)[i] != '*'
  {
    ProbeText();
    hide Encode;
  }

  lemma FirstIsNoArray(s: Bytes)
    requires s == "" || s[0] != '*'
    ensures Decode(s).Got? ==> !Decode(s).value.Array?
  {
  }

  /** What reads as a stop, or first as something other than an array, is not the probe alone. */
  lemma ReadNoArray(d: int, s: Bytes, current: int)
    requires s == "" || s[0] != '*'
    ensures ReadLog(s, current).entries != [Entry(d, PROBE)]
  {
    FirstIsNoArray(s);
    hide Decode;
    if Decode(s).Got? {
      assert ReadLog(s, current).entries[0] == Entry(current, Decode(s).value);
    }
  }

  lemma ReadProbe(current: int)
    ensures ReadLog(Encode(PROBE), current).entries == [Entry(current, PROBE)]
  {
    SessionIsWritten(0);
    ReadValue(PROBE, current, "");
    hide Session, Encode, PROBE;
    assert Encode(PROBE) + "" == Encode(PROBE);
    assert Decode("") == Stopped(EOF);
  }

  /** Reading on from inside a session, past its start, does not file the command under its database. */
  lemma TailMisreads(d: int, rest: Bytes, current: int)
    requires d == 0 || d == 1
    requires IsTail(rest, Session(d)) && |rest| < |Session(d)|
    requires current != d || rest == "" || rest[0] != '*'
    ensures ReadLog(rest, current).entries != [Entry(d, PROBE)]
  {
    hide Session, Encode, PROBE, ReadLog;
    if rest != "" && rest[0] == '*' {
      SessionStars(d, rest);
      ReadProbe(current);
    } else {
      ReadNoArray(d, rest, current);
    }
  }

  lemma ReadNextNoSelect(d: int, s: Bytes, current: int)
    requires current != d && (Decode(s).Got? ==> !IsSelect(Decode(s).value))
    ensures ReadLog(s, current).entries != [Entry(d, PROBE)]
  {
    hide Decode, IsSelect, PROBE;
    if Decode(s).Got? {
      assert ReadLog(s, current).entries[0] == Entry(current, Decode(s).value);
    }
  }

  /** A torn array and the session behind it: the session ends up in the array's elements. */
  lemma ArrayIntoSession(q: Bytes, d: int)
    requires DecodeArray(q).Stopped? && Truncated(DecodeArray(q).error)
    requires DecodeArray(q + Session(d)).Got? && DecodeArray(q + Session(d)).value.Array?
    ensures ReadNumber(q).Length? && ReadNumber(q).n >= 0
    ensures var n, rest := ReadNumber(q).n, ReadNumber(q).rest;
            && DecodeMany(n, rest).StoppedAll? && Truncated(DecodeMany(n, rest).error)
            && DecodeArray(q + Session(d)) == AsArray(DecodeMany(n, rest + Session(d)))
  {
    ReadNumberStable(q, Session(d));
    if FirstLF(q) == |q| {
      LineIntoMarker(q, AfterFirstLine(d));
    }
    hide AfterFirstLine, DecodeMany;
  }

  lemma ShorterTail(a: Bytes, b: Bytes, s: Bytes)
    requires IsTail(a, s) && IsTail(b, s) && |a| <= |b|
    ensures IsTail(a, b)
  {
  }

  lemma TwoDecoded(s: Bytes)
    requires DecodeMany(2, s).GotAll?
    ensures Decode(s).Got? && Decode(Decode(s).rest).Got?
    ensures DecodeMany(2, s) ==
            GotAll([Decode(s).value, Decode(Decode(s).rest).value], Decode(Decode(s).rest).rest)
  {
    var second := Decode(s).rest;
    DecodeManyUnfold(2, s);
    DecodeManyUnfold(1, second);
    assert DecodeMany(0, Decode(second).rest) == GotAll([], Decode(second).rest);
  }

  lemma SessionFronts(d: int)
    ensures AfterFirstLine(d)[0] == '$' && AfterName(d)[0] == '$'
  {
  }

  /** The session becomes the index of a marker: it is no number, or the command is no longer in front. */
  lemma IndexIntoSession(q: Bytes, d: int)
    requires Decode(q).Stopped? && Truncated(Decode(q).error) && Decode(q + Session(d)).Got?
    ensures var r := Decode(q + Session(d)); Atoi(Str(r.value)).None? || r.rest == AfterFirstLine(d)
  {
    IntoMarker(q, AfterFirstLine(d));
    hide Decode, AfterFirstLine;
    var text := Str(Decode(q + Session(d)).value);
    if HasStar(text) {
      StarIsNoNumber(text);
    }
    assert Atoi("").None?;
  }

  lemma NoStarInName(name: Bytes)
    requires ToUpper(name) == "SELECT"
    ensures name != "" && !HasStar(name)
  {
    assert UpperChar('*') == '*';
    assert forall i :: 0 <= i < |name| ==> "SELECT"[i] == UpperChar(name[i]);
    assert forall i :: 0 <= i < 6 ==> "SELECT"[i] != '*';
  }

  /** The session becomes the name of a marker: only if that name was whole but for the end of its line. */
  lemma NameIntoSession(q: Bytes, d: int)
    requires Decode(q).Stopped? && Truncated(Decode(q).error) && Decode(q + Session(d)).Got?
    requires ToUpper(Str(Decode(q + Session(d)).value)) == "SELECT"
    ensures Decode(q + Session(d)).rest == AfterFirstLine(d)
    ensures Decode(AfterFirstLine(d)) == Got(BulkString("SELECT"), AfterName(d))
  {
    IntoMarker(q, AfterFirstLine(d));
    NoStarInName(Str(Decode(q + Session(d)).value));
    RoundTrip(BulkString("SELECT"), AfterName(d));
  }

  /** Two items make a marker, and the torn tail holds only the start of them. */
  lemma MarkerIntoSession(q: Bytes, d: int, current: int)
    requires DecodeMany(2, q).StoppedAll? && Truncated(DecodeMany(2, q).error)
    requires DecodeMany(2, q + Session(d)).GotAll? && IsSelect(Array(DecodeMany(2, q + Session(d)).values))
    ensures var r := DecodeMany(2, q + Session(d));
            Next(current, Array(r.values)) == current || (r.rest != "" && r.rest[0] == '$')
  {
    var s := q + Session(d);
    TwoDecoded(s);
    SessionFronts(d);
    DecodeStable(q, Session(d));
    if Decode(q).Got? {
      assert DecodeMany(2, q) == Cons(Decode(q).value, DecodeMany(1, Decode(q).rest));
      IndexIntoSession(Decode(q).rest, d);
    } else {
      NameIntoSession(q, d);
    }
  }

  lemma RestInSession(n: nat, q: Bytes, d: int)
    requires DecodeMany(n, q).StoppedAll? && Truncated(DecodeMany(n, q).error)
    requires DecodeMany(n, q + Session(d)).GotAll?
    ensures var rest := DecodeMany(n, q + Session(d)).rest;
            IsTail(rest, Session(d)) && |rest| < |Session(d)|
  {
    var s := q + Session(d);
    ManyCross(n, q, Session(d));
    ManyLeaveTail(n, s);
    hide DecodeMany, Session;
    assert IsTail(Session(d), s);
    ShorterTail(DecodeMany(n, s).rest, Session(d), s);
  }

  /**
   Whatever is left of an entry behind the events that survive whole: a next session that logs one command, in
   another database than the reader is at, is not read back as that.
   */
  lemma TornTailDisturbs(t: Bytes, d: int, current: int)
    requires d == 0 || d == 1
    requires t != "" && Decode(t).Stopped? && Truncated(Decode(t).error) && current != d
    ensures ReadLog(t + Session(d), current).entries != [Entry(d, PROBE)]
  {
    var s := t + Session(d);
    if Decode(s).Got? && IsSelect(Decode(s).value) {
      if t[0] != '*' {
        FirstIsNoArray(s);
        assert false;
      }
      assert s[1..] == t[1..] + Session(d);
      DecodeByPrefix(t);
      DecodeByPrefix(s);
      ArrayIntoSession(t[1..], d);
      var n, q := ReadNumber(t[1..]).n, ReadNumber(t[1..]).rest;
      var r := DecodeMany(n, q + Session(d));
      hide Decode, DecodeArray, DecodeMany, Session, ReadNumber, PROBE, ReadLog;
      RestInSession(n, q, d);
      MarkerIntoSession(q, d, current);
      TailMisreads(d, r.rest, Next(current, Array(r.values)));
      ReadSelect(s, current);
    } else {
      ReadNextNoSelect(d, s, current);
    }
  }

  lemma ReadSelect(s: Bytes, current: int)
    requires Decode(s).Got? && IsSelect(Decode(s).value)
    ensures ReadLog(s, current) == ReadLog(Decode(s).rest, Next(current, Decode(s).value))
  {
    hide Decode, IsSelect, Next;
  }

  // --------------------------------------------------------------- which tails are safe

  /** Every later session is read back whole behind what is kept of the log. */
  ghost predicate SafeCut(events: seq<LogEvent>, n: nat)
    requires n <= |Written(-1, events)|
  {
    forall later: seq<LogEvent> :: AllLoggable(later) ==>
      ReadLog(Written(-1, events)[..n] + Written(-1, later), 0).entries ==
      Entries(Kept(-1, events, n)) + Entries(later)
  }

  lemma ReadBehind(events: seq<LogEvent>, n: nat, t: Bytes, next: Bytes)
    requires AllLoggable(events) && n <= |Written(-1, events)|
    requires Remainder(Written(-1, events), n, Written(-1, Kept(-1, events, n)), t)
    ensures ReadLog(Written(-1, events)[..n] + next, 0) ==
            After(Entries(Kept(-1, events, n)), ReadLog(t + next, Current(0, Kept(-1, events, n))))
  {
    var kept := Kept(-1, events, n);
    KeptLoggable(-1, events, n);
    hide Written, Kept, AllLoggable, ReadLog, Entries, Decode;
    Assoc(Written(-1, kept), t, next);
    ReadThen(-1, kept, 0, t + next);
  }

  lemma CleanCutIsSafe(events: seq<LogEvent>, n: nat)
    requires AllLoggable(events) && n <= |Written(-1, events)| && CleanCut(-1, events, n)
    ensures SafeCut(events, n)
  {
    var t := TornAt(-1, events, n);
    hide Written, Kept, CleanCut, AllLoggable, ReadLog, Entries, Remainder;
    forall later: seq<LogEvent> | AllLoggable(later)
      ensures ReadLog(Written(-1, events)[..n] + Written(-1, later), 0).entries ==
              Entries(Kept(-1, events, n)) + Entries(later)
    {
      ReadBehind(events, n, t, Written(-1, later));
      assert t + Written(-1, later) == Written(-1, later);
      ReadWritten(-1, later, Current(0, Kept(-1, events, n)));
    }
  }

  lemma SafeCutIsClean(events: seq<LogEvent>, n: nat)
    requires AllLoggable(events) && n <= |Written(-1, events)| && SafeCut(events, n)
    ensures CleanCut(-1, events, n)
  {
    var t := TornAt(-1, events, n);
    var kept := Kept(-1, events, n);
    var current := Current(0, kept);
    var d := if current == 0 then 1 else 0;
    var later := [Logged(Entry(d, PROBE))];
    SessionIsWritten(d);
    ReadBehind(events, n, t, Session(d));
    assert AllLoggable(later);
    assert Entries(later) == [Entry(d, PROBE)];
    hide Written, Kept, CleanCut, AllLoggable, ReadLog, Entries, Current, Session, PROBE;
    if t != "" {
      assert Decode(t).Stopped? && Truncated(Decode(t).error);
      TornTailDisturbs(t, d, current);
      Cancel(Entries(kept), ReadLog(t + Session(d), current).entries, [Entry(d, PROBE)]);
      assert false;
    }
  }

  lemma Cancel<T>(a: seq<T>, b: seq<T>, c: seq<T>)
    requires b != c
    ensures a + b != a + c
  {
    Halves(a, b);
    Halves(a, c);
  }

  /**
   A crash that leaves the first `n` bytes of a log is harmless if and only if it cuts between two entries or
   right behind a marker: exactly then whatever later sessions log is read back, behind the entries of the `m`
   events wholly inside those bytes.
   */
  lemma TailIsSafeIff(events: seq<LogEvent>, n: nat) returns (m: nat)
    requires AllLoggable(events) && n <= |Written(-1, events)|
    ensures WhollyInside(-1, events, n, m) && Entries(Kept(-1, events, n)) == Entries(events[..m])
    ensures SafeCut(events, n) <==> CleanCut(-1, events, n)
  {
    m := KeptIsInside(-1, events, n);
    KeptEntries(events, Kept(-1, events, n), m);
    hide CleanCut, SafeCut, Written, Kept, Entries, WhollyInside;
    if CleanCut(-1, events, n) {
      CleanCutIsSafe(events, n);
    }
    if SafeCut(events, n) {
      SafeCutIsClean(events, n);
    }
  }
}
