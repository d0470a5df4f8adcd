/**
 The RESP2 codec: what the writer emits for a value, and what the parser makes of a byte stream.

 `Encode` and `Decode` are the specification; the classes `Writer` and `Parser` are the source's
 stateful writer and reader, proved against them.
 */
module Resp {
  import opened Wrappers
  import opened GoText
  import opened Sequences

  datatype Value =
    | SimpleString(text: Bytes)
    | SimpleError(text: Bytes)
    | Integer(num: int)
    | BulkString(text: Bytes)
    | Array(items: seq<Value>)
    | Null

  /** The field `Str` of the source's struct; empty for the types that never set it. */
  function Str(v: Value): Bytes {
    match v
    case SimpleString(s) => s
    case SimpleError(s) => s
    case BulkString(s) => s
    case _ => ""
  }

  function Strs(vs: seq<Value>): (r: seq<Bytes>)
    ensures |r| == |vs|
    ensures forall i :: 0 <= i < |vs| ==> r[i] == Str(vs[i])
  {
    seq(|vs|, i requires 0 <= i < |vs| => Str(vs[i]))
  }

  /** How a read can stop short of a value. `NegativeLength` is the panic of `make` with a negative size. */
  datatype ReadError = EOF | UnexpectedEOF | Malformed | NegativeLength

  /** The errors that only say the stream ended too early. */
  predicate Truncated(e: ReadError) {
    e == EOF || e == UnexpectedEOF
  }

  datatype Line = Line(text: Bytes, rest: Bytes) | NoLine(error: ReadError)
  datatype Parsed = Got(value: Value, rest: Bytes) | Stopped(error: ReadError)
  datatype ParsedAll = GotAll(values: seq<Value>, rest: Bytes) | StoppedAll(error: ReadError)

  const LF := '\n'

  // ------------------------------------------------------------------ writing

  /** A type byte, a text and CRLF. */
  function LineOf(kind: char, text: Bytes): (b: Bytes)
    ensures b != ""
  {
    [kind] + text + "\r\n"
  }

  function Header(kind: char, n: int): (b: Bytes)
    ensures b != ""
  {
    LineOf(kind, Itoa(n))
  }

  function Encode(v: Value): (b: Bytes)
    ensures b != ""
    decreases v, 1
  {
    match v
    case SimpleString(s) => LineOf('+', s)
    case SimpleError(s) => LineOf('-', s)
    case Integer(n) => Header(':', n)
    case BulkString(s) => Header('$', |s|) + s + "\r\n"
    case Array(items) => Header('*', |items|) + EncodeAll(items)
    case Null => "$-1\r\n"
  }

  function EncodeAll(vs: seq<Value>): Bytes
    decreases vs, 0
  {
    if vs == [] then "" else Encode(vs[0]) + EncodeAll(vs[1..])
  }

  lemma {:induction false} EncodeAllAppend(vs: seq<Value>, v: Value)
    ensures EncodeAll(vs + [v]) == EncodeAll(vs) + Encode(v)
  {
    var all := vs + [v];
    if vs == [] {
      assert all[1..] == [];
    } else {
      EncodeAllAppend(vs[1..], v);
      assert all[0] == vs[0] && all[1..] == vs[1..] + [v];
      Assoc(Encode(vs[0]), EncodeAll(vs[1..]), Encode(v));
    }
  }

  lemma EncodePair(a: Value, b: Value)
    ensures EncodeAll([a, b]) == Encode(a) + Encode(b)
  {
    assert [a, b][1..] == [b] && [b][1..] == [];
    hide Encode;
    assert EncodeAll([b]) == Encode(b) + "";
  }

  // ------------------------------------------------------------------ reading

  predicate NoLF(s: Bytes) {
    forall i :: 0 <= i < |s| ==> s[i] != LF
  }

  /** Position of the first LF, or |s| when there is none. */
  function FirstLF(s: Bytes): (n: nat)
    ensures n <= |s|
    ensures n < |s| ==> s[n] == LF
    ensures forall i :: 0 <= i < n ==> s[i] != LF
  {
    if s == "" || s[0] == LF then 0 else 1 + FirstLF(s[1..])
  }

  lemma {:induction false} FirstLFAt(s: Bytes, rest: Bytes)
    requires NoLF(s)
    ensures FirstLF(s + [LF] + rest) == |s|
  {
    if s != "" {
      FirstLFAt(s[1..], rest);
      assert (s + [LF] + rest)[1..] == s[1..] + [LF] + rest;
    }
  }

  lemma FirstLFStable(s: Bytes, tail: Bytes)
    requires FirstLF(s) < |s|
    ensures FirstLF(s + tail) == FirstLF(s)
  {
    var n := FirstLF(s);
    assert (s + tail)[n] == LF;
    assert forall i :: 0 <= i < n ==> (s + tail)[i] == s[i];
  }

  /** `readLine`: everything up to LF, without the LF and the byte before it. */
  function ReadLine(s: Bytes): (r: Line)
    ensures r.Line? ==> |r.rest| < |s|
  {
    var n := FirstLF(s);
    if n == |s| then NoLine(EOF)
    else if n < 1 then NoLine(Malformed)
    else Line(s[..n - 1], s[n + 1..])
  }

  /** `readLine` followed by strconv.Atoi. */
  datatype LengthLine = Length(n: int64, rest: Bytes) | NoLength(error: ReadError)

  function ReadNumber(s: Bytes): (r: LengthLine)
    ensures r.Length? ==> |r.rest| < |s|
  {
    match ReadLine(s)
    case NoLine(e) => NoLength(e)
    case Line(text, rest) =>
      match Atoi(text)
      case None => NoLength(Malformed)
      case Some(n) => Length(n, rest)
  }

  /** The end of `readBulkString`, once the size is known. */
  function TakeBulk(size: nat, rest: Bytes): (r: Parsed)
    ensures r.Got? ==> |r.rest| < |rest|
  {
    if |rest| < size then Stopped(if rest == "" then EOF else UnexpectedEOF)
    else
      var n := FirstLF(rest[size..]);
      if n == |rest[size..]| then Stopped(EOF)
      else Got(BulkString(rest[..size]), rest[size..][n + 1..])
  }

  /** `readBulkString`, after the prefix byte. */
  function DecodeBulk(s: Bytes): (r: Parsed)
    ensures r.Got? ==> |r.rest| < |s|
  {
    match ReadNumber(s)
    case NoLength(e) => Stopped(e)
    case Length(size, rest) =>
      if size == -1 then Got(Null, rest)
      else if size < 0 then Stopped(NegativeLength)
      else TakeBulk(size, rest)
  }

  /** `Parse`: the value at the front of the stream and what follows it. */
  function Decode(s: Bytes): (r: Parsed)
    ensures r.Got? ==> |r.rest| < |s|
    decreases |s|, 0
  {
    if s == "" then Stopped(EOF)
    else
      var body := s[1..];
      if s[0] == '+' then
        match ReadLine(body)
        case NoLine(e) => Stopped(e)
        case Line(text, rest) => Got(SimpleString(text), rest)
      else if s[0] == '-' then
        match ReadLine(body)
        case NoLine(e) => Stopped(e)
        case Line(text, rest) => Got(SimpleError(text), rest)
      else if s[0] == ':' then
        match ReadNumber(body)
        case NoLength(e) => Stopped(e)
        case Length(n, rest) => Got(Integer(n), rest)
      else if s[0] == '$' then DecodeBulk(body)
      else if s[0] == '*' then DecodeArray(body)
      else Stopped(Malformed)
  }

  /** `readArray`, after the prefix byte. */
  function DecodeArray(s: Bytes): (r: Parsed)
    ensures r.Got? ==> |r.rest| < |s|
    decreases |s|, 2
  {
    match ReadNumber(s)
    case NoLength(e) => Stopped(e)
    case Length(size, rest) =>
      if size == -1 then Got(Null, rest)
      else if size < 0 then Stopped(NegativeLength)
      else AsArray(DecodeMany(size, rest))
  }

  function AsArray(r: ParsedAll): Parsed {
    match r
    case StoppedAll(e) => Stopped(e)
    case GotAll(values, rest) => Got(Array(values), rest)
  }

  /** The element loop of `readArray`. */
  function DecodeMany(n: nat, s: Bytes): (r: ParsedAll)
    ensures r.GotAll? ==> |r.rest| <= |s| && |r.values| == n
    decreases |s|, 1, n
  {
    if n == 0 then GotAll([], s)
    else
      match Decode(s)
      case Stopped(e) => StoppedAll(e)
      case Got(v, rest) => Cons(v, DecodeMany(n - 1, rest))
  }

  function Cons(v: Value, r: ParsedAll): ParsedAll {
    match r
    case StoppedAll(_) => r
    case GotAll(vs, rest) => GotAll([v] + vs, rest)
  }

  function Prepend(vs: seq<Value>, r: ParsedAll): ParsedAll {
    match r
    case StoppedAll(_) => r
    case GotAll(more, rest) => GotAll(vs + more, rest)
  }

  lemma PrependCons(vs: seq<Value>, v: Value, r: ParsedAll)
    ensures Prepend(vs, Cons(v, r)) == Prepend(vs + [v], r)
  {
    if r.GotAll? {
      assert vs + ([v] + r.values) == vs + [v] + r.values;
    }
  }

  // ------------------------------------------------------------- round trip

  /** The values a Go program can hold and the wire can carry. */
  predicate Sendable(v: Value)
    decreases v
  {
    match v
    case SimpleString(s) => NoLF(s)
    case SimpleError(s) => NoLF(s)
    case Integer(n) => MIN64 <= n <= MAX64
    case BulkString(s) => |s| <= MAX64
    case Array(items) => |items| <= MAX64 && forall i :: 0 <= i < |items| ==> Sendable(items[i])
    case Null => true
  }

  lemma ReadLineOfText(s: Bytes, rest: Bytes)
    requires NoLF(s)
    ensures ReadLine(s + "\r\n" + rest) == Line(s, rest)
  {
    var cr := s + "\r";
    assert s + "\r\n" + rest == cr + [LF] + rest;
    FirstLFAt(cr, rest);
    var all := cr + [LF] + rest;
    assert all[..|cr| - 1] == s;
    assert all[|cr| + 1..] == rest;
  }

  lemma DecodeByPrefix(s: Bytes)
    requires s != ""
    ensures s[0] == '$' ==> Decode(s) == DecodeBulk(s[1..])
    ensures s[0] == '*' ==> Decode(s) == DecodeArray(s[1..])
  {
  }

  lemma LineRoundTrip(kind: char, s: Bytes, rest: Bytes)
    requires NoLF(s)
    ensures (LineOf(kind, s) + rest)[0] == kind
    ensures ReadLine((LineOf(kind, s) + rest)[1..]) == Line(s, rest)
  {
    assert (LineOf(kind, s) + rest)[1..] == s + "\r\n" + rest;
    ReadLineOfText(s, rest);
  }

  lemma HeaderRoundTrip(kind: char, n: int64, rest: Bytes)
    ensures (Header(kind, n) + rest)[0] == kind
    ensures ReadNumber((Header(kind, n) + rest)[1..]) == Length(n, rest)
  {
    LineRoundTrip(kind, Itoa(n), rest);
    AtoiOfItoa(n);
  }

  lemma TakeBulkRoundTrip(s: Bytes, rest: Bytes)
    ensures TakeBulk(|s|, s + "\r\n" + rest) == Got(BulkString(s), rest)
  {
    var input := s + "\r\n" + rest;
    var after := "\r" + [LF] + rest;
    assert input[..|s|] == s;
    assert input[|s|..] == after;
    FirstLFAt("\r", rest);
    assert after[2..] == rest;
  }

  lemma RoundTripBulk(s: Bytes, rest: Bytes)
    requires |s| <= MAX64
    ensures Decode(Encode(BulkString(s)) + rest) == Got(BulkString(s), rest)
  {
    var head, tail := Header('$', |s|), s + "\r\n" + rest;
    var input := Encode(BulkString(s)) + rest;
    Assoc(head, s, "\r\n");
    Assoc(head, s + "\r\n", rest);
    assert input == head + tail;
    HeaderRoundTrip('$', |s|, tail);
    TakeBulkRoundTrip(s, rest);
    DecodeByPrefix(input);
  }

  lemma RoundTripArray(items: seq<Value>, rest: Bytes)
    requires |items| <= MAX64
    requires DecodeMany(|items|, EncodeAll(items) + rest) == GotAll(items, rest)
    ensures Decode(Encode(Array(items)) + rest) == Got(Array(items), rest)
  {
    var head, tail := Header('*', |items|), EncodeAll(items) + rest;
    var input := Encode(Array(items)) + rest;
    Assoc(head, EncodeAll(items), rest);
    assert input == head + tail;
    HeaderRoundTrip('*', |items|, tail);
    DecodeByPrefix(input);
  }

  lemma RoundTripNull(rest: Bytes)
    ensures Decode(Encode(Null) + rest) == Got(Null, rest)
  {
    var input := Encode(Null) + rest;
    assert input[1..] == "-1" + "\r\n" + rest;
    ReadLineOfText("-1", rest);
    assert Unsigned("-1") == "1";
    assert Magnitude("1") == 1;
    DecodeByPrefix(input);
  }

  lemma RoundTripFlat(v: Value, rest: Bytes)
    requires Sendable(v) && (v.SimpleString? || v.SimpleError? || v.Integer?)
    ensures Decode(Encode(v) + rest) == Got(v, rest)
  {
    match v {
      case SimpleString(s) => LineRoundTrip('+', s, rest);
      case SimpleError(s) => LineRoundTrip('-', s, rest);
      case Integer(n) => HeaderRoundTrip(':', n, rest);
    }
  }

  /** Parsing what was written, followed by any bytes at all, gives the value back and leaves those bytes. */
  lemma {:induction false} RoundTrip(v: Value, rest: Bytes)
    requires Sendable(v)
    ensures Decode(Encode(v) + rest) == Got(v, rest)
    decreases v, 1
  {
    match v {
      case BulkString(s) => RoundTripBulk(s, rest);
      case Array(items) =>
        RoundTripAll(items, rest);
        RoundTripArray(items, rest);
      case Null => RoundTripNull(rest);
      case _ => RoundTripFlat(v, rest);
    }
  }

  lemma {:induction false} RoundTripAll(vs: seq<Value>, rest: Bytes)
    requires forall i :: 0 <= i < |vs| ==> Sendable(vs[i])
    ensures DecodeMany(|vs|, EncodeAll(vs) + rest) == GotAll(vs, rest)
    decreases vs, 0
  {
    if vs == [] {
      assert EncodeAll(vs) + rest == rest;
    } else {
      var tail := EncodeAll(vs[1..]) + rest;
      Assoc(Encode(vs[0]), EncodeAll(vs[1..]), rest);
      RoundTrip(vs[0], tail);
      RoundTripAll(vs[1..], rest);
    }
  }

  /** Whatever the parser returns lies in the domain of the round trip, so it can be logged and re-read. */
  lemma {:induction false} DecodedIsSendable(s: Bytes)
    ensures Decode(s).Got? ==> Sendable(Decode(s).value)
    decreases |s|, 0
  {
    if s != "" && s[0] == '*' {
      DecodeByPrefix(s);
      var r := ReadNumber(s[1..]);
      if r.Length? && r.n >= 0 {
        DecodedAllSendable(r.n, r.rest);
      }
    }
  }

  lemma {:induction false} DecodedAllSendable(n: nat, s: Bytes)
    ensures DecodeMany(n, s).GotAll? ==> forall v <- DecodeMany(n, s).values :: Sendable(v)
    decreases |s|, 1, n
  {
    if n > 0 {
      DecodedIsSendable(s);
      if Decode(s).Got? {
        DecodedAllSendable(n - 1, Decode(s).rest);
      }
    }
  }

  // ------------------------------------------------------------- truncation

  lemma ReadLineStable(s: Bytes, tail: Bytes)
    ensures ReadLine(s).Line? ==> ReadLine(s + tail) == Line(ReadLine(s).text, ReadLine(s).rest + tail)
    ensures ReadLine(s).NoLine? && !Truncated(ReadLine(s).error) ==> ReadLine(s + tail) == ReadLine(s)
  {
    var n := FirstLF(s);
    if n < |s| {
      FirstLFStable(s, tail);
      CutAppended(s, tail, n + 1);
      if n > 0 {
        CutAppended(s, tail, n - 1);
      }
    }
  }

  lemma ReadNumberStable(s: Bytes, tail: Bytes)
    ensures ReadNumber(s).Length? ==> ReadNumber(s + tail) == Length(ReadNumber(s).n, ReadNumber(s).rest + tail)
    ensures ReadNumber(s).NoLength? && !Truncated(ReadNumber(s).error) ==> ReadNumber(s + tail) == ReadNumber(s)
  {
    ReadLineStable(s, tail);
  }

  predicate StableUnder(r: Parsed, extended: Parsed, tail: Bytes) {
    match r
    case Got(v, rest) => extended == Got(v, rest + tail)
    case Stopped(e) => Truncated(e) || extended == r
  }

  lemma TakeBulkStable(size: nat, rest: Bytes, tail: Bytes)
    ensures StableUnder(TakeBulk(size, rest), TakeBulk(size, rest + tail), tail)
  {
    if size <= |rest| {
      var after := rest[size..];
      CutAppended(rest, tail, size);
      var n := FirstLF(after);
      if n < |after| {
        FirstLFStable(after, tail);
        CutAppended(after, tail, n + 1);
      }
    }
  }

  predicate AllStableUnder(r: ParsedAll, extended: ParsedAll, tail: Bytes) {
    match r
    case GotAll(vs, rest) => extended == GotAll(vs, rest + tail)
    case StoppedAll(e) => Truncated(e) || extended == r
  }

  lemma DecodeBulkStable(s: Bytes, tail: Bytes)
    ensures StableUnder(DecodeBulk(s), DecodeBulk(s + tail), tail)
  {
    ReadNumberStable(s, tail);
    var r := ReadNumber(s);
    if r.Length? && 0 <= r.n {
      TakeBulkStable(r.n, r.rest, tail);
    }
  }

  /** A verdict other than "the stream ended" never changes when more bytes arrive. */
  lemma {:induction false} DecodeStable(s: Bytes, tail: Bytes)
    ensures StableUnder(Decode(s), Decode(s + tail), tail)
    decreases |s|, 0
  {
    if s != "" {
      var body := s[1..];
      assert (s + tail)[1..] == body + tail;
      if s[0] == '$' {
        DecodeBulkStable(body, tail);
      } else if s[0] == '*' {
        DecodeArrayStable(body, tail);
      } else {
        ReadLineStable(body, tail);
        ReadNumberStable(body, tail);
      }
    }
  }

  lemma {:induction false} DecodeArrayStable(s: Bytes, tail: Bytes)
    ensures StableUnder(DecodeArray(s), DecodeArray(s + tail), tail)
    decreases |s|, 2
  {
    ReadNumberStable(s, tail);
    var r := ReadNumber(s);
    if r.Length? && r.n >= 0 {
      DecodeManyStable(r.n, r.rest, tail);
    }
  }

  lemma ConsStable(v: Value, r: ParsedAll, extended: ParsedAll, tail: Bytes)
    requires AllStableUnder(r, extended, tail)
    ensures AllStableUnder(Cons(v, r), Cons(v, extended), tail)
  {
  }

  lemma {:induction false} DecodeManyStable(n: nat, s: Bytes, tail: Bytes)
    ensures AllStableUnder(DecodeMany(n, s), DecodeMany(n, s + tail), tail)
    decreases |s|, 1, n
  {
    if n > 0 {
      DecodeStable(s, tail);
      var r := Decode(s);
      if r.Got? {
        DecodeManyStable(n - 1, r.rest, tail);
        DecodeManyUnfold(n, s);
        DecodeManyUnfold(n, s + tail);
        ConsStable(r.value, DecodeMany(n - 1, r.rest), DecodeMany(n - 1, r.rest + tail), tail);
      }
    }
  }

  lemma DecodeManyUnfold(n: nat, s: Bytes)
    requires n > 0 && Decode(s).Got?
    ensures DecodeMany(n, s) == Cons(Decode(s).value, DecodeMany(n - 1, Decode(s).rest))
  {
  }

  /** No proper prefix of an encoded value parses, and the parser blames the end of the stream. */
  lemma ProperPrefixStops(v: Value, n: nat)
    requires Sendable(v) && n < |Encode(v)|
    ensures Decode(Encode(v)[..n]).Stopped? && Truncated(Decode(Encode(v)[..n]).error)
  {
    var whole := Encode(v);
    var cut, tail := whole[..n], whole[n..];
    assert cut + tail == whole == whole + "";
    assert Decode(cut).Got? ==> Decode(cut).rest + tail != "";
    DecodeStable(cut, tail);
    RoundTrip(v, "");
  }

  // -------------------------------------------------------------- the classes

  datatype Result<T> = Ok(value: T) | Err(error: ReadError)

  /** Reads values off a buffered stream; `reader` holds the bytes not consumed yet. */
  class Parser {
    var reader: Bytes

    constructor (stream: Bytes)
      ensures reader == stream
    {
      reader := stream;
    }

    method ReadUntilLF() returns (ok: bool, line: Bytes)
      modifies this
      ensures ok <==> FirstLF(old(reader)) < |old(reader)|
      ensures ok ==>
                && line == old(reader)[..FirstLF(old(reader)) + 1]
                && reader == old(reader)[FirstLF(old(reader)) + 1..]
    {
      var n := FirstLF(reader);
      if n == |reader| {
        reader := "";
        return false, "";
      }
      line := reader[..n + 1];
      reader := reader[n + 1..];
      return true, line;
    }

    method Line() returns (r: Result<Bytes>)
      modifies this
      ensures match ReadLine(old(reader))
              case Line(text, rest) => r == Ok(text) && reader == rest
              case NoLine(e) => r == Err(e)
    {
      var ok, line := ReadUntilLF();
      if !ok {
        return Err(EOF);
      }
      if |line| < 2 {
        return Err(Malformed);
      }
      var text := line[..|line| - 2];
      assert text == old(reader)[..FirstLF(old(reader)) - 1];
      return Ok(text);
    }

    method Number() returns (r: Result<int64>)
      modifies this
      ensures match ReadNumber(old(reader))
              case Length(n, rest) => r == Ok(n) && reader == rest
              case NoLength(e) => r == Err(e)
    {
      var line := Line();
      match line {
        case Err(e) => return Err(e);
        case Ok(text) =>
          var n := Atoi(text);
          if n.None? {
            return Err(Malformed);
          }
          return Ok(n.value);
      }
    }

    method BulkBody() returns (r: Result<Value>)
      modifies this
      ensures match DecodeBulk(old(reader))
              case Got(v, rest) => r == Ok(v) && reader == rest
              case Stopped(e) => r == Err(e)
    {
      var size := Number();
      if size.Err? {
        return Err(size.error);
      }
      if size.value == -1 {
        return Ok(Null);
      }
      if size.value < 0 {
        return Err(NegativeLength);
      }
      if |reader| < size.value {
        return Err(if reader == "" then EOF else UnexpectedEOF);
      }
      var buf := reader[..size.value];
      reader := reader[size.value..];
      var ok, _ := ReadUntilLF();
      if !ok {
        return Err(EOF);
      }
      return Ok(BulkString(buf));
    }

    method ArrayBody() returns (r: Result<Value>)
      modifies this
      ensures match DecodeArray(old(reader))
              case Got(v, rest) => r == Ok(v) && reader == rest
              case Stopped(e) => r == Err(e)
      decreases |reader|, 1
    {
      var length := Number();
      if length.Err? {
        return Err(length.error);
      }
      if length.value == -1 {
        return Ok(Null);
      }
      if length.value < 0 {
        return Err(NegativeLength);
      }
      var arr: seq<Value> := [];
      var i := 0;
      ghost var start := reader;
      while i < length.value
        invariant 0 <= i <= length.value
        invariant |reader| <= |start| < |old(reader)|
        invariant DecodeMany(length.value, start) == Prepend(arr, DecodeMany(length.value - i, reader))
      {
        var value := Parse();
        if value.Err? {
          return Err(value.error);
        }
        PrependCons(arr, value.value, DecodeMany(length.value - i - 1, reader));
        arr := arr + [value.value];
        i := i + 1;
      }
      assert arr + [] == arr;
      return Ok(Array(arr));
    }

    method Parse() returns (r: Result<Value>)
      modifies this
      ensures match Decode(old(reader))
              case Got(v, rest) => r == Ok(v) && reader == rest
              case Stopped(e) => r == Err(e)
      decreases |reader|, 0
    {
      if reader == "" {
        return Err(EOF);
      }
      var prefix := reader[0];
      reader := reader[1..];
      if prefix == '+' || prefix == '-' {
        var line := Line();
        if line.Err? {
          return Err(line.error);
        }
        return Ok(if prefix == '+' then SimpleString(line.value) else SimpleError(line.value));
      } else if prefix == ':' {
        var n := Number();
        if n.Err? {
          return Err(n.error);
        }
        return Ok(Integer(n.value));
      } else if prefix == '$' {
        r := BulkBody();
      } else if prefix == '*' {
        r := ArrayBody();
      } else {
        return Err(Malformed);
      }
    }
  }

  /** Appends encoded values to a stream; `out` is what has been written so far. */
  class Writer {
    var out: Bytes

    constructor (stream: Bytes)
      ensures out == stream
    {
      out := stream;
    }

    method WriteLine(kind: char, text: Bytes)
      modifies this
      ensures out == old(out) + LineOf(kind, text)
    {
      out := out + [kind];
      out := out + text;
      out := out + "\r\n";
    }

    method WriteArray(arr: seq<Value>)
      modifies this
      ensures out == old(out) + (Header('*', |arr|) + EncodeAll(arr))
      decreases arr, 0
    {
      WriteLine('*', Itoa(|arr|));
      ghost var head := out;
      var i := 0;
      while i < |arr|
        invariant 0 <= i <= |arr|
        invariant out == head + EncodeAll(arr[..i])
      {
        Write(arr[i]);
        ghost var done := arr[..i];
        EncodeAllAppend(done, arr[i]);
        Assoc(head, EncodeAll(done), Encode(arr[i]));
        assert arr[..i + 1] == done + [arr[i]];
        i := i + 1;
      }
      assert arr[..i] == arr;
      Assoc(old(out), Header('*', |arr|), EncodeAll(arr));
    }

    method Write(v: Value)
      modifies this
      ensures out == old(out) + Encode(v)
      decreases v, 1
    {
      match v {
        case SimpleString(s) => WriteLine('+', s);
        case SimpleError(s) => WriteLine('-', s);
        case Integer(n) => WriteLine(':', Itoa(n));
        case BulkString(s) =>
          WriteLine('$', Itoa(|s|));
          out := out + s + "\r\n";
        case Array(items) =>
          WriteArray(items);
        case Null => out := out + "$-1\r\n";
      }
    }
  }
}
