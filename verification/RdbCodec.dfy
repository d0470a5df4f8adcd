/**
 The snapshot format, item by item: variable-width lengths, length-prefixed strings, and one record per
 stored value behind an opcode byte.
 */
module RdbCodec {
  import opened Wrappers
  import opened GoText
  import opened Sequences

  const TWO32 := 0x1_0000_0000

  const OP_SELECT_DB := 0xFE
  const OP_EOF := 0xFF
  const OP_RESIZE_DB := 0xFB
  const TYPE_STRING := 0
  const TYPE_LIST := 1
  const TYPE_SET := 2
  const TYPE_HASH := 4

  /** What `Load` gives up on; `CutShort` is every way of running out of bytes. */
  datatype LoadError = CutShort | BadHeader | BadOpcode | BadIndex

  datatype Item =
    | SelectDB(db: nat)
    | Resize(keys: nat, expires: nat)
    | TextRecord(key: Bytes, value: Bytes)
    | ListRecord(key: Bytes, items: seq<Bytes>)
    | SetRecord(key: Bytes, members: seq<Bytes>)
    | HashRecord(key: Bytes, pairs: seq<Bytes>)
    | End

  // ------------------------------------------------------------------ lengths

  function Byte(n: nat): char
    requires n < 256
  {
    n as char
  }

  /** A 32-bit number, most significant byte first; larger numbers lose their upper bits. */
  function U32(n: nat): Bytes {
    var a := n % TWO32;
    [Byte(a / 0x100_0000), Byte(a / 0x1_0000 % 0x100), Byte(a / 0x100 % 0x100), Byte(a % 0x100)]
  }

  function FromU32(s: Bytes): nat
    requires |s| >= 4
  {
    (((s[0] as int) * 0x100 + (s[1] as int)) * 0x100 + (s[2] as int)) * 0x100 + (s[3] as int)
  }

  function WriteLength(n: nat): (b: Bytes)
    ensures b != ""
  {
    if n < 64 then [Byte(n)]
    else if n < 16384 then [Byte(n / 0x100 + 0x40), Byte(n % 0x100)]
    else [Byte(0x80)] + U32(n)
  }

  datatype Length = Length(n: nat, rest: Bytes) | NoLength
  datatype Text = Text(s: Bytes, rest: Bytes) | NoText
  datatype Texts = Texts(all: seq<Bytes>, rest: Bytes) | NoTexts

  /** The two top bits of the first byte say how wide the length is. */
  function ReadLength(s: Bytes): (r: Length)
    ensures r.Length? ==> |r.rest| < |s|
  {
    if s == "" then NoLength
    else
      var b := s[0] as int;
      if b < 64 then Length(b, s[1..])
      else if b < 128 then
        if |s| < 2 then NoLength else Length((b - 64) * 0x100 + (s[1] as int), s[2..])
      else
        if |s| < 5 then NoLength else Length(FromU32(s[1..]), s[5..])
  }

  lemma U32RoundTrip(n: nat, rest: Bytes)
    ensures FromU32(U32(n) + rest) == n % TWO32
  {
    var a := n % TWO32;
    assert a == a / 0x100 * 0x100 + a % 0x100;
    assert a / 0x100 == a / 0x1_0000 * 0x100 + a / 0x100 % 0x100;
    assert a / 0x1_0000 == a / 0x100_0000 * 0x100 + a / 0x1_0000 % 0x100;
  }

  lemma WideLengthRoundTrip(n: nat, rest: Bytes)
    requires n >= 16384
    ensures ReadLength(WriteLength(n) + rest) == Length(n % TWO32, rest)
  {
    var s := WriteLength(n) + rest;
    assert s[1..] == U32(n) + rest;
    assert s[5..] == rest;
    U32RoundTrip(n, rest);
  }

  /** A written length reads back exactly when it is below 2^32; above, only its low 32 bits survive. */
  lemma LengthRoundTrip(n: nat, rest: Bytes)
    ensures ReadLength(WriteLength(n) + rest) == Length(n % TWO32, rest)
    ensures ReadLength(WriteLength(n) + rest) == Length(n, rest) <==> n < TWO32
  {
    var s := WriteLength(n) + rest;
    if n < 64 {
      assert s[1..] == rest;
    } else if n < 16384 {
      assert s[2..] == rest;
    } else {
      WideLengthRoundTrip(n, rest);
    }
  }

  lemma LengthStable(s: Bytes, tail: Bytes)
    ensures ReadLength(s).Length? ==> ReadLength(s + tail) == Length(ReadLength(s).n, ReadLength(s).rest + tail)
  {
    if ReadLength(s).Length? {
      assert (s + tail)[1..] == s[1..] + tail;
      if |s| >= 2 {
        assert (s + tail)[2..] == s[2..] + tail;
      }
      if |s| >= 5 {
        assert (s + tail)[5..] == s[5..] + tail;
      }
    }
  }

  // ------------------------------------------------------------------ strings

  function WriteText(s: Bytes): (b: Bytes)
    ensures b != ""
  {
    WriteLength(|s|) + s
  }

  function ReadText(s: Bytes): (r: Text)
    ensures r.Text? ==> |r.rest| < |s|
  {
    match ReadLength(s)
    case NoLength => NoText
    case Length(n, rest) => if |rest| < n then NoText else Text(rest[..n], rest[n..])
  }

  lemma TextRoundTrip(s: Bytes, rest: Bytes)
    requires |s| < TWO32
    ensures ReadText(WriteText(s) + rest) == Text(s, rest)
  {
    Assoc(WriteLength(|s|), s, rest);
    LengthRoundTrip(|s|, s + rest);
    assert (s + rest)[..|s|] == s && (s + rest)[|s|..] == rest;
  }

  lemma TextStable(s: Bytes, tail: Bytes)
    ensures ReadText(s).Text? ==> ReadText(s + tail) == Text(ReadText(s).s, ReadText(s).rest + tail)
  {
    if ReadText(s).Text? {
      LengthStable(s, tail);
      CutAppended(ReadLength(s).rest, tail, ReadLength(s).n);
    }
  }

  function WriteTexts(all: seq<Bytes>): Bytes {
    if all == [] then "" else WriteText(all[0]) + WriteTexts(all[1..])
  }

  function ReadTexts(n: nat, s: Bytes): (r: Texts)
    ensures r.Texts? ==> |r.rest| <= |s| && |r.all| == n
  {
    if n == 0 then Texts([], s)
    else
      match ReadText(s)
      case NoText => NoTexts
      case Text(t, rest) => More(t, ReadTexts(n - 1, rest))
  }

  function More(t: Bytes, r: Texts): Texts {
    match r
    case NoTexts => NoTexts
    case Texts(all, rest) => Texts([t] + all, rest)
  }

  predicate Short(s: Bytes) {
    |s| < TWO32
  }

  ghost predicate AllShort(all: seq<Bytes>) {
    |all| < TWO32 && forall i :: 0 <= i < |all| ==> Short(all[i])
  }

  lemma {:induction false} TextsRoundTrip(all: seq<Bytes>, rest: Bytes)
    requires forall i :: 0 <= i < |all| ==> Short(all[i])
    ensures ReadTexts(|all|, WriteTexts(all) + rest) == Texts(all, rest)
  {
    if all == [] {
      assert WriteTexts(all) + rest == rest;
    } else {
      var tail := WriteTexts(all[1..]) + rest;
      Assoc(WriteText(all[0]), WriteTexts(all[1..]), rest);
      assert Short(all[0]);
      TextRoundTrip(all[0], tail);
      TextsRoundTrip(all[1..], rest);
    }
  }

  lemma {:induction false} TextsStable(n: nat, s: Bytes, tail: Bytes)
    ensures ReadTexts(n, s).Texts? ==>
              ReadTexts(n, s + tail) == Texts(ReadTexts(n, s).all, ReadTexts(n, s).rest + tail)
  {
    if n > 0 && ReadTexts(n, s).Texts? {
      TextStable(s, tail);
      TextsStable(n - 1, ReadText(s).rest, tail);
    }
  }

  // -------------------------------------------------------------------- items

  /** A record of several strings under a key: its count, then the strings. Pairs count as one. */
  function WriteGroup(key: Bytes, count: nat, all: seq<Bytes>): Bytes {
    WriteText(key) + WriteLength(count) + WriteTexts(all)
  }

  function WriteBody(it: Item): Bytes {
    match it
    case SelectDB(db) => WriteLength(db)
    case Resize(keys, expires) => WriteLength(keys) + WriteLength(expires)
    case TextRecord(key, value) => WriteText(key) + WriteText(value)
    case ListRecord(key, items) => WriteGroup(key, |items|, items)
    case SetRecord(key, members) => WriteGroup(key, |members|, members)
    case HashRecord(key, pairs) => WriteGroup(key, |pairs| / 2, pairs)
    case End => "\0\0\0\0\0\0\0\0"
  }

  function Opcode(it: Item): nat {
    match it
    case SelectDB(_) => OP_SELECT_DB
    case Resize(_, _) => OP_RESIZE_DB
    case TextRecord(_, _) => TYPE_STRING
    case ListRecord(_, _) => TYPE_LIST
    case SetRecord(_, _) => TYPE_SET
    case HashRecord(_, _) => TYPE_HASH
    case End => OP_EOF
  }

  function WriteItem(it: Item): (b: Bytes)
    ensures b != ""
  {
    [Byte(Opcode(it))] + WriteBody(it)
  }

  datatype ReadItem = Got(item: Item, rest: Bytes) | Gone(error: LoadError)
  datatype Group = Group(key: Bytes, all: seq<Bytes>, rest: Bytes) | NoGroup

  /** An element is one string in a list or set, and two in a hash. */
  function Strings(count: nat, paired: bool): nat {
    if paired then 2 * count else count
  }

  function ReadGroup(s: Bytes, paired: bool): (r: Group)
    ensures r.Group? ==> |r.rest| < |s|
  {
    match ReadText(s)
    case NoText => NoGroup
    case Text(key, rest) =>
      match ReadLength(rest)
      case NoLength => NoGroup
      case Length(n, rest') =>
        match ReadTexts(Strings(n, paired), rest')
        case NoTexts => NoGroup
        case Texts(all, rest'') => Group(key, all, rest'')
  }

  function ReadSelect(s: Bytes): ReadItem {
    match ReadLength(s)
    case NoLength => Gone(CutShort)
    case Length(n, rest) => Got(SelectDB(n), rest)
  }

  function ReadResize(s: Bytes): ReadItem {
    match ReadLength(s)
    case NoLength => Gone(CutShort)
    case Length(keys, rest) =>
      match ReadLength(rest)
      case NoLength => Gone(CutShort)
      case Length(expires, rest') => Got(Resize(keys, expires), rest')
  }

  function ReadPair(s: Bytes): ReadItem {
    match ReadText(s)
    case NoText => Gone(CutShort)
    case Text(key, rest) =>
      match ReadText(rest)
      case NoText => Gone(CutShort)
      case Text(value, rest') => Got(TextRecord(key, value), rest')
  }

  function ReadEnd(s: Bytes): ReadItem {
    if |s| < 8 then Gone(CutShort) else Got(End, s[8..])
  }

  function AsList(g: Group): ReadItem {
    match g case NoGroup => Gone(CutShort) case Group(key, all, rest) => Got(ListRecord(key, all), rest)
  }

  function AsSet(g: Group): ReadItem {
    match g case NoGroup => Gone(CutShort) case Group(key, all, rest) => Got(SetRecord(key, all), rest)
  }

  function AsHash(g: Group): ReadItem {
    match g case NoGroup => Gone(CutShort) case Group(key, all, rest) => Got(HashRecord(key, all), rest)
  }

  function ReadBody(op: int, body: Bytes): (r: ReadItem)
    ensures r.Got? ==> |r.rest| <= |body|
  {
    if op == OP_EOF then ReadEnd(body)
    else if op == OP_SELECT_DB then ReadSelect(body)
    else if op == OP_RESIZE_DB then ReadResize(body)
    else if op == TYPE_STRING then ReadPair(body)
    else if op == TYPE_LIST then AsList(ReadGroup(body, false))
    else if op == TYPE_SET then AsSet(ReadGroup(body, false))
    else if op == TYPE_HASH then AsHash(ReadGroup(body, true))
    else Gone(BadOpcode)
  }

  /** One turn of `Load`'s loop, up to the point where it touches a database. */
  function NextItem(s: Bytes): (r: ReadItem)
    ensures r.Got? ==> |r.rest| < |s|
  {
    if s == "" then Gone(CutShort) else ReadBody(s[0] as int, s[1..])
  }

  /** Strings and element counts that fit the 32-bit length field. */
  ghost predicate Storable(it: Item) {
    match it
    case SelectDB(db) => db < TWO32
    case Resize(_, _) => true
    case TextRecord(key, value) => Short(key) && Short(value)
    case ListRecord(key, items) => Short(key) && AllShort(items)
    case SetRecord(key, members) => Short(key) && AllShort(members)
    case HashRecord(key, pairs) =>
      Short(key) && |pairs| % 2 == 0 && |pairs| / 2 < TWO32 && forall i :: 0 <= i < |pairs| ==> Short(pairs[i])
    case End => true
  }

  /** Equal, but for the resize hint, whose numbers may wrap and are only logged. */
  predicate SameItem(a: Item, b: Item) {
    a == b || (a.Resize? && b.Resize?)
  }

  lemma GroupRoundTrip(key: Bytes, count: nat, all: seq<Bytes>, paired: bool, rest: Bytes)
    requires Short(key) && count < TWO32 && |all| == Strings(count, paired)
    requires forall i :: 0 <= i < |all| ==> Short(all[i])
    ensures ReadGroup(WriteGroup(key, count, all) + rest, paired) == Group(key, all, rest)
  {
    var k, n, t := WriteText(key), WriteLength(count), WriteTexts(all);
    assert WriteGroup(key, count, all) + rest == k + (n + (t + rest)) by {
      Assoc(k + n, t, rest);
      Assoc(k, n, t + rest);
    }
    TextRoundTrip(key, n + (t + rest));
    LengthRoundTrip(count, t + rest);
    TextsRoundTrip(all, rest);
  }

  predicate ReadsAs(r: ReadItem, it: Item, rest: Bytes) {
    r.Got? && SameItem(r.item, it) && r.rest == rest
  }

  lemma FlatRoundTrip(it: Item, rest: Bytes)
    requires Storable(it) && (it.SelectDB? || it.Resize? || it.TextRecord? || it.End?)
    ensures ReadsAs(ReadBody(Opcode(it), WriteBody(it) + rest), it, rest)
  {
    match it {
      case SelectDB(db) => LengthRoundTrip(db, rest);
      case Resize(keys, expires) =>
        Assoc(WriteLength(keys), WriteLength(expires), rest);
        LengthRoundTrip(keys, WriteLength(expires) + rest);
        LengthRoundTrip(expires, rest);
      case TextRecord(key, value) =>
        Assoc(WriteText(key), WriteText(value), rest);
        TextRoundTrip(key, WriteText(value) + rest);
        TextRoundTrip(value, rest);
      case End =>
        assert (WriteBody(End) + rest)[8..] == rest;
    }
  }

  lemma SimpleGroupRoundTrip(it: Item, key: Bytes, all: seq<Bytes>, rest: Bytes)
    requires Storable(it) && (it == ListRecord(key, all) || it == SetRecord(key, all))
    ensures ReadsAs(ReadBody(Opcode(it), WriteBody(it) + rest), it, rest)
  {
    GroupRoundTrip(key, |all|, all, false, rest);
  }

  lemma HashRoundTrip(key: Bytes, pairs: seq<Bytes>, rest: Bytes)
    requires Storable(HashRecord(key, pairs))
    ensures ReadsAs(ReadBody(TYPE_HASH, WriteBody(HashRecord(key, pairs)) + rest), HashRecord(key, pairs), rest)
  {
    hide ReadGroup, WriteGroup;
    GroupRoundTrip(key, |pairs| / 2, pairs, true, rest);
  }

  lemma BodyRoundTrip(it: Item, rest: Bytes)
    requires Storable(it)
    ensures ReadsAs(ReadBody(Opcode(it), WriteBody(it) + rest), it, rest)
  {
    match it {
      case ListRecord(key, items) => SimpleGroupRoundTrip(it, key, items, rest);
      case SetRecord(key, members) => SimpleGroupRoundTrip(it, key, members, rest);
      case HashRecord(key, pairs) => HashRoundTrip(key, pairs, rest);
      case _ => FlatRoundTrip(it, rest);
    }
  }

  lemma OpcodeFirst(op: nat, body: Bytes)
    requires op < 256
    ensures NextItem([Byte(op)] + body) == ReadBody(op, body)
  {
    assert ([Byte(op)] + body)[1..] == body;
  }

  /** Reading one written item, followed by anything, gives the item back and leaves what follows. */
  lemma ItemRoundTrip(it: Item, rest: Bytes)
    requires Storable(it)
    ensures ReadsAs(NextItem(WriteItem(it) + rest), it, rest)
  {
    BodyRoundTrip(it, rest);
    Assoc([Byte(Opcode(it))], WriteBody(it), rest);
    OpcodeFirst(Opcode(it), WriteBody(it) + rest);
  }

  predicate ItemStableUnder(r: ReadItem, extended: ReadItem, tail: Bytes) {
    match r
    case Got(it, rest) => extended == Got(it, rest + tail)
    case Gone(e) => e == CutShort || extended == r
  }

  lemma GroupStable(s: Bytes, paired: bool, tail: Bytes)
    ensures var g := ReadGroup(s, paired);
            g.Group? ==> ReadGroup(s + tail, paired) == Group(g.key, g.all, g.rest + tail)
  {
    if ReadGroup(s, paired).Group? {
      TextStable(s, tail);
      var t := ReadText(s);
      LengthStable(t.rest, tail);
      var n := ReadLength(t.rest);
      TextsStable(Strings(n.n, paired), n.rest, tail);
    }
  }

  lemma ResizeStable(s: Bytes, tail: Bytes)
    ensures ItemStableUnder(ReadResize(s), ReadResize(s + tail), tail)
  {
    LengthStable(s, tail);
    if ReadLength(s).Length? {
      LengthStable(ReadLength(s).rest, tail);
    }
  }

  lemma PairStable(s: Bytes, tail: Bytes)
    ensures ItemStableUnder(ReadPair(s), ReadPair(s + tail), tail)
  {
    TextStable(s, tail);
    if ReadText(s).Text? {
      TextStable(ReadText(s).rest, tail);
    }
  }

  lemma EndStable(s: Bytes, tail: Bytes)
    ensures ItemStableUnder(ReadEnd(s), ReadEnd(s + tail), tail)
  {
    if |s| >= 8 {
      CutAppended(s, tail, 8);
    }
  }

  lemma BodyStable(op: int, body: Bytes, tail: Bytes)
    ensures ItemStableUnder(ReadBody(op, body), ReadBody(op, body + tail), tail)
  {
    if op == OP_EOF {
      EndStable(body, tail);
    } else if op == OP_SELECT_DB {
      LengthStable(body, tail);
    } else if op == OP_RESIZE_DB {
      ResizeStable(body, tail);
    } else if op == TYPE_STRING {
      PairStable(body, tail);
    } else {
      GroupStable(body, op == TYPE_HASH, tail);
    }
  }

  /** A verdict other than running out of bytes never changes when more bytes arrive. */
  lemma ItemStable(s: Bytes, tail: Bytes)
    ensures ItemStableUnder(NextItem(s), NextItem(s + tail), tail)
  {
    hide ReadBody;
    if s != "" {
      assert (s + tail)[1..] == s[1..] + tail;
      BodyStable(s[0] as int, s[1..], tail);
    }
  }

  lemma StillSomething(tail: Bytes)
    requires tail != ""
    ensures forall rest: Bytes :: rest + tail != ""
  {
    forall rest: Bytes
      ensures rest + tail != ""
    {
      assert |rest + tail| > 0;
    }
  }

  lemma CutStops(whole: Bytes, it: Item, n: nat)
    requires ReadsAs(NextItem(whole), it, "") && n < |whole|
    ensures NextItem(whole[..n]) == Gone(CutShort)
  {
    var cut, tail := whole[..n], whole[n..];
    assert cut + tail == whole;
    StillSomething(tail);
    ItemStable(cut, tail);
  }

  /** No proper prefix of a written item reads as anything but a cut file. */
  lemma ItemPrefixStops(it: Item, n: nat)
    requires Storable(it) && n < |WriteItem(it)|
    ensures NextItem(WriteItem(it)[..n]) == Gone(CutShort)
  {
    ItemRoundTrip(it, "");
    assert WriteItem(it) + "" == WriteItem(it);
    CutStops(WriteItem(it), it, n);
  }
}
