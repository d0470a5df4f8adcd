/**
 The snapshot file byte by byte: the widths of a length, each kind of record, one whole file written out, and which
 files are refused, and why.
 */
module RdbBytes {
  import opened Wrappers
  import opened GoText
  import opened Sequences
  import opened Containers
  import opened Keyspace
  import opened RdbCodec
  import opened RdbFile
  import opened RdbRoundTrip

  // ------------------------------------------------------------------- lengths

  /** The four bytes of a number below 2^32, the highest first. */
  lemma FourBytes(low: nat) returns (a: nat, b: nat, c: nat, d: nat)
    requires low < 0x1_0000_0000
    ensures a < 256 && b < 256 && c < 256 && d < 256
    ensures a * 0x100_0000 + b * 0x1_0000 + c * 0x100 + d == low
    ensures a == low / 0x100_0000 && b == low / 0x1_0000 % 0x100 && c == low / 0x100 % 0x100 && d == low % 0x100
    ensures low < 16384 ==> low == c * 0x100 + d && c == low / 0x100
  {
    a, b, c, d := low / 0x100_0000, low / 0x1_0000 % 0x100, low / 0x100 % 0x100, low % 0x100;
    assert low == low / 0x100 * 0x100 + d;
    assert low / 0x100 == low / 0x1_0000 * 0x100 + c;
    assert low / 0x1_0000 == a * 0x100 + b;
  }

  lemma NarrowLength(n: nat)
    ensures n < 64 ==> WriteLength(n) == [n as char]
    ensures 64 <= n < 16384 ==> WriteLength(n) == [(64 + n / 0x100) as char, (n % 0x100) as char]
  {
  }

  lemma WideLength(n: nat, a: nat, b: nat, c: nat, d: nat)
    requires n >= 16384 && a < 256 && b < 256 && c < 256 && d < 256
    requires var low := n % 0x1_0000_0000;
             a == low / 0x100_0000 && b == low / 0x1_0000 % 0x100 && c == low / 0x100 % 0x100 && d == low % 0x100
    ensures WriteLength(n) == [128 as char, a as char, b as char, c as char, d as char]
  {
  }

  /** One byte below 64, two below 16384 with a one in the top bits, else a marker and four, the highest first. */
  lemma LengthBytes(n: nat) returns (a: nat, b: nat, c: nat, d: nat)
    ensures a < 256 && b < 256 && c < 256 && d < 256
    ensures a * 0x100_0000 + b * 0x1_0000 + c * 0x100 + d == n % 0x1_0000_0000
    ensures n < 64 ==> WriteLength(n) == [n as char]
    ensures 64 <= n < 16384 ==>
              c < 64 && WriteLength(n) == [(64 + c) as char, d as char] && n == c * 256 + d
    ensures n >= 16384 ==> WriteLength(n) == [128 as char, a as char, b as char, c as char, d as char]
  {
    var low := n % 0x1_0000_0000;
    a, b, c, d := FourBytes(low);
    hide *;
    NarrowLength(n);
    if n >= 16384 {
      WideLength(n, a, b, c, d);
    } else {
      assert low == n;
    }
  }

  /** A short text is its length in one byte, and then the text. */
  lemma ShortText(s: Bytes)
    requires |s| < 64
    ensures WriteText(s) == [|s| as char] + s
  {
  }

  // ------------------------------------------------------------------- records

  /** Each kind of record starts with a byte of its own. */
  lemma RecordBytes(key: Bytes, value: Bytes, all: seq<Bytes>, i: nat, keys: nat)
    ensures i < 64 ==> WriteItem(SelectDB(i)) == [0xFE as char, i as char]
    ensures keys < 64 ==> WriteItem(Resize(keys, 0)) == [0xFB as char, keys as char, 0 as char]
    ensures WriteItem(TextRecord(key, value)) == [0 as char] + (WriteText(key) + WriteText(value))
    ensures WriteItem(ListRecord(key, all)) ==
            [1 as char] + (WriteText(key) + WriteLength(|all|) + WriteTexts(all))
    ensures WriteItem(SetRecord(key, all)) ==
            [2 as char] + (WriteText(key) + WriteLength(|all|) + WriteTexts(all))
    ensures WriteItem(HashRecord(key, all)) ==
            [4 as char] + (WriteText(key) + WriteLength(|all| / 2) + WriteTexts(all))
    ensures WriteItem(End) == [0xFF as char] + "\0\0\0\0\0\0\0\0"
  {
    hide WriteText, WriteTexts;
  }

  // ------------------------------------------------------------ one whole file

  /** A database with one string, one list, one set and one hash. */
  function OneOfEach(): DB {
    DB(map["k" := "v"], map["l" := ["a", "b"]], map["s" := {"m"}], map["h" := map["f" := "x"]], map[])
  }

  function OnlyAt(d: nat, db: DB): seq<DB>
    requires d < 16
  {
    FreshDBs(16)[d := db]
  }

  lemma AllAre<T>(order: seq<T>, x: T, elements: set<T>)
    requires elements == {x} && forall y :: y in order <==> y in elements
    ensures |order| > 0 ==> order[0] == x
    ensures |order| > 1 ==> order[1] == x
  {
    assert |order| > 0 ==> order[0] in order;
    assert |order| > 1 ==> order[1] in order;
  }

  lemma OnlyOne<T>(order: seq<T>, x: T, elements: set<T>)
    requires elements == {x} && (forall y :: y in order <==> y in elements)
    requires forall i, j :: 0 <= i < j < |order| ==> order[i] != order[j]
    ensures order == [x]
  {
    assert x in order;
    if |order| > 1 {
      AllAre(order, x, elements);
      assert false;
    }
  }

  lemma OnlyOrder(o: Order)
    requires ValidOrder(o, OneOfEach())
    ensures o.texts == ["k"] && o.lists == ["l"] && o.sets == ["s"] && o.hashes == ["h"]
    ensures "s" in o.members && o.members["s"] == ["m"] && "h" in o.fields && o.fields["h"] == ["f"]
  {
    var db := OneOfEach();
    OnlyOne(o.texts, "k", db.store.Keys);
    OnlyOne(o.lists, "l", db.lists.Keys);
    OnlyOne(o.sets, "s", db.sets.Keys);
    OnlyOne(o.hashes, "h", db.hashes.Keys);
    assert "s" in db.sets && "h" in db.hashes;
    OnlyOne(o.members["s"], "m", db.sets["s"]);
    OnlyOne(o.fields["h"], "f", db.hashes["h"].Keys);
  }

  lemma OnlyRecordsOf(o: Order)
    requires ValidOrder(o, OneOfEach())
    ensures Records(OneOfEach(), o) == [
              TextRecord("k", "v"), ListRecord("l", ["a", "b"]), SetRecord("s", ["m"]), HashRecord("h", ["f", "x"])]
  {
    OnlyOrder(o);
    OrderCovers(o, OneOfEach());
    FirstParts(OneOfEach(), o);
    LastParts(OneOfEach(), o);
    hide TextItems, ListItems, SetItems, HashItems, ValidOrder, OneOfEach, AllPairs, AllIn;
  }

  lemma FirstParts(db: DB, o: Order)
    requires db == OneOfEach() && o.texts == ["k"] && o.lists == ["l"]
    requires AllIn(o.texts, db.store) && AllIn(o.lists, db.lists)
    ensures TextItems(o.texts, db) == [TextRecord("k", "v")]
    ensures ListItems(o.lists, db) == [ListRecord("l", ["a", "b"])]
  {
    assert o.texts[1..] == [] && o.lists[1..] == [];
  }

  lemma LastParts(db: DB, o: Order)
    requires db == OneOfEach() && o.sets == ["s"] && o.hashes == ["h"] && ValidOrder(o, db)
    requires "s" in o.members && o.members["s"] == ["m"] && "h" in o.fields && o.fields["h"] == ["f"]
    requires AllIn(o.sets, o.members) && AllIn(o.hashes, AllPairs(db, o))
    ensures SetItems(o.sets, o.members) == [SetRecord("s", ["m"])]
    ensures HashItems(o.hashes, AllPairs(db, o)) == [HashRecord("h", ["f", "x"])]
  {
    assert o.sets[1..] == [] && o.hashes[1..] == [];
    var names, fields := o.fields["h"], db.hashes["h"];
    assert names[1..] == [];
    assert FieldPairs(names[1..], fields) == [];
    assert FieldPairs(names, fields) == ["f", "x"];
    assert AllPairs(db, o)["h"] == ["f", "x"];
  }

  /** Only one database has anything to write. */
  lemma {:induction false} OneChunk(chunks: seq<seq<Item>>, d: nat)
    requires forall i :: 0 <= i < |chunks| && i != d ==> chunks[i] == []
    ensures Flatten(chunks) == if d < |chunks| then chunks[d] else []
  {
    if chunks != [] {
      OneChunk(chunks[..|chunks| - 1], d);
    }
  }

  lemma EmptyItems(i: nat, o: Order)
    requires ValidOrder(o, EMPTY_DB)
    ensures DatabaseItems(i, EMPTY_DB, o) == []
  {
    assert TotalKeys(EMPTY_DB) == 0;
    hide ValidOrder, Records;
  }

  lemma FullItems(d: nat, o: Order)
    requires ValidOrder(o, OneOfEach())
    ensures DatabaseItems(d, OneOfEach(), o) == [
              SelectDB(d), Resize(4, 0), TextRecord("k", "v"), ListRecord("l", ["a", "b"]), SetRecord("s", ["m"]),
              HashRecord("h", ["f", "x"])]
  {
    assert TotalKeys(OneOfEach()) == 4;
    OnlyRecordsOf(o);
    hide ValidOrder, Records, OneOfEach, TotalKeys;
  }

  lemma OnlyItems(d: nat, orders: seq<Order>)
    requires d < 16 && ValidOrders(orders, OnlyAt(d, OneOfEach()))
    ensures SavedItems(OnlyAt(d, OneOfEach()), orders) == [
              SelectDB(d), Resize(4, 0), TextRecord("k", "v"), ListRecord("l", ["a", "b"]), SetRecord("s", ["m"]),
              HashRecord("h", ["f", "x"])]
  {
    hide ValidOrder, DatabaseItems, Flatten, OneOfEach;
    var dbs := OnlyAt(d, OneOfEach());
    var chunks := Chunks(dbs, orders);
    forall i | 0 <= i < |chunks| && i != d
      ensures chunks[i] == []
    {
      assert dbs[i] == EMPTY_DB;
      EmptyItems(i, orders[i]);
    }
    OneChunk(chunks, d);
    assert dbs[d] == OneOfEach();
    FullItems(d, orders[d]);
  }

  lemma ItemBytes(d: nat)
    requires d < 16
    ensures WriteItem(SelectDB(d)) == "\U{FE}" + [d as char] && WriteItem(Resize(4, 0)) == "\U{FB}\U{4}\0"
    ensures WriteItem(TextRecord("k", "v")) == "\0\U{1}k\U{1}v"
    ensures WriteItem(End) == "\U{FF}\0\0\0\0\0\0\0\0"
  {
    ShortText("k");
    ShortText("v");
    hide WriteText, WriteTexts;
  }

  lemma TwoTexts(a: Bytes, b: Bytes)
    ensures WriteTexts([a]) == WriteText(a) && WriteTexts([a, b]) == WriteText(a) + WriteText(b)
  {
    assert [a, b][1..] == [b] && [b][1..] == [] && [a][1..] == [];
    assert WriteTexts([b]) == WriteText(b) + "" && WriteTexts([a]) == WriteText(a) + "";
    hide WriteText;
  }

  lemma GroupBytes()
    ensures WriteItem(ListRecord("l", ["a", "b"])) == "\U{1}\U{1}l\U{2}\U{1}a\U{1}b"
    ensures WriteItem(SetRecord("s", ["m"])) == "\U{2}\U{1}s\U{1}\U{1}m"
    ensures WriteItem(HashRecord("h", ["f", "x"])) == "\U{4}\U{1}h\U{1}\U{1}f\U{1}x"
  {
    OneLetters();
    TwoTexts("a", "b");
    TwoTexts("m", "m");
    TwoTexts("f", "x");
    hide WriteText, WriteTexts;
  }

  lemma OneLetters()
    ensures WriteText("l") == "\U{1}l" && WriteText("a") == "\U{1}a" && WriteText("b") == "\U{1}b"
    ensures WriteText("s") == "\U{1}s" && WriteText("m") == "\U{1}m" && WriteText("h") == "\U{1}h"
    ensures WriteText("f") == "\U{1}f" && WriteText("x") == "\U{1}x"
  {
  }

  lemma WriteThree(a: Item, b: Item, c: Item)
    ensures WriteItems([a, b, c]) == WriteItem(a) + WriteItem(b) + WriteItem(c) && WriteItems([c]) == WriteItem(c)
  {
    hide WriteItem;
    assert [a, b, c][1..] == [b, c] && [b, c][1..] == [c] && [c][1..] == [];
    assert WriteItems([c]) == WriteItem(c) + "";
    assert WriteItems([b, c]) == WriteItem(b) + WriteItem(c);
  }

  lemma WriteSeven(a: Item, b: Item, c: Item, d: Item, e: Item, f: Item, g: Item)
    ensures WriteItems([a, b, c, d, e, f] + [g]) ==
            WriteItem(a) + WriteItem(b) + WriteItem(c) + (WriteItem(d) + WriteItem(e) + WriteItem(f)) + WriteItem(g)
  {
    assert [a, b, c, d, e, f] == [a, b, c] + [d, e, f];
    hide *;
    WriteThree(a, b, c);
    WriteThree(d, e, f);
    WriteThree(a, b, g);
    WriteItemsConcat([a, b, c], [d, e, f]);
    WriteItemsConcat([a, b, c, d, e, f], [g]);
  }

  /** The one file for a server with one of each kind in one database. */
  lemma WholeFile(d: nat, orders: seq<Order>)
    requires d < 16 && ValidOrders(orders, OnlyAt(d, OneOfEach()))
    ensures SavedFile(OnlyAt(d, OneOfEach()), orders) ==
            "DATABASE0009"
            + ("\U{FE}" + [d as char] + "\U{FB}\U{4}\0" + "\0\U{1}k\U{1}v"
               + ("\U{1}\U{1}l\U{2}\U{1}a\U{1}b" + "\U{2}\U{1}s\U{1}\U{1}m"
                  + "\U{4}\U{1}h\U{1}\U{1}f\U{1}x")
               + "\U{FF}\0\0\0\0\0\0\0\0")
  {
    OnlyItems(d, orders);
    ItemBytes(d);
    GroupBytes();
    WriteSeven(SelectDB(d), Resize(4, 0), TextRecord("k", "v"), ListRecord("l", ["a", "b"]), SetRecord("s", ["m"]),
               HashRecord("h", ["f", "x"]), End);
    hide SavedItems, WriteItems, WriteItem, OnlyAt, OneOfEach, ValidOrders;
  }

  // -------------------------------------------------------------- refused files

  /** Twelve bytes are asked for, of which the first eight have to be right and the other four may be any. */
  lemma Headers(version: Bytes, rest: Bytes, s: Bytes, dbs: seq<DB>, now: int)
    requires |version| == 4
    ensures |s| < 12 ==> LoadFile(s, dbs, now) == Loaded(dbs, Some(CutShort))
    ensures |s| >= 12 && s[..8] != "DATABASE" ==> LoadFile(s, dbs, now) == Loaded(dbs, Some(BadHeader))
    ensures LoadFile("DATABASE" + version + rest, dbs, now) == LoadFrom(rest, Loading(0, dbs), now)
  {
    assert HEADER[..8] == "DATABASE";
    var file := "DATABASE" + version + rest;
    assert file[..8] == "DATABASE" && file[12..] == rest;
    hide LoadFrom;
  }

  /**
   After any records: a byte that starts no record and an index without a database end the load with an error,
   and the end marker ends it well whatever comes behind.
   */
  lemma Endings(op: char, i: nat, rest: Bytes, l: Loading, now: int)
    requires i < 64
    ensures op as int !in {0, 1, 2, 4, 0xFB, 0xFE, 0xFF} ==>
              LoadFrom([op] + rest, l, now) == Loaded(l.dbs, Some(BadOpcode))
    ensures i >= |l.dbs| ==> LoadFrom([0xFE as char, i as char] + rest, l, now) == Loaded(l.dbs, Some(BadIndex))
    ensures LoadFrom("\U{FF}\0\0\0\0\0\0\0\0" + rest, l, now) == Loaded(l.dbs, None)
    ensures LoadFrom("", l, now) == Loaded(l.dbs, Some(CutShort))
  {
    var odd, select, end := [op] + rest, [0xFE as char, i as char] + rest, "\U{FF}\0\0\0\0\0\0\0\0" + rest;
    assert odd[1..] == rest;
    SelectReads(i, rest);
    assert end[1..] == "\0\0\0\0\0\0\0\0" + rest;
    hide ReadLength, ReadGroup, ReadPair, ReadResize, ApplyItem;
  }

  lemma SelectReads(i: nat, rest: Bytes)
    requires i < 64
    ensures NextItem([0xFE as char, i as char] + rest) == Got(SelectDB(i), rest)
  {
    var s := [0xFE as char, i as char] + rest;
    assert s[1..][0] == i as char && s[1..][1..] == rest;
  }

  lemma TwoRecords(a: Item, b: Item, now: int)
    ensures ApplyAll(EMPTY_DB, [a, b], now) == ApplyRecord(ApplyRecord(EMPTY_DB, a, now), b, now)
  {
    hide ApplyRecord;
    var first := ApplyRecord(EMPTY_DB, a, now);
    var second := ApplyRecord(first, b, now);
    assert [a, b][1..] == [b] && [b][1..] == [];
    assert ApplyAll(second, [], now) == second;
    assert ApplyAll(first, [b], now) == second;
  }

  lemma NothingDue(db: DB, k: Bytes, now: int)
    requires db.expires == map[]
    ensures EvictKey(db, k, now) == db
  {
    SelfWith(db, k);
  }

  lemma TwoContainers(k: Bytes, a: seq<Bytes>, b: seq<Bytes>, now: int)
    ensures ApplyRecord(EMPTY_DB.(lists := map[k := a]), ListRecord(k, b), now) == EMPTY_DB.(lists := map[k := a + b])
    ensures ApplyRecord(EMPTY_DB.(sets := map[k := Elements(a)]), SetRecord(k, b), now) ==
            EMPTY_DB.(sets := map[k := Elements(a) + Elements(b)])
    ensures ApplyRecord(EMPTY_DB.(hashes := map[k := Pairs(a)]), HashRecord(k, b), now) ==
            EMPTY_DB.(hashes := map[k := Pairs(a) + Pairs(b)])
  {
    NothingDue(EMPTY_DB.(lists := map[k := a]), k, now);
    NothingDue(EMPTY_DB.(sets := map[k := Elements(a)]), k, now);
    NothingDue(EMPTY_DB.(hashes := map[k := Pairs(a)]), k, now);
    hide EvictKey, Elements, Pairs;
  }

  lemma OneContainer(k: Bytes, a: seq<Bytes>, now: int)
    ensures ApplyRecord(EMPTY_DB, ListRecord(k, a), now) == EMPTY_DB.(lists := map[k := a])
    ensures ApplyRecord(EMPTY_DB, SetRecord(k, a), now) == EMPTY_DB.(sets := map[k := Elements(a)])
    ensures ApplyRecord(EMPTY_DB, HashRecord(k, a), now) == EMPTY_DB.(hashes := map[k := Pairs(a)])
  {
    NothingDue(EMPTY_DB, k, now);
    hide EvictKey, Elements, Pairs;
    assert [] + a == a;
    var none: set<Bytes>, empty: map<Bytes, Bytes> := {}, map[];
    assert none + Elements(a) == Elements(a) && empty + Pairs(a) == Pairs(a);
  }

  /** Two records under one key: lists are joined, sets united, fields and strings overridden by the later one. */
  lemma RepeatedRecords(k: Bytes, a: seq<Bytes>, b: seq<Bytes>, x: Bytes, y: Bytes, now: int)
    ensures ApplyAll(EMPTY_DB, [ListRecord(k, a), ListRecord(k, b)], now) == EMPTY_DB.(lists := map[k := a + b])
    ensures ApplyAll(EMPTY_DB, [SetRecord(k, a), SetRecord(k, b)], now) ==
            EMPTY_DB.(sets := map[k := Elements(a) + Elements(b)])
    ensures ApplyAll(EMPTY_DB, [HashRecord(k, a), HashRecord(k, b)], now) ==
            EMPTY_DB.(hashes := map[k := Pairs(a) + Pairs(b)])
    ensures ApplyAll(EMPTY_DB, [TextRecord(k, x), TextRecord(k, y)], now) == EMPTY_DB.(store := map[k := y])
  {
    TwoStrings(k, x, y, now);
    hide *;
    TwoRecords(ListRecord(k, a), ListRecord(k, b), now);
    TwoRecords(SetRecord(k, a), SetRecord(k, b), now);
    TwoRecords(HashRecord(k, a), HashRecord(k, b), now);
    TwoRecords(TextRecord(k, x), TextRecord(k, y), now);
    OneContainer(k, a, now);
    TwoContainers(k, a, b, now);
  }

  lemma TwoStrings(k: Bytes, x: Bytes, y: Bytes, now: int)
    ensures ApplyRecord(ApplyRecord(EMPTY_DB, TextRecord(k, x), now), TextRecord(k, y), now) ==
            EMPTY_DB.(store := map[k := y])
  {
  }
}
