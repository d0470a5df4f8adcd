/**
 Whole snapshot files: what `Save` writes for sixteen databases in some map iteration order, and what `Load`
 makes of a file, whole or cut short.
 */
module RdbFile {
  import opened Wrappers
  import opened GoText
  import opened Sequences
  import opened Containers
  import opened Keyspace
  import opened Effects
  import opened RdbCodec

  const HEADER := "DATABASE0009"

  // -------------------------------------------------------------------- loading

  /** What one record does to the database it is loaded into. */
  function ApplyRecord(db: DB, it: Item, now: int): DB {
    match it
    case TextRecord(key, value) => db.(store := db.store[key := value])
    case ListRecord(key, items) =>
      var d := EvictKey(db, key, now);
      d.(lists := d.lists[key := Find(d.lists, key).GetOr([]) + items])
    case SetRecord(key, members) =>
      var d := EvictKey(db, key, now);
      d.(sets := d.sets[key := Find(d.sets, key).GetOr({}) + Elements(members)])
    case HashRecord(key, pairs) =>
      var d := EvictKey(db, key, now);
      d.(hashes := d.hashes[key := Find(d.hashes, key).GetOr(map[]) + Pairs(pairs)])
    case _ => db
  }

  function ApplyAll(db: DB, items: seq<Item>, now: int): DB
    decreases items
  {
    if items == [] then db else ApplyAll(ApplyRecord(db, items[0], now), items[1..], now)
  }

  datatype Loading = Loading(current: nat, dbs: seq<DB>)
  datatype Loaded = Loaded(dbs: seq<DB>, error: Option<LoadError>)

  function ApplyItem(l: Loading, it: Item, now: int): (r: Loading)
    ensures |r.dbs| == |l.dbs|
    ensures l.current < |l.dbs| && Acceptable(it, |l.dbs|) ==> r.current < |r.dbs|
  {
    if it.SelectDB? then l.(current := it.db)
    else if l.current < |l.dbs| then l.(dbs := l.dbs[l.current := ApplyRecord(l.dbs[l.current], it, now)])
    else l
  }

  function ApplyItems(l: Loading, items: seq<Item>, now: int): (r: Loading)
    ensures |r.dbs| == |l.dbs|
    decreases items
  {
    if items == [] then l else ApplyItems(ApplyItem(l, items[0], now), items[1..], now)
  }

  /** `Load` after the header. Records already applied stay applied when an error ends the load. */
  function LoadFrom(s: Bytes, l: Loading, now: int): (r: Loaded)
    ensures |r.dbs| == |l.dbs|
    decreases |s|
  {
    match NextItem(s)
    case Gone(e) => Loaded(l.dbs, Some(e))
    case Got(it, rest) =>
      if it.End? then Loaded(l.dbs, None)
      else if it.SelectDB? && it.db >= |l.dbs| then Loaded(l.dbs, Some(BadIndex))
      else LoadFrom(rest, ApplyItem(l, it, now), now)
  }

  /** `Load`: twelve header bytes, of which the first eight are checked, then items until the end marker. */
  function LoadFile(s: Bytes, dbs: seq<DB>, now: int): (r: Loaded)
    ensures |r.dbs| == |dbs|
  {
    if |s| < |HEADER| then Loaded(dbs, Some(CutShort))
    else if s[..8] != HEADER[..8] then Loaded(dbs, Some(BadHeader))
    else LoadFrom(s[|HEADER|..], Loading(0, dbs), now)
  }

  // --------------------------------------------------------------------- saving

  /** The orders in which map iteration yields keys, members and fields during one save of a database. */
  datatype Order = Order(
    texts: seq<Bytes>,
    lists: seq<Bytes>,
    sets: seq<Bytes>,
    hashes: seq<Bytes>,
    members: map<Bytes, seq<Bytes>>,
    fields: map<Bytes, seq<Bytes>>)

  ghost predicate ValidOrder(o: Order, db: DB) {
    && Listing(o.texts, db.store.Keys)
    && Listing(o.lists, db.lists.Keys)
    && Listing(o.sets, db.sets.Keys)
    && Listing(o.hashes, db.hashes.Keys)
    && (forall k :: k in db.sets ==> k in o.members && Listing(o.members[k], db.sets[k]))
    && (forall k :: k in db.hashes ==> k in o.fields && Listing(o.fields[k], db.hashes[k].Keys))
  }

  ghost predicate AllIn<V>(keys: seq<Bytes>, m: map<Bytes, V>) {
    forall i :: 0 <= i < |keys| ==> keys[i] in m
  }

  ghost function TextItems(keys: seq<Bytes>, db: DB): seq<Item>
    requires AllIn(keys, db.store)
  {
    if keys == [] then [] else [TextRecord(keys[0], db.store[keys[0]])] + TextItems(keys[1..], db)
  }

  ghost function ListItems(keys: seq<Bytes>, db: DB): seq<Item>
    requires AllIn(keys, db.lists)
  {
    if keys == [] then []
    else (if db.lists[keys[0]] == [] then [] else [ListRecord(keys[0], db.lists[keys[0]])]) + ListItems(keys[1..], db)
  }

  ghost function SetItems(keys: seq<Bytes>, members: map<Bytes, seq<Bytes>>): seq<Item>
    requires AllIn(keys, members)
  {
    if keys == [] then []
    else (if members[keys[0]] == [] then [] else [SetRecord(keys[0], members[keys[0]])]) + SetItems(keys[1..], members)
  }

  /** Fields and values alternating, in the order of `names`. */
  ghost function FieldPairs(names: seq<Bytes>, fields: map<Bytes, Bytes>): seq<Bytes>
    requires AllIn(names, fields)
  {
    if names == [] then [] else [names[0], fields[names[0]]] + FieldPairs(names[1..], fields)
  }

  /** The field/value strings of every hash, in the iteration order of its fields. */
  ghost function AllPairs(db: DB, o: Order): (r: map<Bytes, seq<Bytes>>)
    requires ValidOrder(o, db)
    ensures r.Keys == db.hashes.Keys
  {
    map k | k in db.hashes :: FieldPairs(o.fields[k], db.hashes[k])
  }

  ghost function HashItems(keys: seq<Bytes>, pairs: map<Bytes, seq<Bytes>>): seq<Item>
    requires AllIn(keys, pairs)
  {
    if keys == [] then []
    else (if pairs[keys[0]] == [] then [] else [HashRecord(keys[0], pairs[keys[0]])]) + HashItems(keys[1..], pairs)
  }

  lemma OrderCovers(o: Order, db: DB)
    requires ValidOrder(o, db)
    ensures AllIn(o.texts, db.store) && AllIn(o.lists, db.lists) && AllIn(o.sets, o.members)
    ensures AllIn(o.hashes, AllPairs(db, o))
  {
  }

  ghost function Records(db: DB, o: Order): seq<Item>
    requires ValidOrder(o, db)
  {
    OrderCovers(o, db);
    TextItems(o.texts, db) + ListItems(o.lists, db) + SetItems(o.sets, o.members)
    + HashItems(o.hashes, AllPairs(db, o))
  }

  /** `saveDatabase`: nothing for a database without keys, else its marker, the resize hint and its records. */
  ghost function DatabaseItems(index: nat, db: DB, o: Order): seq<Item>
    requires ValidOrder(o, db)
  {
    if TotalKeys(db) == 0 then [] else [SelectDB(index), Resize(TotalKeys(db), 0)] + Records(db, o)
  }

  ghost predicate ValidOrders(orders: seq<Order>, dbs: seq<DB>) {
    |orders| == |dbs| && forall i :: 0 <= i < |dbs| ==> ValidOrder(orders[i], dbs[i])
  }

  function Flatten(chunks: seq<seq<Item>>): seq<Item> {
    if chunks == [] then [] else Flatten(chunks[..|chunks| - 1]) + chunks[|chunks| - 1]
  }

  /** What each database contributes, in index order. */
  ghost function Chunks(dbs: seq<DB>, orders: seq<Order>): (r: seq<seq<Item>>)
    requires ValidOrders(orders, dbs)
    ensures |r| == |dbs|
    ensures forall i :: 0 <= i < |dbs| ==> r[i] == DatabaseItems(i, dbs[i], orders[i])
  {
    seq(|dbs|, i requires 0 <= i < |dbs| => DatabaseItems(i, dbs[i], orders[i]))
  }

  ghost function SavedItems(dbs: seq<DB>, orders: seq<Order>): seq<Item>
    requires ValidOrders(orders, dbs)
  {
    Flatten(Chunks(dbs, orders))
  }

  function WriteItems(items: seq<Item>): Bytes {
    if items == [] then "" else WriteItem(items[0]) + WriteItems(items[1..])
  }

  /** The bytes `Save` flushes, for one choice of iteration orders. */
  ghost function SavedFile(dbs: seq<DB>, orders: seq<Order>): Bytes
    requires ValidOrders(orders, dbs)
  {
    HEADER + WriteItems(SavedItems(dbs, orders) + [End])
  }

  // ------------------------------------------------- reading back written items

  predicate Acceptable(it: Item, databases: nat) {
    !it.End? && (it.SelectDB? ==> it.db < databases)
  }

  ghost predicate Loadable(items: seq<Item>, databases: nat) {
    forall i :: 0 <= i < |items| ==> Storable(items[i]) && Acceptable(items[i], databases)
  }

  lemma SameItemApplies(l: Loading, a: Item, b: Item, now: int)
    requires SameItem(a, b)
    ensures ApplyItem(l, a, now) == ApplyItem(l, b, now)
  {
  }

  lemma LoadOne(it: Item, rest: Bytes, l: Loading, now: int)
    requires Storable(it) && Acceptable(it, |l.dbs|)
    ensures LoadFrom(WriteItem(it) + rest, l, now) == LoadFrom(rest, ApplyItem(l, it, now), now)
  {
    ItemRoundTrip(it, rest);
    SameItemApplies(l, NextItem(WriteItem(it) + rest).item, it, now);
  }

  lemma {:induction false} LoadWritten(items: seq<Item>, rest: Bytes, l: Loading, now: int)
    requires Loadable(items, |l.dbs|)
    ensures LoadFrom(WriteItems(items) + rest, l, now) == LoadFrom(rest, ApplyItems(l, items, now), now)
    decreases items
  {
    if items == [] {
      assert WriteItems(items) + rest == rest;
    } else {
      assert Storable(items[0]) && Acceptable(items[0], |l.dbs|);
      var tail := WriteItems(items[1..]) + rest;
      Assoc(WriteItem(items[0]), WriteItems(items[1..]), rest);
      LoadOne(items[0], tail, l, now);
      LoadWritten(items[1..], rest, ApplyItem(l, items[0], now), now);
    }
  }

  /** The first `m` items are exactly those wholly inside the first `n` bytes, and one more is not. */
  ghost predicate ItemsInside(items: seq<Item>, n: nat, m: nat) {
    m < |items| && |WriteItems(items[..m])| <= n < |WriteItems(items[..m + 1])|
  }

  lemma ItemsShift(items: seq<Item>, n: nat, m: nat)
    requires items != [] && |WriteItem(items[0])| <= n && ItemsInside(items[1..], n - |WriteItem(items[0])|, m)
    ensures ItemsInside(items, n, m + 1)
  {
    assert items[..m + 1][1..] == items[1..][..m];
    assert items[..m + 2][1..] == items[1..][..m + 1];
  }

  lemma LoadCutItem(it: Item, rest: Bytes, n: nat, l: Loading, now: int)
    requires Storable(it) && n < |WriteItem(it)|
    ensures LoadFrom((WriteItem(it) + rest)[..n], l, now) == Loaded(l.dbs, Some(CutShort))
  {
    TakeOfAppend(WriteItem(it), rest, n);
    ItemPrefixStops(it, n);
  }

  /** A cut file applies exactly the items wholly inside it and then reports that it was cut. */
  lemma {:induction false} LoadCut(items: seq<Item>, last: Item, n: nat, l: Loading, now: int) returns (m: nat)
    requires Loadable(items, |l.dbs|) && Storable(last)
    requires n < |WriteItems(items + [last])|
    ensures ItemsInside(items + [last], n, m) && m <= |items|
    ensures LoadFrom(WriteItems(items + [last])[..n], l, now) ==
            Loaded(ApplyItems(l, items[..m], now).dbs, Some(CutShort))
    decreases items
  {
    var all := items + [last];
    if n < |WriteItem(all[0])| {
      m := 0;
      LoadCutAtOnce(all, n, l, now);
    } else {
      LaterCut(items, last);
      var next := ApplyItem(l, items[0], now);
      var c := LoadCut(items[1..], last, n - |WriteItem(items[0])|, next, now);
      m := c + 1;
      assert items[..m][0] == items[0] && items[..m][1..] == items[1..][..c];
      LoadCutLater(all, n, l, now, c, ApplyItems(next, items[1..][..c], now).dbs);
    }
  }

  lemma LaterCut(items: seq<Item>, last: Item)
    requires |WriteItem((items + [last])[0])| < |WriteItems(items + [last])|
    ensures items != [] && (items + [last])[0] == items[0] && (items + [last])[1..] == items[1..] + [last]
  {
    assert WriteItems([last][1..]) == "";
    assert items == [] ==> items + [last] == [last];
  }

  lemma NothingInside(all: seq<Item>, n: nat)
    requires all != [] && n < |WriteItem(all[0])|
    ensures ItemsInside(all, n, 0)
  {
    assert all[..1][1..] == [];
  }

  lemma LoadCutAtOnce(all: seq<Item>, n: nat, l: Loading, now: int)
    requires all != [] && Storable(all[0]) && n < |WriteItem(all[0])|
    ensures ItemsInside(all, n, 0)
    ensures LoadFrom(WriteItems(all)[..n], l, now) == Loaded(l.dbs, Some(CutShort))
  {
    LoadCutItem(all[0], WriteItems(all[1..]), n, l, now);
    NothingInside(all, n);
  }

  /** One more item in front of a cut file. */
  lemma LoadCutLater(all: seq<Item>, n: nat, l: Loading, now: int, c: nat, dbs: seq<DB>)
    requires all != [] && Storable(all[0]) && Acceptable(all[0], |l.dbs|)
    requires |WriteItem(all[0])| <= n < |WriteItems(all)|
    requires ItemsInside(all[1..], n - |WriteItem(all[0])|, c)
    requires LoadFrom(WriteItems(all[1..])[..n - |WriteItem(all[0])|], ApplyItem(l, all[0], now), now)
             == Loaded(dbs, Some(CutShort))
    ensures ItemsInside(all, n, c + 1)
    ensures LoadFrom(WriteItems(all)[..n], l, now) == Loaded(dbs, Some(CutShort))
  {
    LoadPastFirst(all[0], WriteItems(all[1..]), n, l, now);
    ItemsShift(all, n, c);
  }

  lemma LoadPastFirst(it: Item, rest: Bytes, n: nat, l: Loading, now: int)
    requires Storable(it) && Acceptable(it, |l.dbs|)
    requires |WriteItem(it)| <= n <= |WriteItem(it) + rest|
    ensures LoadFrom((WriteItem(it) + rest)[..n], l, now) ==
            LoadFrom(rest[..n - |WriteItem(it)|], ApplyItem(l, it, now), now)
  {
    var tail := rest[..n - |WriteItem(it)|];
    assert (WriteItem(it) + rest)[..n] == WriteItem(it) + tail by {
      TakeOfAppend(WriteItem(it), rest, n);
    }
    LoadOne(it, tail, l, now);
  }
}
