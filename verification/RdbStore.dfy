/** Saving and loading snapshots as the source runs them: through a writer with a sticky error, and a reader. */
module RdbStore {
  import opened Wrappers
  import opened GoText
  import opened Sequences
  import opened Containers
  import opened Keyspace
  import opened RdbCodec
  import opened RdbFile
  import opened RdbRoundTrip
  import opened RdbWalk

  /**
   `errWriter`: after the first error it drops everything. The file under it takes `capacity` bytes, the last
   write that fits only in part included; `handed` is all that was ever handed to it.
   */
  class ErrWriter {
    const capacity: nat
    var w: Bytes
    var err: bool
    ghost var handed: Bytes

    constructor (capacity: nat)
      ensures Valid() && this.capacity == capacity && handed == ""
    {
      this.capacity := capacity;
      w, err, handed := "", false, "";
    }

    /** The file holds a prefix of what was handed over, all of it exactly as long as there was no error. */
    ghost predicate Valid()
      reads this
    {
      if err then capacity < |handed| && w == handed[..capacity] else |handed| <= capacity && w == handed
    }

    method Write(data: Bytes)
      requires Valid()
      modifies this
      ensures Valid() && handed == old(handed) + data
    {
      handed := handed + data;
      if err {
        TakeOfAppend(old(handed), data, capacity);
        return;
      }
      var n := if |w| + |data| <= capacity then |data| else capacity - |w|;
      TakeOfAppend(w, data, |w| + n);
      w := w + data[..n];
      err := n < |data|;
    }
  }

  // ------------------------------------------------------------- writing strings

  method PutLength(ew: ErrWriter, n: nat)
    requires ew.Valid()
    modifies ew
    ensures ew.Valid() && ew.handed == old(ew.handed) + WriteLength(n)
  {
    ghost var start := ew.handed;
    if n < 64 {
      ew.Write([Byte(n)]);
    } else if n < 16384 {
      ew.Write([Byte(n / 0x100 + 0x40)]);
      ew.Write([Byte(n % 0x100)]);
      Assoc(start, [Byte(n / 0x100 + 0x40)], [Byte(n % 0x100)]);
    } else {
      ew.Write([Byte(0x80)]);
      ew.Write(U32(n));
      Assoc(start, [Byte(0x80)], U32(n));
    }
  }

  method PutText(ew: ErrWriter, s: Bytes)
    requires ew.Valid()
    modifies ew
    ensures ew.Valid() && ew.handed == old(ew.handed) + WriteText(s)
  {
    PutLength(ew, |s|);
    ew.Write(s);
    Assoc(old(ew.handed), WriteLength(|s|), s);
  }

  lemma TextsSnoc(all: seq<Bytes>, i: nat)
    requires i < |all|
    ensures WriteTexts(all[..i + 1]) == WriteTexts(all[..i]) + WriteText(all[i])
  {
    if i == 0 {
      assert all[..1][1..] == [];
    } else {
      TextsSnoc(all[1..], i - 1);
      assert all[..i + 1][1..] == all[1..][..i];
      assert all[..i][1..] == all[1..][..i - 1];
      Assoc(WriteText(all[0]), WriteTexts(all[1..][..i - 1]), WriteText(all[i]));
    }
  }

  method PutTexts(ew: ErrWriter, all: seq<Bytes>)
    requires ew.Valid()
    modifies ew
    ensures ew.Valid() && ew.handed == old(ew.handed) + WriteTexts(all)
  {
    var i := 0;
    while i < |all|
      invariant 0 <= i <= |all|
      invariant ew.Valid() && ew.handed == old(ew.handed) + WriteTexts(all[..i])
    {
      TextsSnoc(all, i);
      Assoc(old(ew.handed), WriteTexts(all[..i]), WriteText(all[i]));
      PutText(ew, all[i]);
      i := i + 1;
    }
    assert all[..i] == all;
  }

  /** One record of a list, set or hash. */
  method PutGroup(ew: ErrWriter, opcode: nat, key: Bytes, count: nat, all: seq<Bytes>)
    requires ew.Valid() && opcode < 256
    modifies ew
    ensures ew.Valid() && ew.handed == old(ew.handed) + ([Byte(opcode)] + WriteGroup(key, count, all))
  {
    ghost var start := ew.handed;
    ew.Write([Byte(opcode)]);
    PutText(ew, key);
    PutLength(ew, count);
    PutTexts(ew, all);
    FourParts(start, [Byte(opcode)], WriteText(key), WriteLength(count), WriteTexts(all));
  }

  lemma FourParts(start: Bytes, a: Bytes, b: Bytes, c: Bytes, d: Bytes)
    ensures start + a + b + c + d == start + (a + (b + c + d))
  {
  }

  method PutPair(ew: ErrWriter, key: Bytes, value: Bytes)
    requires ew.Valid()
    modifies ew
    ensures ew.Valid() && ew.handed == old(ew.handed) + WriteItem(TextRecord(key, value))
  {
    ghost var start := ew.handed;
    ew.Write([Byte(TYPE_STRING)]);
    PutText(ew, key);
    PutText(ew, value);
    FourParts(start, [Byte(TYPE_STRING)], WriteText(key), WriteText(value), "");
    assert WriteText(key) + WriteText(value) + "" == WriteText(key) + WriteText(value);
    assert start + [Byte(TYPE_STRING)] + WriteText(key) + WriteText(value) + "" ==
           start + [Byte(TYPE_STRING)] + WriteText(key) + WriteText(value);
  }

  // ------------------------------------------------------------ walking a database

  lemma ItemsSnoc(items: seq<Item>, it: Item)
    ensures WriteItems(items + [it]) == WriteItems(items) + WriteItem(it)
  {
    WriteItemsConcat(items, [it]);
    assert WriteItems([it][1..]) == "";
  }

  lemma {:induction false} TextItemsSnoc(order: seq<Bytes>, k: Bytes, m: DB)
    requires AllIn(order, m.store) && k in m.store
    ensures AllIn(order + [k], m.store)
    ensures TextItems(order + [k], m) == TextItems(order, m) + [TextRecord(k, m.store[k])]
  {
    if order != [] {
      TextItemsSnoc(order[1..], k, m);
      assert (order + [k])[1..] == order[1..] + [k];
    } else {
      assert ([k])[1..] == [];
    }
  }

  /** The walk over the strings; the order is map iteration's. */
  method SaveTexts(ew: ErrWriter, m: DB) returns (ghost order: seq<Bytes>)
    requires ew.Valid()
    modifies ew
    ensures ew.Valid() && Listing(order, m.store.Keys) && AllIn(order, m.store)
    ensures ew.handed == old(ew.handed) + WriteItems(TextItems(order, m))
  {
    order := [];
    ghost var start := ew.handed;
    assert start + "" == start;
    var left := m.store.Keys;
    while left != {}
      invariant left <= m.store.Keys
      invariant ew.Valid() && Listing(order, m.store.Keys - left) && AllIn(order, m.store)
      invariant ew.handed == start + WriteItems(TextItems(order, m))
      decreases left
    {
      var k :| k in left;
      ListingSnoc(order, m.store.Keys - left, k);
      left := left - {k};
      TextItemsSnoc(order, k, m);
      ItemsSnoc(TextItems(order, m), TextRecord(k, m.store[k]));
      Assoc(start, WriteItems(TextItems(order, m)), WriteItem(TextRecord(k, m.store[k])));
      PutPair(ew, k, m.store[k]);
      order := order + [k];
    }
  }

  lemma ListWalkStep(m: DB, order: seq<Bytes>, left: set<Bytes>, k: Bytes)
    requires Listing(order, m.lists.Keys - left) && AllIn(order, m.lists)
    requires k in left && left <= m.lists.Keys
    ensures Listing(order + [k], m.lists.Keys - (left - {k})) && AllIn(order + [k], m.lists)
    ensures ListItems(order + [k], m) == ListItems(order, m) + ListItem(k, m.lists[k])
  {
    ListingSnoc(order, m.lists.Keys - left, k);
    ListingHas(order, m.lists.Keys - left, k);
    assert m.lists.Keys - (left - {k}) == m.lists.Keys - left + {k};
    assert WithList(m, k, m.lists[k]) == m;
    hide Listing, AllIn, ListItems, ListItem;
    ListItemsSnoc(order, k, m, m.lists[k]);
  }

  /** The walk over the lists; an empty one is skipped. */
  method SaveLists(ew: ErrWriter, m: DB) returns (ghost order: seq<Bytes>)
    requires ew.Valid()
    modifies ew
    ensures ew.Valid() && Listing(order, m.lists.Keys) && AllIn(order, m.lists)
    ensures ew.handed == old(ew.handed) + WriteItems(ListItems(order, m))
  {
    order := [];
    ghost var start := ew.handed;
    assert start + "" == start;
    var left := m.lists.Keys;
    assert m.lists.Keys - left == {};
    while left != {}
      invariant left <= m.lists.Keys
      invariant ew.Valid() && Listing(order, m.lists.Keys - left) && AllIn(order, m.lists)
      invariant ew.handed == start + WriteItems(ListItems(order, m))
      decreases left
    {
      var k :| k in left;
      hide Listing, AllIn, WriteItems, ListItems, ListItem, ErrWriter.Valid;
      ListWalkStep(m, order, left, k);
      left := left - {k};
      PutListItem(ew, k, m.lists[k], ListItems(order, m), start);
      order := order + [k];
    }
    assert m.lists.Keys - left == m.lists.Keys;
  }

  method PutListItem(ew: ErrWriter, key: Bytes, items: seq<Bytes>, ghost done: seq<Item>, ghost start: Bytes)
    requires ew.Valid() && ew.handed == start + WriteItems(done)
    modifies ew
    ensures ew.Valid() && ew.handed == start + WriteItems(done + ListItem(key, items))
  {
    if items == [] {
      assert done + [] == done;
    } else {
      ItemsSnoc(done, ListRecord(key, items));
      Assoc(start, WriteItems(done), WriteItem(ListRecord(key, items)));
      PutGroup(ew, TYPE_LIST, key, |items|, items);
    }
  }

  method PutSetItem(ew: ErrWriter, key: Bytes, members: seq<Bytes>, ghost done: seq<Item>, ghost start: Bytes)
    requires ew.Valid() && ew.handed == start + WriteItems(done)
    modifies ew
    ensures ew.Valid() && ew.handed == start + WriteItems(done + SetItem(key, members))
  {
    if members == [] {
      assert done + [] == done;
    } else {
      ItemsSnoc(done, SetRecord(key, members));
      Assoc(start, WriteItems(done), WriteItem(SetRecord(key, members)));
      PutGroup(ew, TYPE_SET, key, |members|, members);
    }
  }

  method SaveSets(ew: ErrWriter, m: DB) returns (ghost order: seq<Bytes>, ghost members: map<Bytes, seq<Bytes>>)
    requires ew.Valid()
    modifies ew
    ensures ew.Valid() && Listing(order, m.sets.Keys) && AllIn(order, members)
    ensures forall k :: k in m.sets ==> k in members && Listing(members[k], m.sets[k])
    ensures ew.handed == old(ew.handed) + WriteItems(SetItems(order, members))
  {
    order, members := [], map[];
    ghost var start := ew.handed;
    assert start + "" == start;
    var left := m.sets.Keys;
    while left != {}
      invariant left <= m.sets.Keys
      invariant ew.Valid() && Listing(order, m.sets.Keys - left) && AllIn(order, members)
      invariant forall k :: k in m.sets && k !in left ==> k in members && Listing(members[k], m.sets[k])
      invariant ew.handed == start + WriteItems(SetItems(order, members))
      decreases left
    {
      var k :| k in left;
      ListingSnoc(order, m.sets.Keys - left, k);
      left := left - {k};
      var one := ListAll(m.sets[k]);
      SetItemsSnoc(order, k, members, one);
      PutSetItem(ew, k, one, SetItems(order, members), start);
      order, members := order + [k], members[k := one];
    }
  }

  lemma FieldPairsStep(names: seq<Bytes>, fields: map<Bytes, Bytes>, i: nat)
    requires AllIn(names, fields) && i < |names|
    ensures AllIn(names[i..], fields) && AllIn(names[i + 1..], fields)
    ensures FieldPairs(names[i..], fields) == [names[i], fields[names[i]]] + FieldPairs(names[i + 1..], fields)
  {
    assert names[i..][1..] == names[i + 1..];
  }

  /** The fields of one hash with their values, as the walk over them yields them. */
  method CollectFields(fields: map<Bytes, Bytes>) returns (ghost names: seq<Bytes>, pairs: seq<Bytes>)
    ensures Listing(names, fields.Keys) && AllIn(names, fields)
    ensures pairs == FieldPairs(names, fields) && |pairs| == 2 * |fields|
  {
    var order := ListAll(fields.Keys);
    names := order;
    pairs := [];
    assert order[0..] == order;
    assert AllIn(order, fields);
    var i := 0;
    while i < |order|
      invariant 0 <= i <= |order| && AllIn(order, fields) && AllIn(order[i..], fields)
      invariant FieldPairs(order, fields) == pairs + FieldPairs(order[i..], fields)
      invariant |pairs| == 2 * i
    {
      FieldPairsStep(order, fields, i);
      pairs := pairs + [order[i], fields[order[i]]];
      i := i + 1;
    }
    assert order[i..] == [];
    ListingSize(order, fields.Keys);
  }

  lemma HashItemIs(key: Bytes, count: nat, pairs: seq<Bytes>)
    requires |pairs| == 2 * count
    ensures HashItem(key, pairs) == if count == 0 then [] else [HashRecord(key, pairs)]
    ensures WriteItem(HashRecord(key, pairs)) == [Byte(TYPE_HASH)] + WriteGroup(key, count, pairs)
  {
    hide WriteGroup;
  }

  method PutHashItem(ew: ErrWriter, key: Bytes, count: nat, pairs: seq<Bytes>, ghost done: seq<Item>,
                     ghost start: Bytes)
    requires ew.Valid() && ew.handed == start + WriteItems(done) && |pairs| == 2 * count
    modifies ew
    ensures ew.Valid() && ew.handed == start + WriteItems(done + HashItem(key, pairs))
  {
    HashItemIs(key, count, pairs);
    hide HashItem, WriteItem, WriteItems, WriteGroup, ErrWriter.Valid;
    if count == 0 {
      assert done + [] == done;
    } else {
      ItemsSnoc(done, HashRecord(key, pairs));
      Assoc(start, WriteItems(done), WriteItem(HashRecord(key, pairs)));
      PutGroup(ew, TYPE_HASH, key, count, pairs);
    }
  }

  /** The hashes walked so far: their fields in some order, and the strings written for them. */
  ghost predicate Collected(m: DB, done: set<Bytes>, fields: map<Bytes, seq<Bytes>>, pairs: map<Bytes, seq<Bytes>>) {
    && pairs.Keys == done <= m.hashes.Keys
    && forall k :: k in done ==>
         && k in fields && Listing(fields[k], m.hashes[k].Keys)
         && AllIn(fields[k], m.hashes[k]) && pairs[k] == FieldPairs(fields[k], m.hashes[k])
  }

  lemma NothingCollected(m: DB)
    ensures Listing<Bytes>([], {}) && AllIn<seq<Bytes>>([], map[]) && Collected(m, {}, map[], map[])
    ensures WriteItems(HashItems([], map[])) == ""
  {
  }

  lemma CollectOne(m: DB, done: set<Bytes>, fields: map<Bytes, seq<Bytes>>, pairs: map<Bytes, seq<Bytes>>, k: Bytes,
                   names: seq<Bytes>)
    requires Collected(m, done, fields, pairs) && k in m.hashes
    requires Listing(names, m.hashes[k].Keys) && AllIn(names, m.hashes[k])
    ensures Collected(m, done + {k}, fields[k := names], pairs[k := FieldPairs(names, m.hashes[k])])
  {
    hide FieldPairs, Listing, AllIn;
  }

  method SaveHash(ew: ErrWriter, m: DB, k: Bytes, ghost done: set<Bytes>, ghost order: seq<Bytes>,
                  ghost fields: map<Bytes, seq<Bytes>>, ghost pairs: map<Bytes, seq<Bytes>>, ghost start: Bytes)
    returns (ghost names: seq<Bytes>, one: seq<Bytes>)
    requires k in m.hashes && k !in done && ew.Valid()
    requires Listing(order, done) && AllIn(order, pairs) && Collected(m, done, fields, pairs)
    requires ew.handed == start + WriteItems(HashItems(order, pairs))
    modifies ew
    ensures ew.Valid() && Listing(order + [k], done + {k}) && AllIn(order + [k], pairs[k := one])
    ensures Collected(m, done + {k}, fields[k := names], pairs[k := one])
    ensures ew.handed == start + WriteItems(HashItems(order + [k], pairs[k := one]))
  {
    hide *;
    names, one := CollectFields(m.hashes[k]);
    ListingHas(order, done, k);
    ListingSnoc(order, done, k);
    HashItemsSnoc(order, k, pairs, one);
    CollectOne(m, done, fields, pairs, k, names);
    PutHashItem(ew, k, |m.hashes[k]|, one, HashItems(order, pairs), start);
  }

  method SaveHashes(ew: ErrWriter, m: DB)
    returns (ghost order: seq<Bytes>, ghost fields: map<Bytes, seq<Bytes>>, ghost pairs: map<Bytes, seq<Bytes>>)
    requires ew.Valid()
    modifies ew
    ensures ew.Valid() && Listing(order, m.hashes.Keys) && AllIn(order, pairs)
    ensures Collected(m, m.hashes.Keys, fields, pairs)
    ensures ew.handed == old(ew.handed) + WriteItems(HashItems(order, pairs))
  {
    hide *;
    order, fields, pairs := [], map[], map[];
    ghost var start := ew.handed;
    NothingCollected(m);
    assert start + "" == start;
    var left := m.hashes.Keys;
    ghost var done: set<Bytes> := {};
    while left != {}
      invariant done == m.hashes.Keys - left && left <= m.hashes.Keys
      invariant ew.Valid() && Listing(order, done) && AllIn(order, pairs)
      invariant Collected(m, done, fields, pairs)
      invariant ew.handed == start + WriteItems(HashItems(order, pairs))
      decreases left
    {
      var k :| k in left;
      ghost var names;
      var one;
      names, one := SaveHash(ew, m, k, done, order, fields, pairs, start);
      left, done := left - {k}, done + {k};
      order, fields, pairs := order + [k], fields[k := names], pairs[k := one];
    }
    assert done == m.hashes.Keys;
  }

  lemma ListingHas(order: seq<Bytes>, done: set<Bytes>, k: Bytes)
    requires Listing(order, done) && k !in done
    ensures k !in order
  {
  }

  /**
   `saveDatabase`: the walk over one database. `m` is what the walk sees: the strings and keys, which the read
   lock keeps still, and every list, set and hash as it is when the walk copies it. `Snapshot` says how that
   relates to the databases that were live meanwhile.
   */
  method SaveDatabase(ew: ErrWriter, index: nat, m: DB) returns (totalKeys: nat, ghost o: Order)
    requires ew.Valid()
    modifies ew
    ensures ew.Valid() && ValidOrder(o, m) && totalKeys == TotalKeys(m)
    ensures ew.handed == old(ew.handed) + WriteItems(DatabaseItems(index, m, o))
  {
    totalKeys := |m.store| + |m.lists| + |m.sets| + |m.hashes|;
    if totalKeys == 0 {
      o := NothingToList(m);
      assert ew.handed + "" == ew.handed;
      return;
    }
    ghost var start := ew.handed;
    PutMarkers(ew, index, totalKeys);
    o := SaveRecords(ew, m);
    ghost var markers := [SelectDB(index), Resize(totalKeys, 0)];
    WriteItemsConcat(markers, Records(m, o));
    Assoc(start, WriteItems(markers), WriteItems(Records(m, o)));
  }

  lemma NothingToList(m: DB) returns (o: Order)
    requires TotalKeys(m) == 0
    ensures ValidOrder(o, m)
  {
    assert m.store.Keys == {} && m.lists.Keys == {} && m.sets.Keys == {} && m.hashes.Keys == {};
    o := Order([], [], [], [], map[], map[]);
  }

  method PutMarkers(ew: ErrWriter, index: nat, totalKeys: nat)
    requires ew.Valid()
    modifies ew
    ensures ew.Valid()
    ensures ew.handed == old(ew.handed) + WriteItems([SelectDB(index), Resize(totalKeys, 0)])
  {
    ghost var start := ew.handed;
    ew.Write([Byte(OP_SELECT_DB)]);
    PutLength(ew, index);
    ew.Write([Byte(OP_RESIZE_DB)]);
    PutLength(ew, totalKeys);
    PutLength(ew, 0);
    TwoItems(SelectDB(index), Resize(totalKeys, 0));
    var a, b := [Byte(OP_SELECT_DB)] + WriteLength(index), WriteLength(totalKeys) + WriteLength(0);
    Assoc(start, [Byte(OP_SELECT_DB)], WriteLength(index));
    Assoc(start + a + [Byte(OP_RESIZE_DB)], WriteLength(totalKeys), WriteLength(0));
    Assoc(start + a, [Byte(OP_RESIZE_DB)], b);
    Assoc(start, a, [Byte(OP_RESIZE_DB)] + b);
  }

  lemma TwoItems(a: Item, b: Item)
    ensures WriteItems([a, b]) == WriteItem(a) + WriteItem(b)
  {
    hide WriteItem;
    assert [a, b] == [a] + [b];
    WriteItemsConcat([a], [b]);
    assert [a][1..] == [] && [b][1..] == [];
    assert WriteItem(a) + "" == WriteItem(a) && WriteItem(b) + "" == WriteItem(b);
  }

  method SaveRecords(ew: ErrWriter, m: DB) returns (ghost o: Order)
    requires ew.Valid()
    modifies ew
    ensures ew.Valid() && ValidOrder(o, m)
    ensures ew.handed == old(ew.handed) + WriteItems(Records(m, o))
  {
    ghost var start := ew.handed;
    ghost var texts := SaveTexts(ew, m);
    ghost var lists := SaveLists(ew, m);
    ghost var sets, members := SaveSets(ew, m);
    ghost var hashes, fields, pairs := SaveHashes(ew, m);
    o := Order(texts, lists, sets, hashes, members, fields);
    assert ValidOrder(o, m);
    OrderCovers(o, m);
    assert pairs == AllPairs(m, o);
    FourGroups(start, TextItems(texts, m), ListItems(lists, m), SetItems(sets, members), HashItems(hashes, pairs));
  }

  lemma FourGroups(start: Bytes, a: seq<Item>, b: seq<Item>, c: seq<Item>, d: seq<Item>)
    ensures start + WriteItems(a) + WriteItems(b) + WriteItems(c) + WriteItems(d) == start + WriteItems(a + b + c + d)
  {
    WriteItemsConcat(a, b);
    WriteItemsConcat(a + b, c);
    WriteItemsConcat(a + b + c, d);
    Assoc(start, WriteItems(a), WriteItems(b));
    Assoc(start, WriteItems(a + b), WriteItems(c));
    Assoc(start, WriteItems(a + b + c), WriteItems(d));
  }

  lemma NothingSaved()
    ensures ValidOrders([], []) && SavedItems([], []) == []
  {
  }

  lemma SavePrefix(models: seq<DB>, orders: seq<Order>, i: nat, o: Order)
    requires i < |models| && ValidOrders(orders, models[..i]) && ValidOrder(o, models[i])
    ensures ValidOrders(orders + [o], models[..i + 1])
    ensures HEADER + WriteItems(SavedItems(models[..i], orders)) + WriteItems(DatabaseItems(i, models[i], o)) ==
            HEADER + WriteItems(SavedItems(models[..i + 1], orders + [o]))
  {
    assert models[..i + 1] == models[..i] + [models[i]];
    SavedAppends(models[..i], orders, models[i], o);
    WriteItemsConcat(SavedItems(models[..i], orders), DatabaseItems(i, models[i], o));
    Assoc(HEADER, WriteItems(SavedItems(models[..i], orders)), WriteItems(DatabaseItems(i, models[i], o)));
  }

  /**
   `Save` up to the flush: what ends up in the temporary file, if the disk takes it. `models` are the databases
   as each walk saw them; the rest of the procedure is the machine in `Snapshot`.
   */
  method Save(models: seq<DB>, capacity: nat) returns (file: Option<Bytes>, ghost orders: seq<Order>)
    ensures ValidOrders(orders, models)
    ensures file == if |SavedFile(models, orders)| <= capacity then Some(SavedFile(models, orders)) else None
  {
    var ew := new ErrWriter(capacity);
    ew.Write(HEADER);
    orders := [];
    NothingSaved();
    assert "" + HEADER == HEADER;
    assert HEADER + "" == HEADER;
    var i := 0;
    while i < |models|
      invariant 0 <= i <= |models| && fresh(ew) && ew.Valid() && ew.capacity == capacity
      invariant ValidOrders(orders, models[..i])
      invariant ew.handed == HEADER + WriteItems(SavedItems(models[..i], orders))
    {
      ghost var o;
      var totalKeys;
      totalKeys, o := SaveDatabase(ew, i, models[i]);
      SavePrefix(models, orders, i, o);
      orders := orders + [o];
      i := i + 1;
    }
    assert models[..i] == models;
    PutEnd(ew, models, orders);
    return if ew.err then None else Some(ew.w), orders;
  }

  lemma FinishIs(models: seq<DB>, orders: seq<Order>, start: Bytes)
    requires ValidOrders(orders, models) && start == HEADER + WriteItems(SavedItems(models, orders))
    ensures SavedFile(models, orders) == start + [Byte(OP_EOF)] + "\0\0\0\0\0\0\0\0"
  {
    ItemsSnoc(SavedItems(models, orders), End);
    Assoc(HEADER, WriteItems(SavedItems(models, orders)), WriteItem(End));
    Assoc(start, [Byte(OP_EOF)], "\0\0\0\0\0\0\0\0");
    hide SavedItems, WriteItems, ValidOrders;
  }

  method PutEnd(ew: ErrWriter, ghost models: seq<DB>, ghost orders: seq<Order>)
    requires ValidOrders(orders, models) && ew.Valid()
    requires ew.handed == HEADER + WriteItems(SavedItems(models, orders))
    modifies ew
    ensures ew.Valid() && ew.handed == SavedFile(models, orders)
  {
    FinishIs(models, orders, ew.handed);
    hide ErrWriter.Valid, SavedFile, SavedItems, WriteItems, ValidOrders;
    ew.Write([Byte(OP_EOF)]);
    ew.Write("\0\0\0\0\0\0\0\0");
  }
}
