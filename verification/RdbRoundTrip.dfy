/**
 A saved snapshot, loaded into fresh databases, gives back the four maps of every database, whatever the
 iteration orders were; and what a cut snapshot gives back.
 */
module RdbRoundTrip {
  import opened Wrappers
  import opened GoText
  import opened Sequences
  import opened Containers
  import opened Keyspace
  import opened Effects
  import opened RdbCodec
  import opened RdbFile

  // ------------------------------------------------------ what a snapshot keeps

  function NonEmptyLists(m: map<Bytes, seq<Bytes>>): map<Bytes, seq<Bytes>> {
    map k | k in m && m[k] != [] :: m[k]
  }

  function NonEmptySets(m: map<Bytes, set<Bytes>>): map<Bytes, set<Bytes>> {
    map k | k in m && m[k] != {} :: m[k]
  }

  function NonEmptyHashes(m: map<Bytes, map<Bytes, Bytes>>): map<Bytes, map<Bytes, Bytes>> {
    map k | k in m && m[k] != map[] :: m[k]
  }

  /** The data of a database without its empty containers, which `saveDatabase` skips. */
  function Pruned(db: DB): DB {
    DB(db.store, NonEmptyLists(db.lists), NonEmptySets(db.sets), NonEmptyHashes(db.hashes), map[])
  }

  lemma PrunedIsData(db: DB)
    ensures Pruned(db) == Data(db) <==> NoEmptyContainer(db)
  {
    if NoEmptyContainer(db) {
      forall k
        ensures At(Pruned(db), k) == At(Data(db), k)
      {
        assert Filled(At(db, k));
      }
      SameDB(Pruned(db), Data(db));
    } else {
      var k :| !Filled(At(db, k));
      assert At(Pruned(db), k) != At(Data(db), k);
    }
  }

  // ------------------------------------------------------- rebuilding a database

  lemma {:induction false} ApplyAllConcat(db: DB, a: seq<Item>, b: seq<Item>, now: int)
    ensures ApplyAll(db, a + b, now) == ApplyAll(ApplyAll(db, a, now), b, now)
    decreases a
  {
    if a == [] {
      assert a + b == b;
    } else {
      assert (a + b)[1..] == a[1..] + b;
      ApplyAllConcat(ApplyRecord(db, a[0], now), a[1..], b, now);
    }
  }

  lemma NothingToEvict(db: DB, key: Bytes, now: int)
    requires db.expires == map[]
    ensures EvictKey(db, key, now) == db
  {
    SelfWith(db, key);
  }

  ghost predicate Distinct(keys: seq<Bytes>) {
    forall i, j :: 0 <= i < j < |keys| ==> keys[i] != keys[j]
  }

  ghost predicate NoneIn<V>(keys: seq<Bytes>, m: map<Bytes, V>) {
    forall i :: 0 <= i < |keys| ==> keys[i] !in m
  }

  lemma {:induction false} TextStage(keys: seq<Bytes>, src: DB, acc: DB, now: int, k: Bytes)
    requires AllIn(keys, src.store)
    ensures var r := ApplyAll(acc, TextItems(keys, src), now);
            && r == acc.(store := r.store)
            && Find(r.store, k) == if k in keys then Some(src.store[k]) else Find(acc.store, k)
    decreases keys
  {
    if keys != [] {
      var next := ApplyRecord(acc, TextRecord(keys[0], src.store[keys[0]]), now);
      assert TextItems(keys, src)[1..] == TextItems(keys[1..], src);
      TextStage(keys[1..], src, next, now, k);
    }
  }

  lemma {:induction false} ListStage(keys: seq<Bytes>, src: DB, acc: DB, now: int, k: Bytes)
    requires AllIn(keys, src.lists) && Distinct(keys) && NoneIn(keys, acc.lists) && acc.expires == map[]
    ensures var r := ApplyAll(acc, ListItems(keys, src), now);
            && r == acc.(lists := r.lists)
            && Find(r.lists, k) == if k in keys && src.lists[k] != [] then Some(src.lists[k]) else Find(acc.lists, k)
    decreases keys
  {
    if keys != [] {
      var x := keys[0];
      if src.lists[x] == [] {
        assert ListItems(keys, src) == ListItems(keys[1..], src);
        ListStage(keys[1..], src, acc, now, k);
      } else {
        NothingToEvict(acc, x, now);
        var next := ApplyRecord(acc, ListRecord(x, src.lists[x]), now);
        assert x !in acc.lists && [] + src.lists[x] == src.lists[x];
        assert next == acc.(lists := acc.lists[x := src.lists[x]]);
        assert ListItems(keys, src)[1..] == ListItems(keys[1..], src);
        ListStage(keys[1..], src, next, now, k);
      }
    }
  }

  lemma {:induction false} SetStage(keys: seq<Bytes>, members: map<Bytes, seq<Bytes>>, acc: DB, now: int, k: Bytes)
    requires AllIn(keys, members) && Distinct(keys) && NoneIn(keys, acc.sets) && acc.expires == map[]
    ensures var r := ApplyAll(acc, SetItems(keys, members), now);
            && r == acc.(sets := r.sets)
            && Find(r.sets, k) ==
               if k in keys && members[k] != [] then Some(Elements(members[k])) else Find(acc.sets, k)
    decreases keys
  {
    if keys != [] {
      var x := keys[0];
      if members[x] == [] {
        assert SetItems(keys, members) == SetItems(keys[1..], members);
        SetStage(keys[1..], members, acc, now, k);
      } else {
        NothingToEvict(acc, x, now);
        var next := ApplyRecord(acc, SetRecord(x, members[x]), now);
        assert x !in acc.sets && {} + Elements(members[x]) == Elements(members[x]);
        assert next == acc.(sets := acc.sets[x := Elements(members[x])]);
        assert SetItems(keys, members)[1..] == SetItems(keys[1..], members);
        SetStage(keys[1..], members, next, now, k);
      }
    }
  }

  lemma {:induction false} HashStage(keys: seq<Bytes>, pairs: map<Bytes, seq<Bytes>>, acc: DB, now: int, k: Bytes)
    requires AllIn(keys, pairs) && Distinct(keys) && NoneIn(keys, acc.hashes) && acc.expires == map[]
    ensures var r := ApplyAll(acc, HashItems(keys, pairs), now);
            && r == acc.(hashes := r.hashes)
            && Find(r.hashes, k) == if k in keys && pairs[k] != [] then Some(Pairs(pairs[k])) else Find(acc.hashes, k)
    decreases keys
  {
    if keys != [] {
      var x := keys[0];
      if pairs[x] == [] {
        assert HashItems(keys, pairs) == HashItems(keys[1..], pairs);
        HashStage(keys[1..], pairs, acc, now, k);
      } else {
        NothingToEvict(acc, x, now);
        var next := ApplyRecord(acc, HashRecord(x, pairs[x]), now);
        assert x !in acc.hashes && map[] + Pairs(pairs[x]) == Pairs(pairs[x]);
        assert next == acc.(hashes := acc.hashes[x := Pairs(pairs[x])]);
        assert HashItems(keys, pairs)[1..] == HashItems(keys[1..], pairs);
        HashStage(keys[1..], pairs, next, now, k);
      }
    }
  }

  /** Reading pairs back gives the field map, whatever order the fields came in. */
  lemma {:induction false} PairsReadBack(names: seq<Bytes>, fields: map<Bytes, Bytes>, f: Bytes)
    requires AllIn(names, fields)
    ensures Find(Pairs(FieldPairs(names, fields)), f) == if f in names then Some(fields[f]) else None
  {
    if names != [] {
      var pairs := FieldPairs(names, fields);
      assert pairs[2..] == FieldPairs(names[1..], fields);
      PairsReadBack(names[1..], fields, f);
    }
  }

  lemma HashReadsBack(names: seq<Bytes>, fields: map<Bytes, Bytes>)
    requires AllIn(names, fields) && Listing(names, fields.Keys)
    ensures Pairs(FieldPairs(names, fields)) == fields
  {
    forall f
      ensures Find(Pairs(FieldPairs(names, fields)), f) == Find(fields, f)
    {
      PairsReadBack(names, fields, f);
    }
    SameMap(Pairs(FieldPairs(names, fields)), fields);
  }

  lemma ListsKept(o: Order, db: DB, k: Bytes)
    requires ValidOrder(o, db) && AllIn(o.lists, db.lists)
    ensures Find(Pruned(db).lists, k) == if k in o.lists && db.lists[k] != [] then Some(db.lists[k]) else None
  {
  }

  lemma SetsKept(o: Order, db: DB, k: Bytes)
    requires ValidOrder(o, db) && AllIn(o.sets, o.members)
    ensures Find(Pruned(db).sets, k) ==
            if k in o.sets && o.members[k] != [] then Some(Elements(o.members[k])) else None
  {
    if k in db.sets {
      var order := o.members[k];
      assert Elements(order) == db.sets[k];
      assert order != [] ==> order[0] in db.sets[k];
    }
  }

  lemma HashesKept(o: Order, db: DB, k: Bytes)
    requires ValidOrder(o, db) && AllIn(o.hashes, AllPairs(db, o))
    ensures var pairs := AllPairs(db, o);
            Find(Pruned(db).hashes, k) == if k in o.hashes && pairs[k] != [] then Some(Pairs(pairs[k])) else None
  {
    if k in db.hashes {
      var order, fields := o.fields[k], db.hashes[k];
      HashReadsBack(order, fields);
      assert order != [] ==> order[0] in fields;
      assert FieldPairs(order, fields) == [] <==> order == [];
    }
  }

  /** The four kinds of record, one stage after the other, fill the four maps. */
  lemma StagesRebuild(db: DB, o: Order, now: int, s1: DB, s2: DB, s3: DB, s4: DB, k: Bytes)
    requires ValidOrder(o, db)
    requires AllIn(o.texts, db.store) && AllIn(o.lists, db.lists) && AllIn(o.sets, o.members)
    requires AllIn(o.hashes, AllPairs(db, o))
    requires s1 == ApplyAll(EMPTY_DB, TextItems(o.texts, db), now)
    requires s2 == ApplyAll(s1, ListItems(o.lists, db), now)
    requires s3 == ApplyAll(s2, SetItems(o.sets, o.members), now)
    requires s4 == ApplyAll(s3, HashItems(o.hashes, AllPairs(db, o)), now)
    ensures At(s4, k) == At(Pruned(db), k)
  {
    TextStage(o.texts, db, EMPTY_DB, now, k);
    ListStage(o.lists, db, s1, now, k);
    SetStage(o.sets, o.members, s2, now, k);
    HashStage(o.hashes, AllPairs(db, o), s3, now, k);
    ListsKept(o, db, k);
    SetsKept(o, db, k);
    HashesKept(o, db, k);
  }

  /** The records of one database, applied to an empty one, rebuild its data. */
  lemma RecordsRebuild(db: DB, o: Order, now: int)
    requires ValidOrder(o, db)
    ensures ApplyAll(EMPTY_DB, Records(db, o), now) == Pruned(db)
  {
    OrderCovers(o, db);
    var t, l, s, h := TextItems(o.texts, db), ListItems(o.lists, db), SetItems(o.sets, o.members),
                      HashItems(o.hashes, AllPairs(db, o));
    ApplyAllConcat(EMPTY_DB, t + l + s, h, now);
    ApplyAllConcat(EMPTY_DB, t + l, s, now);
    ApplyAllConcat(EMPTY_DB, t, l, now);
    var s1 := ApplyAll(EMPTY_DB, t, now);
    var s2 := ApplyAll(s1, l, now);
    var s3 := ApplyAll(s2, s, now);
    var s4 := ApplyAll(s3, h, now);
    forall k
      ensures At(s4, k) == At(Pruned(db), k)
    {
      StagesRebuild(db, o, now, s1, s2, s3, s4, k);
    }
    SameDB(s4, Pruned(db));
  }

  // ------------------------------------------------------ rebuilding all of them

  lemma {:induction false} ApplyItemsConcat(l: Loading, a: seq<Item>, b: seq<Item>, now: int)
    ensures ApplyItems(l, a + b, now) == ApplyItems(ApplyItems(l, a, now), b, now)
    decreases a
  {
    if a == [] {
      assert a + b == b;
    } else {
      assert (a + b)[1..] == a[1..] + b;
      ApplyItemsConcat(ApplyItem(l, a[0], now), a[1..], b, now);
    }
  }

  ghost predicate OnlyRecords(items: seq<Item>) {
    forall i :: 0 <= i < |items| ==> !items[i].SelectDB? && !items[i].Resize? && !items[i].End?
  }

  lemma {:induction false} RecordsStayInside(l: Loading, items: seq<Item>, now: int)
    requires OnlyRecords(items) && l.current < |l.dbs|
    ensures ApplyItems(l, items, now) ==
            l.(dbs := l.dbs[l.current := ApplyAll(l.dbs[l.current], items, now)])
    decreases items
  {
    if items != [] {
      assert !items[0].SelectDB?;
      RecordsStayInside(ApplyItem(l, items[0], now), items[1..], now);
    }
  }

  lemma {:induction false} TextItemsAre(keys: seq<Bytes>, db: DB)
    requires AllIn(keys, db.store)
    ensures OnlyRecords(TextItems(keys, db))
  {
    if keys != [] {
      TextItemsAre(keys[1..], db);
    }
  }

  lemma {:induction false} ListItemsAre(keys: seq<Bytes>, db: DB)
    requires AllIn(keys, db.lists)
    ensures OnlyRecords(ListItems(keys, db))
  {
    if keys != [] {
      ListItemsAre(keys[1..], db);
    }
  }

  lemma {:induction false} SetItemsAre(keys: seq<Bytes>, members: map<Bytes, seq<Bytes>>)
    requires AllIn(keys, members)
    ensures OnlyRecords(SetItems(keys, members))
  {
    if keys != [] {
      SetItemsAre(keys[1..], members);
    }
  }

  lemma {:induction false} HashItemsAre(keys: seq<Bytes>, pairs: map<Bytes, seq<Bytes>>)
    requires AllIn(keys, pairs)
    ensures OnlyRecords(HashItems(keys, pairs))
  {
    if keys != [] {
      HashItemsAre(keys[1..], pairs);
    }
  }

  lemma OnlyRecordsConcat(a: seq<Item>, b: seq<Item>)
    requires OnlyRecords(a) && OnlyRecords(b)
    ensures OnlyRecords(a + b)
  {
  }

  lemma RecordsAre(db: DB, o: Order)
    requires ValidOrder(o, db)
    ensures OnlyRecords(Records(db, o))
  {
    OrderCovers(o, db);
    var t, l, s, h := TextItems(o.texts, db), ListItems(o.lists, db), SetItems(o.sets, o.members),
                      HashItems(o.hashes, AllPairs(db, o));
    TextItemsAre(o.texts, db);
    ListItemsAre(o.lists, db);
    SetItemsAre(o.sets, o.members);
    HashItemsAre(o.hashes, AllPairs(db, o));
    OnlyRecordsConcat(t, l);
    OnlyRecordsConcat(t + l, s);
    OnlyRecordsConcat(t + l + s, h);
  }

  lemma DatabaseRebuilds(l: Loading, index: nat, db: DB, o: Order, now: int)
    requires ValidOrder(o, db) && index < |l.dbs| && l.dbs[index] == EMPTY_DB && l.current < |l.dbs|
    ensures ApplyItems(l, DatabaseItems(index, db, o), now).dbs == l.dbs[index := Pruned(db)]
    ensures ApplyItems(l, DatabaseItems(index, db, o), now).current < |l.dbs|
  {
    if TotalKeys(db) == 0 {
      assert Pruned(db) == EMPTY_DB;
    } else {
      var select, hint := SelectDB(index), Resize(TotalKeys(db), 0);
      RecordsAre(db, o);
      RecordsRebuild(db, o, now);
      var at := l.(current := index);
      assert ApplyItem(at, hint, now) == at;
      ApplyItemsConcat(l, [select, hint], Records(db, o), now);
      assert [select, hint][1..] == [hint] && [hint][1..] == [];
      RecordsStayInside(at, Records(db, o), now);
    }
  }

  ghost predicate RebuiltTo(l: Loading, dbs: seq<DB>, n: nat) {
    && |l.dbs| == |dbs| && n <= |dbs| && l.current < |dbs|
    && (forall i :: 0 <= i < n ==> l.dbs[i] == Pruned(dbs[i]))
    && (forall i :: n <= i < |dbs| ==> l.dbs[i] == EMPTY_DB)
  }

  lemma RebuiltStep(l: Loading, l': Loading, dbs: seq<DB>, n: nat)
    requires n < |dbs| && RebuiltTo(l, dbs, n) && l'.current < |dbs|
    requires l'.dbs == l.dbs[n := Pruned(dbs[n])]
    ensures RebuiltTo(l', dbs, n + 1)
  {
  }

  /** Applied where database `index` is still empty, the chunk fills exactly that database. */
  ghost predicate ChunkRebuilds(chunk: seq<Item>, index: nat, dbs: seq<DB>, now: int) {
    index < |dbs| &&
    forall l: Loading | |l.dbs| == |dbs| && l.current < |dbs| && l.dbs[index] == EMPTY_DB ::
      && ApplyItems(l, chunk, now).dbs == l.dbs[index := Pruned(dbs[index])]
      && ApplyItems(l, chunk, now).current < |dbs|
  }

  lemma ChunkStep(l: Loading, chunk: seq<Item>, dbs: seq<DB>, i: nat, now: int)
    requires RebuiltTo(l, dbs, i) && ChunkRebuilds(chunk, i, dbs, now)
    ensures RebuiltTo(ApplyItems(l, chunk, now), dbs, i + 1)
  {
    RebuiltStep(l, ApplyItems(l, chunk, now), dbs, i);
  }

  lemma FlattenSnoc(chunks: seq<seq<Item>>, n: nat)
    requires n < |chunks|
    ensures Flatten(chunks[..n + 1]) == Flatten(chunks[..n]) + chunks[n]
  {
    assert chunks[..n + 1][..n] == chunks[..n];
  }

  lemma {:induction false} FlattenRebuilds(chunks: seq<seq<Item>>, dbs: seq<DB>, n: nat, now: int)
    requires n <= |chunks| == |dbs| && dbs != []
    requires forall i :: 0 <= i < n ==> ChunkRebuilds(chunks[i], i, dbs, now)
    ensures RebuiltTo(ApplyItems(Loading(0, FreshDBs(|dbs|)), Flatten(chunks[..n]), now), dbs, n)
  {
    if n > 0 {
      var i, start := n - 1, Loading(0, FreshDBs(|dbs|));
      FlattenRebuilds(chunks, dbs, i, now);
      FlattenSnoc(chunks, i);
      ApplyItemsConcat(start, Flatten(chunks[..i]), chunks[i], now);
      ChunkStep(ApplyItems(start, Flatten(chunks[..i]), now), chunks[i], dbs, i, now);
    }
  }

  lemma ChunksRebuild(dbs: seq<DB>, orders: seq<Order>, i: nat, now: int)
    requires ValidOrders(orders, dbs) && i < |dbs|
    ensures ChunkRebuilds(Chunks(dbs, orders)[i], i, dbs, now)
  {
    assert ValidOrder(orders[i], dbs[i]);
    forall l: Loading | |l.dbs| == |dbs| && l.current < |dbs| && l.dbs[i] == EMPTY_DB
      ensures ApplyItems(l, DatabaseItems(i, dbs[i], orders[i]), now).dbs == l.dbs[i := Pruned(dbs[i])]
      ensures ApplyItems(l, DatabaseItems(i, dbs[i], orders[i]), now).current < |dbs|
    {
      DatabaseRebuilds(l, i, dbs[i], orders[i], now);
    }
  }

  lemma SavedRebuilds(dbs: seq<DB>, orders: seq<Order>, now: int)
    requires ValidOrders(orders, dbs) && dbs != []
    ensures RebuiltTo(ApplyItems(Loading(0, FreshDBs(|dbs|)), SavedItems(dbs, orders), now), dbs, |dbs|)
  {
    var chunks := Chunks(dbs, orders);
    forall i | 0 <= i < |dbs|
      ensures ChunkRebuilds(chunks[i], i, dbs, now)
    {
      ChunksRebuild(dbs, orders, i, now);
    }
    FlattenRebuilds(chunks, dbs, |dbs|, now);
    assert chunks[..|dbs|] == chunks;
  }

  // ------------------------------------------------------------ lengths that fit

  /** Every string is shorter than 2^32 bytes and every container has fewer than 2^32 elements. */
  ghost predicate Fits(db: DB) {
    && (forall k :: k in db.store ==> Short(k) && Short(db.store[k]))
    && (forall k :: k in db.lists ==> Short(k) && AllShort(db.lists[k]))
    && (forall k :: k in db.sets ==> Short(k) && |db.sets[k]| < TWO32 && forall m :: m in db.sets[k] ==> Short(m))
    && (forall k :: k in db.hashes ==> Short(k) && HashFits(db.hashes[k]))
  }

  ghost predicate HashFits(fields: map<Bytes, Bytes>) {
    |fields.Keys| < TWO32 && forall f :: f in fields ==> Short(f) && Short(fields[f])
  }

  lemma {:induction false} ListingSize(order: seq<Bytes>, elements: set<Bytes>)
    requires Listing(order, elements)
    ensures |order| == |elements|
  {
    if order != [] {
      assert order[0] in elements;
      forall x
        ensures x in order[1..] <==> x in elements - {order[0]}
      {
        assert x in order[1..] ==> x in order;
        assert x in order && x != order[0] ==> x in order[1..];
      }
      ListingSize(order[1..], elements - {order[0]});
    }
  }

  lemma SetStorable(key: Bytes, order: seq<Bytes>, members: set<Bytes>)
    requires Short(key) && Listing(order, members) && |members| < TWO32 && forall m :: m in members ==> Short(m)
    ensures Storable(SetRecord(key, order))
  {
    ListingSize(order, members);
    assert forall i :: 0 <= i < |order| ==> order[i] in members;
  }

  lemma {:induction false} FieldPairsShort(names: seq<Bytes>, fields: map<Bytes, Bytes>)
    requires AllIn(names, fields) && HashFits(fields)
    ensures |FieldPairs(names, fields)| == 2 * |names|
    ensures forall i :: 0 <= i < |FieldPairs(names, fields)| ==> Short(FieldPairs(names, fields)[i])
  {
    if names != [] {
      assert names[0] in fields;
      FieldPairsShort(names[1..], fields);
    }
  }

  lemma HashStorable(key: Bytes, order: seq<Bytes>, fields: map<Bytes, Bytes>)
    requires Short(key) && Listing(order, fields.Keys) && AllIn(order, fields) && HashFits(fields)
    ensures Storable(HashRecord(key, FieldPairs(order, fields)))
  {
    ListingSize(order, fields.Keys);
    FieldPairsShort(order, fields);
  }

  ghost predicate AllStorable(items: seq<Item>) {
    forall i :: 0 <= i < |items| ==> Storable(items[i])
  }

  lemma AllStorableConcat(a: seq<Item>, b: seq<Item>)
    requires AllStorable(a) && AllStorable(b)
    ensures AllStorable(a + b)
  {
  }

  lemma {:induction false} TextsStorable(keys: seq<Bytes>, db: DB)
    requires AllIn(keys, db.store) && Fits(db)
    ensures AllStorable(TextItems(keys, db))
  {
    if keys != [] {
      TextsStorable(keys[1..], db);
    }
  }

  lemma {:induction false} ListsStorable(keys: seq<Bytes>, db: DB)
    requires AllIn(keys, db.lists) && Fits(db)
    ensures AllStorable(ListItems(keys, db))
  {
    if keys != [] {
      ListsStorable(keys[1..], db);
    }
  }

  lemma {:induction false} SetsStorable(keys: seq<Bytes>, members: map<Bytes, seq<Bytes>>)
    requires AllIn(keys, members)
    requires forall i :: 0 <= i < |keys| ==> Storable(SetRecord(keys[i], members[keys[i]]))
    ensures AllStorable(SetItems(keys, members))
  {
    if keys != [] {
      SetsStorable(keys[1..], members);
    }
  }

  lemma {:induction false} HashesStorable(keys: seq<Bytes>, pairs: map<Bytes, seq<Bytes>>)
    requires AllIn(keys, pairs)
    requires forall i :: 0 <= i < |keys| ==> Storable(HashRecord(keys[i], pairs[keys[i]]))
    ensures AllStorable(HashItems(keys, pairs))
  {
    if keys != [] {
      HashesStorable(keys[1..], pairs);
    }
  }

  lemma SetItemsStorable(db: DB, o: Order)
    requires ValidOrder(o, db) && Fits(db) && AllIn(o.sets, o.members)
    ensures AllStorable(SetItems(o.sets, o.members))
  {
    forall i | 0 <= i < |o.sets|
      ensures Storable(SetRecord(o.sets[i], o.members[o.sets[i]]))
    {
      var k := o.sets[i];
      assert k in db.sets;
      SetStorable(k, o.members[k], db.sets[k]);
    }
    SetsStorable(o.sets, o.members);
  }

  lemma HashItemsStorable(db: DB, o: Order)
    requires ValidOrder(o, db) && Fits(db) && AllIn(o.hashes, AllPairs(db, o))
    ensures AllStorable(HashItems(o.hashes, AllPairs(db, o)))
  {
    var pairs := AllPairs(db, o);
    forall i | 0 <= i < |o.hashes|
      ensures Storable(HashRecord(o.hashes[i], pairs[o.hashes[i]]))
    {
      var k := o.hashes[i];
      assert k in db.hashes;
      HashStorable(k, o.fields[k], db.hashes[k]);
    }
    HashesStorable(o.hashes, pairs);
  }

  lemma RecordsStorable(db: DB, o: Order)
    requires ValidOrder(o, db) && Fits(db)
    ensures AllStorable(Records(db, o))
  {
    OrderCovers(o, db);
    var t, l, s, h := TextItems(o.texts, db), ListItems(o.lists, db), SetItems(o.sets, o.members),
                      HashItems(o.hashes, AllPairs(db, o));
    TextsStorable(o.texts, db);
    ListsStorable(o.lists, db);
    SetItemsStorable(db, o);
    HashItemsStorable(db, o);
    AllStorableConcat(t, l);
    AllStorableConcat(t + l, s);
    AllStorableConcat(t + l + s, h);
  }

  lemma LoadableConcat(a: seq<Item>, b: seq<Item>, databases: nat)
    requires Loadable(a, databases) && Loadable(b, databases)
    ensures Loadable(a + b, databases)
  {
  }

  lemma MarkersLoadable(index: nat, keys: nat, databases: nat)
    requires index < databases < TWO32
    ensures Loadable([SelectDB(index), Resize(keys, 0)], databases)
  {
  }

  lemma RecordsLoadable(db: DB, o: Order, databases: nat)
    requires ValidOrder(o, db) && Fits(db)
    ensures Loadable(Records(db, o), databases)
  {
    RecordsStorable(db, o);
    RecordsAre(db, o);
    hide ValidOrder, Fits, Records;
  }

  lemma DatabaseLoadable(index: nat, db: DB, o: Order, databases: nat)
    requires ValidOrder(o, db) && Fits(db) && index < databases < TWO32
    ensures Loadable(DatabaseItems(index, db, o), databases)
  {
    RecordsLoadable(db, o, databases);
    MarkersLoadable(index, TotalKeys(db), databases);
    hide ValidOrder, Fits, Records;
    if TotalKeys(db) != 0 {
      LoadableConcat([SelectDB(index), Resize(TotalKeys(db), 0)], Records(db, o), databases);
    }
  }

  lemma {:induction false} FlattenLoadable(chunks: seq<seq<Item>>, databases: nat)
    requires forall i :: 0 <= i < |chunks| ==> Loadable(chunks[i], databases)
    ensures Loadable(Flatten(chunks), databases)
  {
    if chunks != [] {
      var n := |chunks| - 1;
      FlattenLoadable(chunks[..n], databases);
      LoadableConcat(Flatten(chunks[..n]), chunks[n], databases);
    }
  }

  ghost predicate AllFit(dbs: seq<DB>) {
    forall i :: 0 <= i < |dbs| ==> Fits(dbs[i])
  }

  lemma SavedLoadable(dbs: seq<DB>, orders: seq<Order>)
    requires ValidOrders(orders, dbs) && |dbs| < TWO32 && AllFit(dbs)
    ensures Loadable(SavedItems(dbs, orders), |dbs|)
  {
    var chunks := Chunks(dbs, orders);
    forall i | 0 <= i < |dbs|
      ensures Loadable(chunks[i], |dbs|)
    {
      assert ValidOrder(orders[i], dbs[i]) && Fits(dbs[i]);
      DatabaseLoadable(i, dbs[i], orders[i], |dbs|);
    }
    FlattenLoadable(chunks, |dbs|);
  }

  // --------------------------------------------------------------- the theorems

  lemma {:induction false} WriteItemsConcat(a: seq<Item>, b: seq<Item>)
    ensures WriteItems(a + b) == WriteItems(a) + WriteItems(b)
  {
    if a == [] {
      assert a + b == b;
    } else {
      assert (a + b)[1..] == a[1..] + b;
      WriteItemsConcat(a[1..], b);
      Assoc(WriteItem(a[0]), WriteItems(a[1..]), WriteItems(b));
    }
  }

  /** Walking one more database appends what it contributes. */
  lemma SavedAppends(dbs: seq<DB>, orders: seq<Order>, db: DB, order: Order)
    requires ValidOrders(orders, dbs) && ValidOrder(order, db)
    ensures ValidOrders(orders + [order], dbs + [db])
    ensures SavedItems(dbs + [db], orders + [order]) == SavedItems(dbs, orders) + DatabaseItems(|dbs|, db, order)
  {
    var n := |dbs|;
    var chunks, chunks' := Chunks(dbs, orders), Chunks(dbs + [db], orders + [order]);
    forall i | 0 <= i < n
      ensures chunks'[i] == chunks[i]
    {
    }
    assert chunks'[..n] == chunks;
  }

  lemma LoadEnd(l: Loading, now: int)
    ensures LoadFrom(WriteItems([End]), l, now) == Loaded(l.dbs, None)
  {
    assert WriteItems([End][1..]) == "";
    assert WriteItems([End]) == WriteItem(End) + "";
    ItemRoundTrip(End, "");
  }

  lemma LoadBody(body: Bytes, dbs: seq<DB>, now: int)
    ensures LoadFile(HEADER + body, dbs, now) == LoadFrom(body, Loading(0, dbs), now)
  {
    assert (HEADER + body)[..8] == HEADER[..8];
    assert (HEADER + body)[|HEADER|..] == body;
  }

  lemma SavedFileLoads(dbs: seq<DB>, orders: seq<Order>, now: int)
    requires ValidOrders(orders, dbs) && 0 < |dbs| < TWO32 && AllFit(dbs)
    ensures LoadFile(SavedFile(dbs, orders), FreshDBs(|dbs|), now) ==
            Loaded(ApplyItems(Loading(0, FreshDBs(|dbs|)), SavedItems(dbs, orders), now).dbs, None)
  {
    var items, start := SavedItems(dbs, orders), Loading(0, FreshDBs(|dbs|));
    SavedLoadable(dbs, orders);
    WriteItemsConcat(items, [End]);
    LoadBody(WriteItems(items + [End]), FreshDBs(|dbs|), now);
    LoadWritten(items, WriteItems([End]), start, now);
    LoadEnd(ApplyItems(start, items, now), now);
  }

  /**
   The snapshot round trip: for any databases whose lengths fit and any iteration orders, loading the saved
   bytes into fresh databases succeeds and gives every database its strings, lists in order, sets and hashes
   back, leaving out containers that were empty.
   */
  lemma SnapshotRoundTrip(dbs: seq<DB>, orders: seq<Order>, now: int)
    requires ValidOrders(orders, dbs) && 0 < |dbs| < TWO32 && AllFit(dbs)
    ensures var r := LoadFile(SavedFile(dbs, orders), FreshDBs(|dbs|), now);
            && r.error == None
            && forall i :: 0 <= i < |dbs| ==> r.dbs[i] == Pruned(dbs[i])
  {
    SavedFileLoads(dbs, orders, now);
    SavedRebuilds(dbs, orders, now);
  }

  /** Loading saved bytes stores no empty list, set or hash, even if one had been saved. */
  lemma LoadedIsFilled(dbs: seq<DB>, orders: seq<Order>, now: int, i: nat)
    requires ValidOrders(orders, dbs) && 0 < |dbs| < TWO32 && AllFit(dbs) && i < |dbs|
    ensures NoEmptyContainer(LoadFile(SavedFile(dbs, orders), FreshDBs(|dbs|), now).dbs[i])
  {
    SnapshotRoundTrip(dbs, orders, now);
    hide ValidOrders, AllFit, LoadFile, SavedFile;
    PrunedIsFilled(dbs[i]);
  }

  lemma PrunedIsFilled(db: DB)
    ensures NoEmptyContainer(Pruned(db))
  {
  }

  /** So the four maps come back unchanged if and only if no stored container was empty. */
  lemma SnapshotIsExactIff(dbs: seq<DB>, orders: seq<Order>, now: int)
    requires ValidOrders(orders, dbs) && 0 < |dbs| < TWO32 && AllFit(dbs)
    ensures (forall i :: 0 <= i < |dbs| ==>
              LoadFile(SavedFile(dbs, orders), FreshDBs(|dbs|), now).dbs[i] == Data(dbs[i]))
            <==> (forall i :: 0 <= i < |dbs| ==> NoEmptyContainer(dbs[i]))
  {
    SnapshotRoundTrip(dbs, orders, now);
    forall i | 0 <= i < |dbs|
      ensures Pruned(dbs[i]) == Data(dbs[i]) <==> NoEmptyContainer(dbs[i])
    {
      PrunedIsData(dbs[i]);
    }
  }

  lemma LoadCutHeader(s: Bytes, n: nat, dbs: seq<DB>, now: int)
    requires n < |HEADER| && n <= |HEADER + s|
    ensures LoadFile((HEADER + s)[..n], dbs, now) == Loaded(dbs, Some(CutShort))
  {
  }

  /**
   A snapshot cut anywhere never loads: the load reports an error, and what it leaves in memory is exactly
   the effect of the items wholly inside the bytes that are left, never part of a list, set or hash.
   */
  lemma SnapshotCut(dbs: seq<DB>, orders: seq<Order>, n: nat, now: int) returns (m: nat)
    requires ValidOrders(orders, dbs) && 0 < |dbs| < TWO32 && AllFit(dbs)
    requires n < |SavedFile(dbs, orders)|
    ensures n < |HEADER| ==> m == 0
    ensures n >= |HEADER| ==> ItemsInside(SavedItems(dbs, orders) + [End], n - |HEADER|, m)
    ensures m <= |SavedItems(dbs, orders)|
    ensures LoadFile(SavedFile(dbs, orders)[..n], FreshDBs(|dbs|), now) ==
            Loaded(ApplyItems(Loading(0, FreshDBs(|dbs|)), SavedItems(dbs, orders)[..m], now).dbs,
                   Some(CutShort))
  {
    var items, start := SavedItems(dbs, orders), Loading(0, FreshDBs(|dbs|));
    var body := WriteItems(items + [End]);
    if n < |HEADER| {
      m := 0;
      LoadCutHeader(body, n, FreshDBs(|dbs|), now);
    } else {
      SavedLoadable(dbs, orders);
      m := LoadCut(items, End, n - |HEADER|, start, now);
      TakeOfAppend(HEADER, body, n);
      LoadBody(body[..n - |HEADER|], FreshDBs(|dbs|), now);
    }
  }
}
