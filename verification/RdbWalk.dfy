/** The walk over one database, one container after the other: what each adds to the records written so far. */
module RdbWalk {
  import opened Wrappers
  import opened GoText
  import opened Containers
  import opened Keyspace
  import opened RdbCodec
  import opened RdbFile
  import opened RdbRoundTrip

  /** The record of one container; an empty one is skipped. */
  function ListItem(key: Bytes, items: seq<Bytes>): seq<Item> {
    if items == [] then [] else [ListRecord(key, items)]
  }

  function SetItem(key: Bytes, members: seq<Bytes>): seq<Item> {
    if members == [] then [] else [SetRecord(key, members)]
  }

  function HashItem(key: Bytes, pairs: seq<Bytes>): seq<Item> {
    if pairs == [] then [] else [HashRecord(key, pairs)]
  }

  function WithList(m: DB, key: Bytes, items: seq<Bytes>): DB {
    m.(lists := m.lists[key := items])
  }

  function WithSet(m: DB, key: Bytes, members: set<Bytes>): DB {
    m.(sets := m.sets[key := members])
  }

  function WithHash(m: DB, key: Bytes, fields: map<Bytes, Bytes>): DB {
    m.(hashes := m.hashes[key := fields])
  }

  lemma {:induction false} ListItemsSnoc(order: seq<Bytes>, k: Bytes, m: DB, items: seq<Bytes>)
    requires AllIn(order, m.lists) && k !in order
    ensures AllIn(order + [k], WithList(m, k, items).lists)
    ensures ListItems(order + [k], WithList(m, k, items)) == ListItems(order, m) + ListItem(k, items)
  {
    if order != [] {
      assert (order + [k])[1..] == order[1..] + [k];
      assert order[0] != k;
      ListItemsSnoc(order[1..], k, m, items);
    } else {
      assert ([k])[1..] == [];
    }
  }

  lemma {:induction false} SetItemsSnoc(order: seq<Bytes>, k: Bytes, members: map<Bytes, seq<Bytes>>, one: seq<Bytes>)
    requires AllIn(order, members) && k !in order
    ensures AllIn(order + [k], members[k := one])
    ensures SetItems(order + [k], members[k := one]) == SetItems(order, members) + SetItem(k, one)
  {
    if order != [] {
      assert (order + [k])[1..] == order[1..] + [k];
      assert order[0] != k;
      SetItemsSnoc(order[1..], k, members, one);
    } else {
      assert ([k])[1..] == [];
    }
  }

  lemma {:induction false} HashItemsSnoc(order: seq<Bytes>, k: Bytes, pairs: map<Bytes, seq<Bytes>>, one: seq<Bytes>)
    requires AllIn(order, pairs) && k !in order
    ensures AllIn(order + [k], pairs[k := one])
    ensures HashItems(order + [k], pairs[k := one]) == HashItems(order, pairs) + HashItem(k, one)
  {
    if order != [] {
      assert (order + [k])[1..] == order[1..] + [k];
      assert order[0] != k;
      HashItemsSnoc(order[1..], k, pairs, one);
    } else {
      assert ([k])[1..] == [];
    }
  }

  // ------------------------------------------------------- one container further

  lemma ListingGrows(order: seq<Bytes>, done: set<Bytes>, k: Bytes)
    requires Listing(order, done) && k !in done
    ensures k !in order && Listing(order + [k], done + {k})
  {
    ListingSnoc(order, done, k);
  }

  lemma NothingListed(order: seq<Bytes>)
    requires Listing(order, {})
    ensures order == []
  {
    ListingSize(order, {});
  }

  lemma SameTexts(order: seq<Bytes>, m: DB, m': DB)
    requires AllIn(order, m.store) && m'.store == m.store
    ensures TextItems(order, m') == TextItems(order, m)
  {
    if order != [] {
      SameTexts(order[1..], m, m');
    }
  }

  lemma SameLists(order: seq<Bytes>, m: DB, m': DB)
    requires AllIn(order, m.lists) && m'.lists == m.lists
    ensures ListItems(order, m') == ListItems(order, m)
  {
    if order != [] {
      SameLists(order[1..], m, m');
    }
  }

  lemma RecordsParts(m: DB, o: Order)
    requires ValidOrder(o, m)
    ensures AllIn(o.texts, m.store) && AllIn(o.lists, m.lists) && AllIn(o.sets, o.members)
    ensures AllIn(o.hashes, AllPairs(m, o))
    ensures Records(m, o) == TextItems(o.texts, m) + ListItems(o.lists, m) + SetItems(o.sets, o.members)
                             + HashItems(o.hashes, AllPairs(m, o))
    ensures m.sets == map[] ==> o.sets == [] && SetItems(o.sets, o.members) == []
    ensures m.hashes == map[] ==> o.hashes == [] && HashItems(o.hashes, AllPairs(m, o)) == []
  {
    OrderCovers(o, m);
    hide TextItems, ListItems, AllPairs, FieldPairs, AllIn;
    if m.sets == map[] {
      NothingListed(o.sets);
    }
    if m.hashes == map[] {
      NothingListed(o.hashes);
    }
  }

  lemma Beside<T>(a: seq<T>, b: seq<T>, x: seq<T>)
    ensures a + (b + x) + [] + [] == a + b + [] + [] + x
    ensures a + (b + x) + [] == a + b + [] + x
    ensures a + (b + x) == a + b + x
  {
  }

  function ListOrder(o: Order, k: Bytes): Order {
    o.(lists := o.lists + [k])
  }

  function SetOrder(o: Order, k: Bytes, one: seq<Bytes>): Order {
    o.(sets := o.sets + [k], members := o.members[k := one])
  }

  function HashOrder(o: Order, k: Bytes, names: seq<Bytes>): Order {
    o.(hashes := o.hashes + [k], fields := o.fields[k := names])
  }

  lemma ListOrderGrows(m: DB, o: Order, k: Bytes, items: seq<Bytes>)
    requires ValidOrder(o, m) && k !in m.lists
    ensures k !in o.lists && ValidOrder(ListOrder(o, k), WithList(m, k, items))
  {
    ListingGrows(o.lists, m.lists.Keys, k);
    assert WithList(m, k, items).lists.Keys == m.lists.Keys + {k};
  }

  lemma SetOrderGrows(m: DB, o: Order, k: Bytes, members: set<Bytes>, one: seq<Bytes>)
    requires ValidOrder(o, m) && k !in m.sets && Listing(one, members)
    ensures k !in o.sets && ValidOrder(SetOrder(o, k, one), WithSet(m, k, members))
  {
    ListingGrows(o.sets, m.sets.Keys, k);
    assert WithSet(m, k, members).sets.Keys == m.sets.Keys + {k};
  }

  lemma HashOrderGrows(m: DB, o: Order, k: Bytes, fields: map<Bytes, Bytes>, names: seq<Bytes>)
    requires ValidOrder(o, m) && k !in m.hashes && Listing(names, fields.Keys)
    ensures k !in o.hashes && ValidOrder(HashOrder(o, k, names), WithHash(m, k, fields))
  {
    ListingGrows(o.hashes, m.hashes.Keys, k);
    assert WithHash(m, k, fields).hashes.Keys == m.hashes.Keys + {k};
  }

  lemma ListingIsIn<V>(names: seq<Bytes>, m: map<Bytes, V>)
    requires Listing(names, m.Keys)
    ensures AllIn(names, m)
  {
    assert forall i :: 0 <= i < |names| ==> names[i] in names;
  }

  lemma AllPairsGrow(m: DB, o: Order, k: Bytes, fields: map<Bytes, Bytes>, names: seq<Bytes>)
    requires ValidOrder(o, m) && k !in m.hashes && AllIn(names, fields)
    requires ValidOrder(HashOrder(o, k, names), WithHash(m, k, fields))
    ensures AllPairs(WithHash(m, k, fields), HashOrder(o, k, names)) == AllPairs(m, o)[k := FieldPairs(names, fields)]
  {
    var longer := AllPairs(WithHash(m, k, fields), HashOrder(o, k, names));
    forall x | x in longer
      ensures longer[x] == AllPairs(m, o)[k := FieldPairs(names, fields)][x]
    {
      hide FieldPairs, Listing;
    }
  }

  /** Reading a list, while no set and no hash has been read. */
  lemma ListRead(m: DB, o: Order, k: Bytes, items: seq<Bytes>)
    requires ValidOrder(o, m) && k !in m.lists && m.sets == map[] && m.hashes == map[]
    ensures ValidOrder(ListOrder(o, k), WithList(m, k, items))
    ensures Records(WithList(m, k, items), ListOrder(o, k)) == Records(m, o) + ListItem(k, items)
  {
    var m', o' := WithList(m, k, items), ListOrder(o, k);
    ListOrderGrows(m, o, k, items);
    RecordsParts(m, o);
    RecordsParts(m', o');
    hide Records, ValidOrder, TextItems, ListItems, SetItems, HashItems, AllPairs, AllIn, ListItem;
    ListItemsSnoc(o.lists, k, m, items);
    SameTexts(o.texts, m, m');
    Beside(TextItems(o.texts, m), ListItems(o.lists, m), ListItem(k, items));
  }

  /** Reading a set, while no hash has been read. */
  lemma SetRead(m: DB, o: Order, k: Bytes, members: set<Bytes>, one: seq<Bytes>)
    requires ValidOrder(o, m) && k !in m.sets && m.hashes == map[] && Listing(one, members)
    ensures ValidOrder(SetOrder(o, k, one), WithSet(m, k, members))
    ensures Records(WithSet(m, k, members), SetOrder(o, k, one)) == Records(m, o) + SetItem(k, one)
  {
    var m', o' := WithSet(m, k, members), SetOrder(o, k, one);
    SetOrderGrows(m, o, k, members, one);
    RecordsParts(m, o);
    RecordsParts(m', o');
    hide Records, ValidOrder, TextItems, ListItems, SetItems, HashItems, AllPairs, AllIn, SetItem, Listing;
    SetItemsSnoc(o.sets, k, o.members, one);
    SameTexts(o.texts, m, m');
    SameLists(o.lists, m, m');
    Beside(TextItems(o.texts, m) + ListItems(o.lists, m), SetItems(o.sets, o.members), SetItem(k, one));
  }

  /** Reading a hash. */
  lemma HashRead(m: DB, o: Order, k: Bytes, fields: map<Bytes, Bytes>, names: seq<Bytes>)
    requires ValidOrder(o, m) && k !in m.hashes && Listing(names, fields.Keys)
    ensures AllIn(names, fields) && ValidOrder(HashOrder(o, k, names), WithHash(m, k, fields))
    ensures Records(WithHash(m, k, fields), HashOrder(o, k, names)) ==
            Records(m, o) + HashItem(k, FieldPairs(names, fields))
  {
    var m', o' := WithHash(m, k, fields), HashOrder(o, k, names);
    ListingIsIn(names, fields);
    HashOrderGrows(m, o, k, fields, names);
    AllPairsGrow(m, o, k, fields, names);
    RecordsParts(m, o);
    RecordsParts(m', o');
    hide Records, ValidOrder, TextItems, ListItems, SetItems, HashItems, AllPairs, AllIn, HashItem, Listing, FieldPairs;
    HashItemsSnoc(o.hashes, k, AllPairs(m, o), FieldPairs(names, fields));
    SameTexts(o.texts, m, m');
    SameLists(o.lists, m, m');
    Beside(TextItems(o.texts, m) + ListItems(o.lists, m) + SetItems(o.sets, o.members),
           HashItems(o.hashes, AllPairs(m, o)), HashItem(k, FieldPairs(names, fields)));
  }
}
