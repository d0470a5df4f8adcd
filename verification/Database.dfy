/**
 One logical database as the object the handlers update: five maps, three of them to container objects that
 are themselves updated in place. `Model` is the value the rest of the project reasons about.
 */
module Database {
  import opened Wrappers
  import opened GoText
  import opened Containers
  import opened Keyspace
  import opened Commands

  // ------------------------------------------------- one slot of a database value

  lemma AssignTwice<V>(m: map<Bytes, V>, key: Bytes, a: Option<V>, b: Option<V>)
    ensures Assign(Assign(m, key, a), key, b) == Assign(m, key, b)
  {
  }

  lemma WithTwice(db: DB, key: Bytes, s: Slot, t: Slot)
    ensures With(With(db, key, s), key, t) == With(db, key, t)
  {
    AssignTwice(db.store, key, s.text, t.text);
    AssignTwice(db.lists, key, s.list, t.list);
    AssignTwice(db.sets, key, s.members, t.members);
    AssignTwice(db.hashes, key, s.fields, t.fields);
    AssignTwice(db.expires, key, s.deadline, t.deadline);
    hide Assign;
  }

  lemma AtSame(db: DB, key: Bytes, s: Slot)
    ensures At(With(db, key, s), key) == s
  {
  }

  lemma WithList(db: DB, key: Bytes, list: Option<seq<Bytes>>)
    ensures db.(lists := Assign(db.lists, key, list)) == With(db, key, At(db, key).(list := list))
  {
  }

  lemma WithMembers(db: DB, key: Bytes, members: Option<set<Bytes>>)
    ensures db.(sets := Assign(db.sets, key, members)) == With(db, key, At(db, key).(members := members))
  {
  }

  lemma WithFields(db: DB, key: Bytes, fields: Option<map<Bytes, Bytes>>)
    ensures db.(hashes := Assign(db.hashes, key, fields)) == With(db, key, At(db, key).(fields := fields))
  {
  }

  lemma WithText(db: DB, key: Bytes, text: Option<Bytes>)
    ensures db.(store := Assign(db.store, key, text)) == With(db, key, At(db, key).(text := text))
  {
  }

  lemma WithDeadline(db: DB, key: Bytes, deadline: Option<int>)
    ensures db.(expires := Assign(db.expires, key, deadline)) == With(db, key, At(db, key).(deadline := deadline))
  {
  }

  lemma WithVacant(db: DB, key: Bytes)
    ensures With(db, key, VACANT) ==
            DB(db.store - {key}, db.lists - {key}, db.sets - {key}, db.hashes - {key}, db.expires - {key})
  {
  }

  /** A key that has been looked up: what its slot is, and what replacing one part of it makes of the database. */
  lemma FoundList(m: DB, key: Bytes, now: int, value: Option<seq<Bytes>>)
    ensures var found, s := EvictKey(m, key, now), Evict(At(m, key), now);
            && At(found, key) == s
            && s.list == Find(found.lists, key)
            && With(m, key, s) == found
            && With(m, key, s.(list := value)) == found.(lists := Assign(found.lists, key, value))
  {
    var s := Evict(At(m, key), now);
    AtSame(m, key, s);
    WithList(EvictKey(m, key, now), key, value);
    WithTwice(m, key, s, s.(list := value));
    hide Assign;
  }

  lemma FoundSet(m: DB, key: Bytes, now: int, value: Option<set<Bytes>>)
    ensures var found, s := EvictKey(m, key, now), Evict(At(m, key), now);
            && At(found, key) == s
            && s.members == Find(found.sets, key)
            && With(m, key, s) == found
            && With(m, key, s.(members := value)) == found.(sets := Assign(found.sets, key, value))
  {
    var s := Evict(At(m, key), now);
    AtSame(m, key, s);
    WithMembers(EvictKey(m, key, now), key, value);
    WithTwice(m, key, s, s.(members := value));
    hide Assign;
  }

  lemma FoundHash(m: DB, key: Bytes, now: int, value: Option<map<Bytes, Bytes>>)
    ensures var found, s := EvictKey(m, key, now), Evict(At(m, key), now);
            && At(found, key) == s
            && s.fields == Find(found.hashes, key)
            && With(m, key, s) == found
            && With(m, key, s.(fields := value)) == found.(hashes := Assign(found.hashes, key, value))
  {
    var s := Evict(At(m, key), now);
    AtSame(m, key, s);
    WithFields(EvictKey(m, key, now), key, value);
    WithTwice(m, key, s, s.(fields := value));
    hide Assign;
  }

  lemma FoundText(m: DB, key: Bytes, now: int, value: Option<Bytes>)
    ensures var found, s := EvictKey(m, key, now), Evict(At(m, key), now);
            && At(found, key) == s
            && s.text == Find(found.store, key)
            && With(m, key, s) == found
            && With(m, key, s.(text := value)) == found.(store := Assign(found.store, key, value))
  {
    var s := Evict(At(m, key), now);
    AtSame(m, key, s);
    WithText(EvictKey(m, key, now), key, value);
    WithTwice(m, key, s, s.(text := value));
    hide Assign;
  }

  lemma FoundDeadline(m: DB, key: Bytes, now: int, value: Option<int>)
    ensures var found, s := EvictKey(m, key, now), Evict(At(m, key), now);
            && At(found, key) == s
            && s.deadline == Find(found.expires, key)
            && With(m, key, s) == found
            && With(m, key, s.(deadline := value)) == found.(expires := Assign(found.expires, key, value))
  {
    var s := Evict(At(m, key), now);
    AtSame(m, key, s);
    WithDeadline(EvictKey(m, key, now), key, value);
    WithTwice(m, key, s, s.(deadline := value));
    hide Assign;
  }

  /** The same for a key whose container has been got or created. */
  lemma CreatedList(m: DB, key: Bytes, now: int, created: DB, value: seq<Bytes>)
    requires var s := Evict(At(m, key), now); created == With(m, key, s.(list := Some(s.list.GetOr([]))))
    ensures var s := Evict(At(m, key), now);
            && key in created.lists && created.lists[key] == s.list.GetOr([])
            && With(m, key, s.(list := Some(value))) == created.(lists := created.lists[key := value])
  {
    var s := Evict(At(m, key), now);
    var t := s.(list := Some(s.list.GetOr([])));
    AtSame(m, key, t);
    WithList(created, key, Some(value));
    WithTwice(m, key, t, s.(list := Some(value)));
  }

  lemma CreatedSet(m: DB, key: Bytes, now: int, created: DB, value: set<Bytes>)
    requires var s := Evict(At(m, key), now); created == With(m, key, s.(members := Some(s.members.GetOr({}))))
    ensures var s := Evict(At(m, key), now);
            && key in created.sets && created.sets[key] == s.members.GetOr({})
            && With(m, key, s.(members := Some(value))) == created.(sets := created.sets[key := value])
  {
    var s := Evict(At(m, key), now);
    var t := s.(members := Some(s.members.GetOr({})));
    AtSame(m, key, t);
    WithMembers(created, key, Some(value));
    WithTwice(m, key, t, s.(members := Some(value)));
  }

  lemma CreatedHash(m: DB, key: Bytes, now: int, created: DB, value: map<Bytes, Bytes>)
    requires var s := Evict(At(m, key), now); created == With(m, key, s.(fields := Some(s.fields.GetOr(map[]))))
    ensures var s := Evict(At(m, key), now);
            && key in created.hashes && created.hashes[key] == s.fields.GetOr(map[])
            && With(m, key, s.(fields := Some(value))) == created.(hashes := created.hashes[key := value])
  {
    var s := Evict(At(m, key), now);
    var t := s.(fields := Some(s.fields.GetOr(map[])));
    AtSame(m, key, t);
    WithFields(created, key, Some(value));
    WithTwice(m, key, t, s.(fields := Some(value)));
  }

  lemma DropAfterPut<V>(m: map<Bytes, V>, key: Bytes, v: V)
    ensures m[key := v] - {key} == Assign(m, key, None)
    ensures m[key := v] == Assign(m, key, Some(v))
    ensures key in m && m[key] == v ==> m[key := v] == m
  {
  }

  // -------------------------------------------------------------------- the sweep

  lemma SweepIs(m: DB, now: int)
    ensures Sweep(m, now) == WithoutKeys(m, Overdue(m, now))
  {
  }

  lemma NothingGone(m: DB)
    ensures WithoutKeys(m, Elements([])) == m
  {
  }

  lemma MinusMore<V>(m: map<Bytes, V>, gone: set<Bytes>, key: Bytes)
    ensures m - gone - {key} == m - (gone + {key})
  {
  }

  /** Evicting one more overdue key, whether or not it has gone already. */
  lemma GoneStep(m: DB, gone: set<Bytes>, key: Bytes, now: int)
    requires key in Overdue(m, now)
    ensures EvictKey(WithoutKeys(m, gone), key, now) == WithoutKeys(m, gone + {key})
  {
    var w := WithoutKeys(m, gone);
    if key in gone {
      assert gone + {key} == gone;
      assert At(w, key) == VACANT;
      SelfWith(w, key);
    } else {
      WithVacant(w, key);
      MinusMore(m.store, gone, key);
      MinusMore(m.lists, gone, key);
      MinusMore(m.sets, gone, key);
      MinusMore(m.hashes, gone, key);
      MinusMore(m.expires, gone, key);
      assert At(w, key).deadline == Some(m.expires[key]);
      hide With, At;
    }
  }

  // ------------------------------------------------------- maps to container objects

  function ListContents(lists: map<Bytes, List>): map<Bytes, seq<Bytes>>
    reads lists.Values
  {
    map k | k in lists :: lists[k].items
  }

  function SetContents(sets: map<Bytes, Set>): map<Bytes, set<Bytes>>
    reads sets.Values
  {
    map k | k in sets :: sets[k].items
  }

  function HashContents(hashes: map<Bytes, Hash>): map<Bytes, map<Bytes, Bytes>>
    reads hashes.Values
  {
    map k | k in hashes :: hashes[k].fields
  }

  ghost predicate Injective<V>(m: map<Bytes, V>) {
    forall j, k :: j in m && k in m && m[j] == m[k] ==> j == k
  }

  lemma InjectivePut<V>(m: map<Bytes, V>, key: Bytes, v: V)
    requires Injective(m) && v !in m.Values
    ensures Injective(m[key := v])
  {
    var n := m[key := v];
    forall j, k | j in n && k in n && n[j] == n[k]
      ensures j == k
    {
      assert j in m ==> m[j] in m.Values;
      assert k in m ==> m[k] in m.Values;
    }
  }

  lemma ListsDrop(lists: map<Bytes, List>, key: Bytes)
    ensures ListContents(lists - {key}) == ListContents(lists) - {key}
    ensures (lists - {key}).Values <= lists.Values
    ensures Injective(lists) ==> Injective(lists - {key})
  {
  }

  lemma SetsDrop(sets: map<Bytes, Set>, key: Bytes)
    ensures SetContents(sets - {key}) == SetContents(sets) - {key}
    ensures (sets - {key}).Values <= sets.Values
    ensures Injective(sets) ==> Injective(sets - {key})
  {
  }

  lemma HashesDrop(hashes: map<Bytes, Hash>, key: Bytes)
    ensures HashContents(hashes - {key}) == HashContents(hashes) - {key}
    ensures (hashes - {key}).Values <= hashes.Values
    ensures Injective(hashes) ==> Injective(hashes - {key})
  {
  }

  lemma ListsPut(lists: map<Bytes, List>, key: Bytes, list: List)
    ensures ListContents(lists[key := list]) == ListContents(lists)[key := list.items]
    ensures lists[key := list].Values <= lists.Values + {list}
  {
  }

  lemma SetsPut(sets: map<Bytes, Set>, key: Bytes, obj: Set)
    ensures SetContents(sets[key := obj]) == SetContents(sets)[key := obj.items]
    ensures sets[key := obj].Values <= sets.Values + {obj}
  {
  }

  lemma HashesPut(hashes: map<Bytes, Hash>, key: Bytes, hash: Hash)
    ensures HashContents(hashes[key := hash]) == HashContents(hashes)[key := hash.fields]
    ensures hashes[key := hash].Values <= hashes.Values + {hash}
  {
  }

  lemma FindIs<V>(m: map<Bytes, V>, key: Bytes)
    ensures Find(m, key) == if key in m then Some(m[key]) else None
  {
  }

  lemma MinusAbsent<V>(m: map<Bytes, V>, key: Bytes)
    ensures key !in m ==> m - {key} == m
  {
  }

  lemma HoldingsAre(m: DB, key: Bytes)
    ensures Holdings(At(m, key)) ==
            (if key in m.store then 1 else 0) + (if key in m.lists then 1 else 0)
            + (if key in m.sets then 1 else 0) + (if key in m.hashes then 1 else 0)
  {
  }

  lemma ListKeys(lists: map<Bytes, List>)
    ensures ListContents(lists).Keys == lists.Keys
  {
  }

  lemma SetKeys(sets: map<Bytes, Set>)
    ensures SetContents(sets).Keys == sets.Keys
  {
  }

  lemma HashKeys(hashes: map<Bytes, Hash>)
    ensures HashContents(hashes).Keys == hashes.Keys
  {
  }

  /** Before updating one list in place: it is under no other key. */
  lemma ListsBefore(lists: map<Bytes, List>, key: Bytes)
    requires Injective(lists) && key in lists
    ensures ListContents(lists).Keys == lists.Keys
    ensures forall k :: k in lists ==> ListContents(lists)[k] == lists[k].items
    ensures forall k :: k in lists && k != key ==> lists[k] != lists[key]
    ensures lists[key] in lists.Values
  {
  }

  /** After it: what is under that key has changed and nothing else. */
  lemma ListsAfter(lists: map<Bytes, List>, key: Bytes, before: map<Bytes, seq<Bytes>>)
    requires key in lists && before.Keys == lists.Keys
    requires forall k :: k in lists && k != key ==> lists[k].items == before[k]
    ensures ListContents(lists) == before[key := lists[key].items]
  {
  }

  lemma SetsBefore(sets: map<Bytes, Set>, key: Bytes)
    requires Injective(sets) && key in sets
    ensures SetContents(sets).Keys == sets.Keys
    ensures forall k :: k in sets ==> SetContents(sets)[k] == sets[k].items
    ensures forall k :: k in sets && k != key ==> sets[k] != sets[key]
    ensures sets[key] in sets.Values
  {
  }

  lemma SetsAfter(sets: map<Bytes, Set>, key: Bytes, before: map<Bytes, set<Bytes>>)
    requires key in sets && before.Keys == sets.Keys
    requires forall k :: k in sets && k != key ==> sets[k].items == before[k]
    ensures SetContents(sets) == before[key := sets[key].items]
  {
  }

  lemma HashesBefore(hashes: map<Bytes, Hash>, key: Bytes)
    requires Injective(hashes) && key in hashes
    ensures HashContents(hashes).Keys == hashes.Keys
    ensures forall k :: k in hashes ==> HashContents(hashes)[k] == hashes[k].fields
    ensures forall k :: k in hashes && k != key ==> hashes[k] != hashes[key]
    ensures hashes[key] in hashes.Values
  {
  }

  lemma HashesAfter(hashes: map<Bytes, Hash>, key: Bytes, before: map<Bytes, map<Bytes, Bytes>>)
    requires key in hashes && before.Keys == hashes.Keys
    requires forall k :: k in hashes && k != key ==> hashes[k].fields == before[k]
    ensures HashContents(hashes) == before[key := hashes[key].fields]
  {
  }

  class Database {
    var store: map<Bytes, Bytes>
    var lists: map<Bytes, List>
    var sets: map<Bytes, Set>
    var hashes: map<Bytes, Hash>
    var expires: map<Bytes, int>

    constructor ()
      ensures Valid() && Model() == EMPTY_DB && fresh(Repr())
    {
      store, lists, sets, hashes, expires := map[], map[], map[], map[], map[];
    }

    /** No two keys share a container. */
    ghost predicate Valid()
      reads this
    {
      Injective(lists) && Injective(sets) && Injective(hashes)
    }

    ghost function Repr(): set<object>
      reads this
    {
      {this} + lists.Values + sets.Values + hashes.Values
    }

    function Model(): DB
      reads Repr()
    {
      DB(store, ListContents(lists), SetContents(sets), HashContents(hashes), expires)
    }

    lemma ModelIs()
      ensures Model() == DB(store, ListContents(lists), SetContents(sets), HashContents(hashes), expires)
      ensures Valid() <==> Injective(lists) && Injective(sets) && Injective(hashes)
      ensures Repr() == {this} + lists.Values + sets.Values + hashes.Values
    {
    }

    method DeleteText(key: Bytes)
      requires Valid()
      modifies this
      ensures Valid() && Repr() == old(Repr())
      ensures Model() == old(Model()).(store := old(Model()).store - {key})
    {
      hide *;
      ModelIs();
      store := store - {key};
      ModelIs();
    }

    method DeleteList(key: Bytes)
      requires Valid()
      modifies this
      ensures Valid() && Repr() <= old(Repr())
      ensures Model() == old(Model()).(lists := old(Model()).lists - {key})
    {
      hide *;
      ModelIs();
      ListsDrop(lists, key);
      lists := lists - {key};
      ModelIs();
    }

    method DeleteSet(key: Bytes)
      requires Valid()
      modifies this
      ensures Valid() && Repr() <= old(Repr())
      ensures Model() == old(Model()).(sets := old(Model()).sets - {key})
    {
      hide *;
      ModelIs();
      SetsDrop(sets, key);
      sets := sets - {key};
      ModelIs();
    }

    method DeleteHash(key: Bytes)
      requires Valid()
      modifies this
      ensures Valid() && Repr() <= old(Repr())
      ensures Model() == old(Model()).(hashes := old(Model()).hashes - {key})
    {
      hide *;
      ModelIs();
      HashesDrop(hashes, key);
      hashes := hashes - {key};
      ModelIs();
    }

    method DeleteDeadline(key: Bytes)
      requires Valid()
      modifies this
      ensures Valid() && Repr() == old(Repr())
      ensures Model() == old(Model()).(expires := old(Model()).expires - {key})
    {
      hide *;
      ModelIs();
      expires := expires - {key};
      ModelIs();
    }

    /** Deletes a key from all five maps. */
    method Forget(key: Bytes)
      requires Valid()
      modifies this
      ensures Valid() && Repr() <= old(Repr())
      ensures Model() == With(old(Model()), key, VACANT)
    {
      hide *;
      WithVacant(Model(), key);
      DeleteText(key);
      DeleteList(key);
      DeleteSet(key);
      DeleteHash(key);
      DeleteDeadline(key);
    }

    /** The lazy eviction every lookup starts with; `now` is the reading of the clock. */
    method ExpireIfNeeded(key: Bytes, now: int)
      requires Valid()
      modifies this
      ensures Valid() && Repr() <= old(Repr())
      ensures Model() == EvictKey(old(Model()), key, now)
    {
      SelfWith(Model(), key);
      hide ListContents, SetContents, HashContents, Injective, With;
      if key in expires && expires[key] <= now {
        Forget(key);
      }
    }

    method GetList(key: Bytes, now: int) returns (list: Option<List>)
      requires Valid()
      modifies this
      ensures Valid() && Repr() <= old(Repr())
      ensures Model() == EvictKey(old(Model()), key, now)
      ensures list == Find(lists, key)
    {
      ExpireIfNeeded(key, now);
      return Find(lists, key);
    }

    method NewList(key: Bytes) returns (list: List)
      requires Valid() && key !in lists
      modifies this
      ensures Valid() && fresh(Repr() - old(Repr()))
      ensures key in lists && list == lists[key]
      ensures Model() == old(Model()).(lists := old(Model()).lists[key := []])
    {
      hide *;
      ModelIs();
      ghost var before := DB(store, ListContents(lists), SetContents(sets), HashContents(hashes), expires);
      list := new List();
      assert DB(store, ListContents(lists), SetContents(sets), HashContents(hashes), expires) == before;
      ListsPut(lists, key, list);
      InjectivePut(lists, key, list);
      lists := lists[key := list];
      ModelIs();
      assert Repr() <= old(Repr()) + {list};
    }

    method GetOrCreateList(key: Bytes, now: int) returns (list: List)
      requires Valid()
      modifies this
      ensures Valid() && fresh(Repr() - old(Repr()))
      ensures key in lists && list == lists[key]
      ensures var s := Evict(At(old(Model()), key), now);
              Model() == With(old(Model()), key, s.(list := Some(s.list.GetOr([]))))
    {
      ExpireIfNeeded(key, now);
      ghost var m, s := Model(), Evict(At(old(Model()), key), now);
      AtSame(old(Model()), key, s);
      if key in lists {
        return lists[key];
      }
      WithList(m, key, Some([]));
      WithTwice(old(Model()), key, s, s.(list := Some([])));
      assert s.list.None?;
      hide *;
      list := NewList(key);
    }

    method GetSet(key: Bytes, now: int) returns (obj: Option<Set>)
      requires Valid()
      modifies this
      ensures Valid() && Repr() <= old(Repr())
      ensures Model() == EvictKey(old(Model()), key, now)
      ensures obj == Find(sets, key)
    {
      ExpireIfNeeded(key, now);
      return Find(sets, key);
    }

    method NewSet(key: Bytes) returns (obj: Set)
      requires Valid() && key !in sets
      modifies this
      ensures Valid() && fresh(Repr() - old(Repr()))
      ensures key in sets && obj == sets[key]
      ensures Model() == old(Model()).(sets := old(Model()).sets[key := {}])
    {
      hide *;
      ModelIs();
      ghost var before := DB(store, ListContents(lists), SetContents(sets), HashContents(hashes), expires);
      obj := new Set();
      assert DB(store, ListContents(lists), SetContents(sets), HashContents(hashes), expires) == before;
      SetsPut(sets, key, obj);
      InjectivePut(sets, key, obj);
      sets := sets[key := obj];
      ModelIs();
      assert Repr() <= old(Repr()) + {obj};
    }

    method GetOrCreateSet(key: Bytes, now: int) returns (obj: Set)
      requires Valid()
      modifies this
      ensures Valid() && fresh(Repr() - old(Repr()))
      ensures key in sets && obj == sets[key]
      ensures var s := Evict(At(old(Model()), key), now);
              Model() == With(old(Model()), key, s.(members := Some(s.members.GetOr({}))))
    {
      ExpireIfNeeded(key, now);
      ghost var m, s := Model(), Evict(At(old(Model()), key), now);
      AtSame(old(Model()), key, s);
      if key in sets {
        return sets[key];
      }
      WithMembers(m, key, Some({}));
      WithTwice(old(Model()), key, s, s.(members := Some({})));
      assert s.members.None?;
      hide *;
      obj := NewSet(key);
    }

    method GetHash(key: Bytes, now: int) returns (obj: Option<Hash>)
      requires Valid()
      modifies this
      ensures Valid() && Repr() <= old(Repr())
      ensures Model() == EvictKey(old(Model()), key, now)
      ensures obj == Find(hashes, key)
    {
      ExpireIfNeeded(key, now);
      return Find(hashes, key);
    }

    method NewHash(key: Bytes) returns (obj: Hash)
      requires Valid() && key !in hashes
      modifies this
      ensures Valid() && fresh(Repr() - old(Repr()))
      ensures key in hashes && obj == hashes[key]
      ensures Model() == old(Model()).(hashes := old(Model()).hashes[key := map[]])
    {
      hide *;
      ModelIs();
      ghost var before := DB(store, ListContents(lists), SetContents(sets), HashContents(hashes), expires);
      obj := new Hash();
      assert DB(store, ListContents(lists), SetContents(sets), HashContents(hashes), expires) == before;
      HashesPut(hashes, key, obj);
      InjectivePut(hashes, key, obj);
      hashes := hashes[key := obj];
      ModelIs();
      assert Repr() <= old(Repr()) + {obj};
    }

    method GetOrCreateHash(key: Bytes, now: int) returns (obj: Hash)
      requires Valid()
      modifies this
      ensures Valid() && fresh(Repr() - old(Repr()))
      ensures key in hashes && obj == hashes[key]
      ensures var s := Evict(At(old(Model()), key), now);
              Model() == With(old(Model()), key, s.(fields := Some(s.fields.GetOr(map[]))))
    {
      ExpireIfNeeded(key, now);
      ghost var m, s := Model(), Evict(At(old(Model()), key), now);
      AtSame(old(Model()), key, s);
      if key in hashes {
        return hashes[key];
      }
      WithFields(m, key, Some(map[]));
      WithTwice(old(Model()), key, s, s.(fields := Some(map[])));
      assert s.fields.None?;
      hide *;
      obj := NewHash(key);
    }

    method PutText(key: Bytes, value: Bytes)
      requires Valid()
      modifies this
      ensures Valid() && Repr() == old(Repr())
      ensures Model() == old(Model()).(store := old(Model()).store[key := value])
    {
      hide *;
      ModelIs();
      store := store[key := value];
      ModelIs();
    }

    method PutDeadline(key: Bytes, deadline: int)
      requires Valid()
      modifies this
      ensures Valid() && Repr() == old(Repr())
      ensures Model() == old(Model()).(expires := old(Model()).expires[key := deadline])
    {
      hide *;
      ModelIs();
      expires := expires[key := deadline];
      ModelIs();
    }

    lemma AtIs(key: Bytes)
      ensures var s := At(Model(), key);
              && s.text == Find(store, key) && (s.list.Some? <==> key in lists)
              && (s.members.Some? <==> key in sets) && (s.fields.Some? <==> key in hashes)
              && s.deadline == Find(expires, key)
    {
    }

    predicate KeyExistsLocked(key: Bytes)
      reads this
    {
      key in store || key in lists || key in sets || key in hashes
    }

    lemma KeyExistsIs(key: Bytes)
      ensures KeyExistsLocked(key) <==> Exists(At(Model(), key))
    {
      AtIs(key);
      hide At;
    }

    /** Each type the key holds counts once, after the eviction. */
    method DeleteKey(key: Bytes, now: int) returns (deleted: nat)
      requires Valid()
      modifies this
      ensures Valid() && Repr() <= old(Repr())
      ensures Model() == With(old(Model()), key, VACANT)
      ensures deleted == Holdings(Evict(At(old(Model()), key), now))
    {
      ghost var s := Evict(At(Model(), key), now);
      FoundText(Model(), key, now, None);
      WithTwice(Model(), key, s, VACANT);
      hide *;
      ExpireIfNeeded(key, now);
      deleted := DeleteFound(key);
    }

    /** The four deletions of `DeleteKey`, each counting one if there was something to delete. */
    method DropText(key: Bytes) returns (n: nat)
      requires Valid()
      modifies this
      ensures Valid() && Repr() <= old(Repr())
      ensures Model() == old(Model()).(store := old(Model()).store - {key})
      ensures n == if key in old(Model()).store then 1 else 0
    {
      hide *;
      KeysAre();
      MinusAbsent(Model().store, key);
      if key !in store {
        return 0;
      }
      DeleteText(key);
      return 1;
    }

    method DropList(key: Bytes) returns (n: nat)
      requires Valid()
      modifies this
      ensures Valid() && Repr() <= old(Repr())
      ensures Model() == old(Model()).(lists := old(Model()).lists - {key})
      ensures n == if key in old(Model()).lists then 1 else 0
    {
      hide *;
      KeysAre();
      MinusAbsent(Model().lists, key);
      if key !in lists {
        return 0;
      }
      DeleteList(key);
      return 1;
    }

    method DropSet(key: Bytes) returns (n: nat)
      requires Valid()
      modifies this
      ensures Valid() && Repr() <= old(Repr())
      ensures Model() == old(Model()).(sets := old(Model()).sets - {key})
      ensures n == if key in old(Model()).sets then 1 else 0
    {
      hide *;
      KeysAre();
      MinusAbsent(Model().sets, key);
      if key !in sets {
        return 0;
      }
      DeleteSet(key);
      return 1;
    }

    method DropHash(key: Bytes) returns (n: nat)
      requires Valid()
      modifies this
      ensures Valid() && Repr() <= old(Repr())
      ensures Model() == old(Model()).(hashes := old(Model()).hashes - {key})
      ensures n == if key in old(Model()).hashes then 1 else 0
    {
      hide *;
      KeysAre();
      MinusAbsent(Model().hashes, key);
      if key !in hashes {
        return 0;
      }
      DeleteHash(key);
      return 1;
    }

    method DeleteFound(key: Bytes) returns (deleted: nat)
      requires Valid()
      modifies this
      ensures Valid() && Repr() <= old(Repr())
      ensures Model() == With(old(Model()), key, VACANT)
      ensures deleted == Holdings(At(old(Model()), key))
    {
      hide *;
      WithVacant(Model(), key);
      HoldingsAre(Model(), key);
      var texts := DropText(key);
      var lists := DropList(key);
      var sets := DropSet(key);
      var hashes := DropHash(key);
      DeleteDeadline(key);
      return texts + lists + sets + hashes;
    }

    lemma KeysAre()
      ensures Model().store.Keys == store.Keys && Model().lists.Keys == lists.Keys
      ensures Model().sets.Keys == sets.Keys && Model().hashes.Keys == hashes.Keys
    {
    }

    /** The first half of the active sweep: the keys strictly past their deadline, in map iteration order. */
    method CollectOverdue(now: int) returns (expired: seq<Bytes>)
      ensures Elements(expired) == Overdue(Model(), now)
    {
      expired := [];
      var left := expires.Keys;
      while left != {}
        invariant left <= expires.Keys
        invariant Elements(expired) == set k | k in expires.Keys - left && expires[k] < now
        decreases left
      {
        var k :| k in left;
        left := left - {k};
        if expires[k] < now {
          ElementsStep(expired + [k], |expired|);
          assert (expired + [k])[..|expired|] == expired;
          assert (expired + [k])[..|expired| + 1] == expired + [k];
          expired := expired + [k];
        }
      }
    }

    method SweepExpired(now: int)
      requires Valid()
      modifies this
      ensures Valid() && Repr() <= old(Repr())
      ensures Model() == Sweep(old(Model()), now)
    {
      var expired := CollectOverdue(now);
      assert Elements(expired) == Overdue(Model(), now);
      SweepIs(Model(), now);
      hide *;
      NothingGone(Model());
      ghost var m := Model();
      assert expired[..0] == [];
      var i := 0;
      while i < |expired|
        invariant 0 <= i <= |expired|
        invariant Valid() && Repr() <= old(Repr())
        invariant Elements(expired) == Overdue(m, now)
        invariant Model() == WithoutKeys(m, Elements(expired[..i]))
      {
        ElementsStep(expired, i);
        GoneStep(m, Elements(expired[..i]), expired[i], now);
        ExpireIfNeeded(expired[i], now);
        i := i + 1;
      }
      assert expired[..i] == expired;
    }
  }
}
