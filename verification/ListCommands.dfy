/** The list commands as the handlers run them on a database object. */
module ListCommands {
  import opened Wrappers
  import opened GoText
  import opened Sequences
  import opened Containers
  import opened Keyspace
  import opened Commands
  import opened Database

  // ------------------------------------------------------- single-key executions

  /** A command on one key, given what it does to the slot. */
  lemma KeyExec(c: Cmd, a: seq<Bytes>, m: DB, e: Env, s: Slot, r: Reply)
    requires SingleKey(c) && a != [] && OnKey(c, a, At(m, a[0]), e) == (s, r)
    ensures Exec(c, a, m, e) == (With(m, a[0], s), r)
  {
    hide With, OnKey;
  }

  /** A command that answers before it looks the key up. */
  lemma KeyRefused(c: Cmd, a: seq<Bytes>, m: DB, e: Env, r: Reply)
    requires SingleKey(c)
    requires if a == [] then r == Fail(WrongArity) else OnKey(c, a, At(m, a[0]), e) == (At(m, a[0]), r)
    ensures Exec(c, a, m, e) == (m, r)
  {
    if a != [] {
      SelfWith(m, a[0]);
      KeyExec(c, a, m, e, At(m, a[0]), r);
    } else {
      hide OnKey;
    }
  }

  lemma PushExec(op: ListOp, a: seq<Bytes>, m: DB, e: Env, created: DB, longer: seq<Bytes>)
    requires |a| >= 2 && (op == LPUSH || op == RPUSH)
    requires var s := Evict(At(m, a[0]), e.now); created == With(m, a[0], s.(list := Some(s.list.GetOr([]))))
    requires a[0] in created.lists
    requires longer == if op == LPUSH then LPushed(created.lists[a[0]], a[1..]) else created.lists[a[0]] + a[1..]
    ensures Exec(OnList(op), a, m, e) == (created.(lists := created.lists[a[0] := longer]), Int(|longer|))
  {
    var s := Evict(At(m, a[0]), e.now);
    var items := s.list.GetOr([]);
    AtSame(m, a[0], s.(list := Some(items)));
    WithList(created, a[0], Some(longer));
    WithTwice(m, a[0], s.(list := Some(items)), s.(list := Some(longer)));
    KeyExec(OnList(op), a, m, e, s.(list := Some(longer)), Int(|longer|));
  }

  lemma PushRefused(op: ListOp, a: seq<Bytes>, m: DB, e: Env)
    requires |a| < 2 && (op == LPUSH || op == RPUSH)
    ensures Exec(OnList(op), a, m, e) == (m, Fail(WrongArity))
  {
    KeyRefused(OnList(op), a, m, e, Fail(WrongArity));
  }

  /** LPUSH and RPUSH. */
  method Push(op: ListOp, args: seq<Bytes>, db: Database, e: Env) returns (reply: Reply)
    requires db.Valid() && (op == LPUSH || op == RPUSH)
    modifies db.Repr()
    ensures db.Valid() && fresh(db.Repr() - old(db.Repr()))
    ensures (db.Model(), reply) == Exec(OnList(op), args, old(db.Model()), e)
  {
    hide *;
    if |args| < 2 {
      PushRefused(op, args, db.Model(), e);
      return Fail(WrongArity);
    }
    db.ModelIs();
    var list := db.GetOrCreateList(args[0], e.now);
    ghost var created := db.Model();
    db.ModelIs();
    var length := PushInto(list, args[0], args[1..], op == LPUSH, db);
    PushExec(op, args, old(db.Model()), e, created, list.items);
    return Int(length);
  }

  method PushInto(list: List, key: Bytes, values: seq<Bytes>, left: bool, db: Database) returns (length: nat)
    requires db.Valid() && key in db.lists && list == db.lists[key]
    modifies list
    ensures db.Valid() && db.Repr() == old(db.Repr())
    ensures key in old(db.Model()).lists
    ensures db.Model() == old(db.Model()).(lists := old(db.Model()).lists[key := list.items])
    ensures var items := old(db.Model()).lists[key];
            list.items == if left then LPushed(items, values) else items + values
    ensures length == |list.items|
  {
    hide *;
    ghost var m := db.Model();
    db.ModelIs();
    ListsBefore(db.lists, key);
    if left {
      length := list.LPush(values);
    } else {
      length := list.RPush(values);
    }
    ListsAfter(db.lists, key, m.lists);
    db.ModelIs();
  }

  // -------------------------------------------------------------------- pops

  lemma PopsNothing(m: DB, key: Bytes, now: int, left: bool)
    requires var found := EvictKey(m, key, now); key !in found.lists || found.lists[key] == []
    ensures var s := Evict(At(m, key), now); PopEnd(s, left) == (s, None) && With(m, key, s) == EvictKey(m, key, now)
  {
    AtSame(m, key, Evict(At(m, key), now));
    hide With;
  }

  lemma PopsOne(m: DB, key: Bytes, now: int, left: bool, found: DB, v: Bytes, rest: seq<Bytes>)
    requires found == EvictKey(m, key, now) && key in found.lists
    requires found.lists[key] == if left then [v] + rest else rest + [v]
    ensures var (s, popped) := PopEnd(Evict(At(m, key), now), left);
            popped == Some(v) && With(m, key, s) == found.(lists := Assign(found.lists, key, ListOrNone(rest)))
  {
    var s := Evict(At(m, key), now);
    AtSame(m, key, s);
    WithList(found, key, ListOrNone(rest));
    WithTwice(m, key, s, s.(list := ListOrNone(rest)));
    hide With, Assign;
    var items := found.lists[key];
    assert s.list == Some(items);
    assert if left then items[1..] == rest && items[0] == v
           else items[..|items| - 1] == rest && items[|items| - 1] == v;
  }

  /** Look a list up, take one item off an end, and delete the key with the last item. */
  method PopOne(key: Bytes, db: Database, left: bool, now: int) returns (value: Option<Bytes>)
    requires db.Valid()
    modifies db.Repr()
    ensures db.Valid() && db.Repr() <= old(db.Repr())
    ensures (db.Model(), value) == var (s, v) := PopEnd(Evict(At(old(db.Model()), key), now), left);
                                   (With(old(db.Model()), key, s), v)
  {
    ghost var m := db.Model();
    var list := db.GetList(key, now);
    if list.None? {
      PopsNothing(m, key, now, left);
      return None;
    }
    value := PopFrom(list.value, key, db, left, m, now);
  }

  method TakeEnd(list: List, key: Bytes, left: bool, db: Database) returns (value: Option<Bytes>)
    requires db.Valid() && key in db.lists && list == db.lists[key]
    modifies list
    ensures db.Valid() && db.Repr() == old(db.Repr())
    ensures key in old(db.Model()).lists
    ensures db.Model() == old(db.Model()).(lists := old(db.Model()).lists[key := list.items])
    ensures var items := old(db.Model()).lists[key];
            if items == [] then value == None && list.items == []
            else value.Some? && items == if left then [value.value] + list.items else list.items + [value.value]
  {
    hide *;
    ghost var m := db.Model();
    db.ModelIs();
    ListsBefore(db.lists, key);
    if left {
      value := list.LPop();
    } else {
      value := list.RPop();
    }
    ListsAfter(db.lists, key, m.lists);
    db.ModelIs();
  }

  method PopFrom(list: List, key: Bytes, db: Database, left: bool, ghost m: DB, ghost now: int)
    returns (value: Option<Bytes>)
    requires db.Valid() && key in db.lists && list == db.lists[key]
    requires db.Model() == EvictKey(m, key, now)
    modifies db, list
    ensures db.Valid() && db.Repr() <= old(db.Repr())
    ensures (db.Model(), value) == var (s, v) := PopEnd(Evict(At(m, key), now), left); (With(m, key, s), v)
  {
    hide *;
    ghost var found := db.Model();
    value := TakeEnd(list, key, left, db);
    DropAfterPut(found.lists, key, list.items);
    OrNone(list.items);
    if value.None? {
      PopsNothing(m, key, now, left);
      return;
    }
    PopsOne(m, key, now, left, found, value.value, list.items);
    if list.items == [] {
      db.DeleteList(key);
    }
  }

  lemma PopExec(op: ListOp, a: seq<Bytes>, m: DB, e: Env)
    requires op == LPOP || op == RPOP
    ensures if |a| != 1 then Exec(OnList(op), a, m, e) == (m, Fail(WrongArity))
            else var (s, v) := PopEnd(Evict(At(m, a[0]), e.now), op == LPOP);
                 Exec(OnList(op), a, m, e) == (With(m, a[0], s), if v.Some? then Bulk(v.value) else Nil)
  {
    if |a| != 1 {
      KeyRefused(OnList(op), a, m, e, Fail(WrongArity));
    } else {
      var (s, v) := PopEnd(Evict(At(m, a[0]), e.now), op == LPOP);
      KeyExec(OnList(op), a, m, e, s, if v.Some? then Bulk(v.value) else Nil);
    }
  }

  /** LPOP and RPOP. */
  method Pop(op: ListOp, args: seq<Bytes>, db: Database, e: Env) returns (reply: Reply)
    requires db.Valid() && (op == LPOP || op == RPOP)
    modifies db.Repr()
    ensures db.Valid() && db.Repr() <= old(db.Repr())
    ensures (db.Model(), reply) == Exec(OnList(op), args, old(db.Model()), e)
  {
    hide *;
    PopExec(op, args, db.Model(), e);
    if |args| != 1 {
      return Fail(WrongArity);
    }
    var value := PopOne(args[0], db, op == LPOP, e.now);
    return if value.Some? then Bulk(value.value) else Nil;
  }

  lemma ScanStep(keys: seq<Bytes>, i: nat, m: DB, left: bool, now: int)
    requires i < |keys|
    ensures var (s, v) := PopEnd(Evict(At(m, keys[i]), now), left);
            ScanPop(keys[i..], m, left, now) ==
            if v.Some? then (With(m, keys[i], s), Some((keys[i], v.value)))
            else ScanPop(keys[i + 1..], With(m, keys[i], s), left, now)
  {
    assert keys[i..][1..] == keys[i + 1..];
  }

  lemma ScanEnds(keys: seq<Bytes>, m: DB, left: bool, now: int)
    ensures ScanPop(keys[|keys|..], m, left, now) == (m, None)
    ensures keys[0..] == keys
  {
  }

  /** One scan of a blocking pop over its keys. */
  method Scan(keys: seq<Bytes>, db: Database, left: bool, now: int) returns (found: Option<(Bytes, Bytes)>)
    requires db.Valid()
    modifies db.Repr()
    ensures db.Valid() && db.Repr() <= old(db.Repr())
    ensures (db.Model(), found) == ScanPop(keys, old(db.Model()), left, now)
  {
    hide *;
    ScanEnds(keys, db.Model(), left, now);
    var i := 0;
    while i < |keys|
      invariant 0 <= i <= |keys|
      invariant db.Valid() && db.Repr() <= old(db.Repr())
      invariant ScanPop(keys, old(db.Model()), left, now) == ScanPop(keys[i..], db.Model(), left, now)
    {
      ScanStep(keys, i, db.Model(), left, now);
      var value := PopOne(keys[i], db, left, now);
      if value.Some? {
        return Some((keys[i], value.value));
      }
      i := i + 1;
    }
    ScanEnds(keys, db.Model(), left, now);
    return None;
  }

  lemma BlockingExec(op: KeysOp, a: seq<Bytes>, m: DB, e: Env)
    requires op == BLPOP || op == BRPOP
    ensures |a| < 2 ==> Exec(OnKeys(op), a, m, e) == (m, Fail(WrongArity))
    ensures |a| >= 2 && !e.timeoutOk ==> Exec(OnKeys(op), a, m, e) == (m, Fail(BadTimeout))
    ensures |a| >= 2 && e.timeoutOk ==>
              var (m', popped) := ScanPop(a[..|a| - 1], m, op == BLPOP, e.now);
              Exec(OnKeys(op), a, m, e) ==
              (m', if popped.Some? then Many([Bulk(popped.value.0), Bulk(popped.value.1)]) else Nil)
  {
  }

  /** BLPOP or BRPOP at the moment it answers; see the module on waiting for what comes before. */
  method BlockingPop(op: KeysOp, args: seq<Bytes>, db: Database, e: Env) returns (reply: Reply)
    requires db.Valid() && (op == BLPOP || op == BRPOP)
    modifies db.Repr()
    ensures db.Valid() && db.Repr() <= old(db.Repr())
    ensures (db.Model(), reply) == Exec(OnKeys(op), args, old(db.Model()), e)
  {
    hide *;
    BlockingExec(op, args, db.Model(), e);
    if |args| < 2 {
      return Fail(WrongArity);
    }
    if !e.timeoutOk {
      return Fail(BadTimeout);
    }
    var popped := Scan(args[..|args| - 1], db, op == BLPOP, e.now);
    return if popped.Some? then Many([Bulk(popped.value.0), Bulk(popped.value.1)]) else Nil;
  }

  // --------------------------------------------------------------- LSET and LREM

  lemma ListEdit(op: ListOp, a: seq<Bytes>, m: DB, e: Env, n: int64)
    requires op == LSET || op == LREM
    requires |a| == 3 && Atoi(a[1]) == Some(n)
    ensures var s := Evict(At(m, a[0]), e.now);
            var (s', r) := if op == LSET then SetItem(s, n, a[2]) else RemoveItems(s, n, a[2]);
            Exec(OnList(op), a, m, e) == (With(m, a[0], s'), r)
  {
    var s := Evict(At(m, a[0]), e.now);
    var (s', r) := if op == LSET then SetItem(s, n, a[2]) else RemoveItems(s, n, a[2]);
    hide SetItem, RemoveItems;
    KeyExec(OnList(op), a, m, e, s', r);
  }

  lemma ListEditRefused(op: ListOp, a: seq<Bytes>, m: DB, e: Env)
    requires op == LSET || op == LREM
    ensures |a| != 3 ==> Exec(OnList(op), a, m, e) == (m, Fail(WrongArity))
    ensures |a| == 3 && Atoi(a[1]).None? ==> Exec(OnList(op), a, m, e) == (m, Fail(NotAnInteger))
  {
    hide SetItem, RemoveItems;
    if |a| != 3 {
      KeyRefused(OnList(op), a, m, e, Fail(WrongArity));
    } else if Atoi(a[1]).None? {
      KeyRefused(OnList(op), a, m, e, Fail(NotAnInteger));
    }
  }

  method LSet(args: seq<Bytes>, db: Database, e: Env) returns (reply: Reply)
    requires db.Valid()
    modifies db.Repr()
    ensures db.Valid() && db.Repr() <= old(db.Repr())
    ensures (db.Model(), reply) == Exec(OnList(LSET), args, old(db.Model()), e)
  {
    ghost var m := db.Model();
    hide *;
    ListEditRefused(LSET, args, m, e);
    if |args| != 3 {
      return Fail(WrongArity);
    }
    var key, index, value := args[0], Atoi(args[1]), args[2];
    if index.None? {
      return Fail(NotAnInteger);
    }
    ListEdit(LSET, args, m, e, index.value);
    var list := db.GetList(key, e.now);
    if list.None? {
      MissingList(m, key, e.now, index.value, value);
      db.ModelIs();
      return Fail(NoSuchKey);
    }
    reply := SetIn(list.value, index.value, value, key, db, m, e.now);
  }

  lemma MissingList(m: DB, key: Bytes, now: int, n: int64, value: Bytes)
    requires key !in EvictKey(m, key, now).lists
    ensures var s := Evict(At(m, key), now);
            && SetItem(s, n, value) == (s, Fail(NoSuchKey))
            && RemoveItems(s, n, value) == (s, Int(0))
            && With(m, key, s) == EvictKey(m, key, now)
  {
    FoundList(m, key, now, None);
  }

  lemma SetItemIs(m: DB, key: Bytes, now: int, n: int64, value: Bytes)
    requires var found := EvictKey(m, key, now); key in found.lists
    ensures var found, s := EvictKey(m, key, now), Evict(At(m, key), now);
            var items := found.lists[key];
            var p := Position(n, |items|);
            var (s', r) := SetItem(s, n, value);
            && r == (if 0 <= p < |items| then OK else Fail(IndexOutOfRange))
            && With(m, key, s') ==
               found.(lists := found.lists[key := if 0 <= p < |items| then items[p := value] else items])
  {
    var found := EvictKey(m, key, now);
    var items := found.lists[key];
    var p := Position(n, |items|);
    FoundList(m, key, now, Some(if 0 <= p < |items| then items[p := value] else items));
    DropAfterPut(found.lists, key, items);
  }

  method SetIn(list: List, index: int64, value: Bytes, key: Bytes, db: Database, ghost m: DB, ghost now: int)
    returns (reply: Reply)
    requires db.Valid() && key in db.lists && list == db.lists[key]
    requires db.Model() == EvictKey(m, key, now)
    modifies list
    ensures db.Valid() && db.Repr() == old(db.Repr())
    ensures (db.Model(), reply) == var (s, r) := SetItem(Evict(At(m, key), now), index, value); (With(m, key, s), r)
  {
    ghost var found := db.Model();
    db.ModelIs();
    ListsBefore(db.lists, key);
    SetItemIs(m, key, now, index, value);
    hide *;
    var ok := list.LSet(index, value);
    ListsAfter(db.lists, key, found.lists);
    db.ModelIs();
    return if ok then OK else Fail(IndexOutOfRange);
  }

  lemma RemoveItemsIs(m: DB, key: Bytes, now: int, n: int64, value: Bytes)
    requires var found := EvictKey(m, key, now); key in found.lists
    ensures var found, s := EvictKey(m, key, now), Evict(At(m, key), now);
            var left := Remaining(found.lists[key], n, value);
            var (s', r) := RemoveItems(s, n, value);
            && r == Int(|found.lists[key]| - |left|)
            && With(m, key, s') == found.(lists := Assign(found.lists, key, ListOrNone(left)))
  {
    var found := EvictKey(m, key, now);
    FoundList(m, key, now, ListOrNone(Remaining(found.lists[key], n, value)));
    hide With, Assign;
  }

  method LRem(args: seq<Bytes>, db: Database, e: Env) returns (reply: Reply)
    requires db.Valid()
    modifies db.Repr()
    ensures db.Valid() && db.Repr() <= old(db.Repr())
    ensures (db.Model(), reply) == Exec(OnList(LREM), args, old(db.Model()), e)
  {
    ghost var m := db.Model();
    hide *;
    ListEditRefused(LREM, args, m, e);
    if |args| != 3 {
      return Fail(WrongArity);
    }
    var key, count, value := args[0], Atoi(args[1]), args[2];
    if count.None? {
      return Fail(NotAnInteger);
    }
    ListEdit(LREM, args, m, e, count.value);
    var list := db.GetList(key, e.now);
    if list.None? {
      MissingList(m, key, e.now, count.value, value);
      db.ModelIs();
      return Int(0);
    }
    reply := RemoveFrom(list.value, count.value, value, key, db, m, e.now);
  }

  method TakeOut(list: List, count: int64, value: Bytes, key: Bytes, db: Database) returns (removed: nat)
    requires db.Valid() && key in db.lists && list == db.lists[key]
    modifies list
    ensures db.Valid() && db.Repr() == old(db.Repr())
    ensures key in old(db.Model()).lists
    ensures db.Model() == old(db.Model()).(lists := old(db.Model()).lists[key := list.items])
    ensures list.items == Remaining(old(db.Model()).lists[key], count, value)
    ensures removed == |old(db.Model()).lists[key]| - |list.items|
  {
    hide *;
    ghost var m := db.Model();
    db.ModelIs();
    ListsBefore(db.lists, key);
    removed := list.LRem(count, value);
    ListsAfter(db.lists, key, m.lists);
    db.ModelIs();
  }

  method RemoveFrom(list: List, count: int64, value: Bytes, key: Bytes, db: Database, ghost m: DB, ghost now: int)
    returns (reply: Reply)
    requires db.Valid() && key in db.lists && list == db.lists[key]
    requires db.Model() == EvictKey(m, key, now)
    modifies db, list
    ensures db.Valid() && db.Repr() <= old(db.Repr())
    ensures (db.Model(), reply) == var (s, r) := RemoveItems(Evict(At(m, key), now), count, value); (With(m, key, s), r)
  {
    hide *;
    ghost var found := db.Model();
    var removed := TakeOut(list, count, value, key, db);
    RemoveItemsIs(m, key, now, count, value);
    DropAfterPut(found.lists, key, list.items);
    OrNone(list.items);
    if list.items == [] {
      db.DeleteList(key);
    }
    return Int(removed);
  }

  lemma OrNone(items: seq<Bytes>)
    ensures ListOrNone(items) == if items == [] then None else Some(items)
  {
  }
}
