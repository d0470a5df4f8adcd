/** `replayCommand` as it runs on a database object: each logged command applied again, by its own code. */
module Replayer {
  import opened Wrappers
  import opened GoText
  import opened Containers
  import opened Keyspace
  import opened Commands
  import opened Database
  import opened Replay
  import L = ListCommands
  import S = SetCommands
  import H = HashCommands
  import T = StringCommands

  lemma KeyReplay(c: Cmd, a: seq<Bytes>, m: DB, now: int, pick: Bytes, s: Slot)
    requires SingleKey(c) && !IsPop(c) && a != [] && ReplayKey(c, a, At(m, a[0]), now, pick) == s
    ensures Replay.Replay(c, a, m, now, pick) == With(m, a[0], s)
  {
    hide ReplayKey, With, At;
  }

  lemma KeyIgnored(c: Cmd, a: seq<Bytes>, m: DB, now: int, pick: Bytes)
    requires SingleKey(c) && !IsPop(c)
    requires a != [] ==> ReplayKey(c, a, At(m, a[0]), now, pick) == At(m, a[0])
    ensures Replay.Replay(c, a, m, now, pick) == m
  {
    if a != [] {
      SelfWith(m, a[0]);
      KeyReplay(c, a, m, now, pick, At(m, a[0]));
    } else {
      hide ReplayKey;
    }
  }

  // ------------------------------------------------------------------- strings

  lemma IncrementIs(m: DB, key: Bytes, amount: int64)
    ensures With(m, key, ReplayIncrement(At(m, key), amount)) ==
            match LooseInt(Find(m.store, key).GetOr("0"))
            case None => m
            case Some(n) => m.(store := m.store[key := Itoa(Wrap(n + amount))])
  {
    SelfWith(m, key);
    var n := LooseInt(Find(m.store, key).GetOr("0"));
    if n.Some? {
      WithText(m, key, Some(Itoa(Wrap(n.value + amount))));
    }
    hide With, LooseInt, Itoa, Wrap;
  }

  /** `replayIncrement`: no eviction, and the hand-written parser. */
  method ReplayIncrementKey(key: Bytes, amount: int64, db: Database)
    requires db.Valid()
    modifies db
    ensures db.Valid() && db.Repr() == old(db.Repr())
    ensures db.Model() == With(old(db.Model()), key, ReplayIncrement(At(old(db.Model()), key), amount))
  {
    hide *;
    IncrementIs(db.Model(), key, amount);
    db.ModelIs();
    var n := ParseInt(Find(db.store, key).GetOr("0"));
    if n.None? {
      db.ModelIs();
      return;
    }
    db.PutText(key, Itoa(Wrap(n.value + amount)));
  }

  lemma StringIs(op: StringOp, a: seq<Bytes>, m: DB, now: int, pick: Bytes)
    requires op.SET? || op.INCR? || op.DECR?
    ensures Replay.Replay(OnString(op), a, m, now, pick) ==
            if op == SET then
              if |a| < 2 then m else With(m, a[0], At(m, a[0]).(text := Some(a[1]), deadline := None))
            else if |a| < 1 then m
            else With(m, a[0], ReplayIncrement(At(m, a[0]), if op == INCR then 1 else -1))
  {
    hide With, At, ReplayIncrement;
    if |a| < (if op == SET then 2 else 1) {
      KeyIgnored(OnString(op), a, m, now, pick);
    } else {
      KeyReplay(OnString(op), a, m, now, pick, ReplayString(op, a, At(m, a[0])));
    }
  }

  lemma IncrementByIs(op: StringOp, a: seq<Bytes>, m: DB, now: int, pick: Bytes)
    requires op == INCRBY || op == DECRBY
    ensures Replay.Replay(OnString(op), a, m, now, pick) ==
            if |a| < 2 then m
            else match LooseInt(a[1])
                 case None => m
                 case Some(n) => With(m, a[0], ReplayIncrement(At(m, a[0]), if op == INCRBY then n else Wrap(0 - n)))
  {
    hide With, At, ReplayIncrement, LooseInt, Wrap;
    if |a| < 2 || LooseInt(a[1]).None? {
      KeyIgnored(OnString(op), a, m, now, pick);
    } else {
      KeyReplay(OnString(op), a, m, now, pick, ReplayString(op, a, At(m, a[0])));
    }
  }

  method ReplayStringOp(op: StringOp, args: seq<Bytes>, db: Database, ghost now: int, ghost pick: Bytes)
    requires db.Valid() && Persisted(OnString(op))
    modifies db
    ensures db.Valid() && db.Repr() == old(db.Repr())
    ensures db.Model() == Replay.Replay(OnString(op), args, old(db.Model()), now, pick)
  {
    var one: int64, minusOne: int64 := 1, -1;
    assert op.SET? || op.INCR? || op.DECR? || op == INCRBY || op == DECRBY;
    hide *;
    if op == INCRBY || op == DECRBY {
      ReplayIncrementByOp(op, args, db, now, pick);
      return;
    }
    StringIs(op, args, db.Model(), now, pick);
    if op == SET {
      if |args| >= 2 {
        T.Store(args[0], args[1], db);
      }
    } else if |args| >= 1 {
      ReplayIncrementKey(args[0], if op == INCR then one else minusOne, db);
    }
  }

  method ReplayIncrementByOp(op: StringOp, args: seq<Bytes>, db: Database, ghost now: int, ghost pick: Bytes)
    requires db.Valid() && (op == INCRBY || op == DECRBY)
    modifies db
    ensures db.Valid() && db.Repr() == old(db.Repr())
    ensures db.Model() == Replay.Replay(OnString(op), args, old(db.Model()), now, pick)
  {
    hide *;
    IncrementByIs(op, args, db.Model(), now, pick);
    if |args| < 2 {
      return;
    }
    db.ModelIs();
    var n := ParseInt(args[1]);
    db.ModelIs();
    if n.Some? {
      ReplayIncrementKey(args[0], if op == INCRBY then n.value else Wrap(0 - n.value), db);
    }
  }

  // --------------------------------------------------------------------- lists

  lemma PushIs(op: ListOp, a: seq<Bytes>, m: DB, now: int, pick: Bytes, created: DB, longer: seq<Bytes>)
    requires |a| >= 2 && (op == LPUSH || op == RPUSH)
    requires var s := Evict(At(m, a[0]), now); created == With(m, a[0], s.(list := Some(s.list.GetOr([]))))
    requires a[0] in created.lists
    requires longer == if op == LPUSH then LPushed(created.lists[a[0]], a[1..]) else created.lists[a[0]] + a[1..]
    ensures Replay.Replay(OnList(op), a, m, now, pick) == created.(lists := created.lists[a[0] := longer])
  {
    var s := Evict(At(m, a[0]), now);
    CreatedList(m, a[0], now, created, longer);
    hide With, Remaining;
    KeyReplay(OnList(op), a, m, now, pick, s.(list := Some(longer)));
  }

  lemma ListIgnored(op: ListOp, a: seq<Bytes>, m: DB, now: int, pick: Bytes)
    requires if op == LSET || op == LREM then |a| < 3 else (op == LPUSH || op == RPUSH) && |a| < 2
    ensures Replay.Replay(OnList(op), a, m, now, pick) == m
  {
    hide Remaining;
    KeyIgnored(OnList(op), a, m, now, pick);
  }

  method ReplayPush(op: ListOp, args: seq<Bytes>, db: Database, now: int, ghost pick: Bytes)
    requires db.Valid() && (op == LPUSH || op == RPUSH)
    modifies db.Repr()
    ensures db.Valid() && fresh(db.Repr() - old(db.Repr()))
    ensures db.Model() == Replay.Replay(OnList(op), args, old(db.Model()), now, pick)
  {
    hide *;
    if |args| < 2 {
      ListIgnored(op, args, db.Model(), now, pick);
      return;
    }
    db.ModelIs();
    var list := db.GetOrCreateList(args[0], now);
    ghost var created := db.Model();
    db.ModelIs();
    var _ := L.PushInto(list, args[0], args[1..], op == LPUSH, db);
    PushIs(op, args, old(db.Model()), now, pick, created, list.items);
  }

  /** LSET and LREM look the list up before they read the number. */
  lemma EditIs(op: ListOp, a: seq<Bytes>, m: DB, now: int, pick: Bytes)
    requires |a| >= 3 && (op == LSET || op == LREM)
    ensures var found := EvictKey(m, a[0], now);
            Replay.Replay(OnList(op), a, m, now, pick) ==
            if a[0] !in found.lists || LooseInt(a[1]).None? then found
            else
              var items, n := found.lists[a[0]], LooseInt(a[1]).value;
              if op == LREM then
                found.(lists := Assign(found.lists, a[0], ListOrNone(Remaining(items, n, a[2]))))
              else
                var p := Position(n, |items|);
                found.(lists := found.lists[a[0] := if 0 <= p < |items| then items[p := a[2]] else items])
  {
    var found, s := EvictKey(m, a[0], now), Evict(At(m, a[0]), now);
    FoundList(m, a[0], now, None);
    if a[0] in found.lists && LooseInt(a[1]).Some? {
      var items, n := found.lists[a[0]], LooseInt(a[1]).value;
      if op == LREM {
        FoundList(m, a[0], now, ListOrNone(Remaining(items, n, a[2])));
      } else {
        var p := Position(n, |items|);
        FoundList(m, a[0], now, Some(if 0 <= p < |items| then items[p := a[2]] else items));
        DropAfterPut(found.lists, a[0], items);
      }
    }
    hide With, EvictKey, Remaining, LooseInt;
    KeyReplay(OnList(op), a, m, now, pick, ReplayList(op, a, At(m, a[0]), now));
  }

  method ReplayEdit(op: ListOp, args: seq<Bytes>, db: Database, now: int, ghost pick: Bytes)
    requires db.Valid() && (op == LSET || op == LREM)
    modifies db.Repr()
    ensures db.Valid() && db.Repr() <= old(db.Repr())
    ensures db.Model() == Replay.Replay(OnList(op), args, old(db.Model()), now, pick)
  {
    hide *;
    if |args| < 3 {
      ListIgnored(op, args, db.Model(), now, pick);
      return;
    }
    EditIs(op, args, db.Model(), now, pick);
    db.ModelIs();
    var n := ParseInt(args[1]);
    db.ModelIs();
    var list := db.GetList(args[0], now);
    FindIs(db.lists, args[0]);
    db.ModelIs();
    ListKeys(db.lists);
    if list.None? || n.None? {
      return;
    }
    if op == LSET {
      ReplaySetItem(list.value, args[0], n.value, args[2], db);
    } else {
      ghost var found := db.Model();
      var _ := L.TakeOut(list.value, n.value, args[2], args[0], db);
      DropAfterPut(found.lists, args[0], list.value.items);
      L.OrNone(list.value.items);
      if list.value.items == [] {
        db.DeleteList(args[0]);
      }
    }
  }

  method ReplaySetItem(list: List, key: Bytes, index: int64, value: Bytes, db: Database)
    requires db.Valid() && key in db.lists && list == db.lists[key]
    modifies list
    ensures db.Valid() && db.Repr() == old(db.Repr()) && key in old(db.Model()).lists
    ensures var m, items := old(db.Model()), old(db.Model()).lists[key];
            var p := Position(index, |items|);
            db.Model() == m.(lists := m.lists[key := if 0 <= p < |items| then items[p := value] else items])
  {
    hide *;
    ghost var m := db.Model();
    db.ModelIs();
    ListsBefore(db.lists, key);
    PositionIs(index, |list.items|);
    var _ := list.LSet(index, value);
    ListsAfter(db.lists, key, m.lists);
    db.ModelIs();
  }

  // ---------------------------------------------------------------------- sets

  lemma SetIgnored(op: SetOp, a: seq<Bytes>, m: DB, now: int, pick: Bytes)
    requires |a| < (if op == SPOP then 1 else 2) && Persisted(OnSet(op))
    ensures Replay.Replay(OnSet(op), a, m, now, pick) == m
  {
    KeyIgnored(OnSet(op), a, m, now, pick);
  }

  lemma SAddIs(a: seq<Bytes>, m: DB, now: int, pick: Bytes, created: DB, larger: set<Bytes>)
    requires |a| >= 2
    requires var s := Evict(At(m, a[0]), now); created == With(m, a[0], s.(members := Some(s.members.GetOr({}))))
    requires a[0] in created.sets && larger == created.sets[a[0]] + Elements(a[1..])
    ensures Replay.Replay(OnSet(SADD), a, m, now, pick) == created.(sets := created.sets[a[0] := larger])
  {
    var s := Evict(At(m, a[0]), now);
    CreatedSet(m, a[0], now, created, larger);
    hide With, Picked;
    KeyReplay(OnSet(SADD), a, m, now, pick, s.(members := Some(larger)));
  }

  method ReplaySAdd(args: seq<Bytes>, db: Database, now: int, ghost pick: Bytes)
    requires db.Valid()
    modifies db.Repr()
    ensures db.Valid() && fresh(db.Repr() - old(db.Repr()))
    ensures db.Model() == Replay.Replay(OnSet(SADD), args, old(db.Model()), now, pick)
  {
    assert Persisted(OnSet(SADD));
    hide *;
    if |args| < 2 {
      SetIgnored(SADD, args, db.Model(), now, pick);
      return;
    }
    db.ModelIs();
    var obj := db.GetOrCreateSet(args[0], now);
    ghost var created := db.Model();
    db.ModelIs();
    var _ := S.AddTo(obj, args[0], args[1..], db);
    SAddIs(args, old(db.Model()), now, pick, created, obj.items);
  }

  lemma SRemIs(a: seq<Bytes>, m: DB, now: int, pick: Bytes)
    requires |a| >= 2
    ensures var found := EvictKey(m, a[0], now);
            Replay.Replay(OnSet(SREM), a, m, now, pick) ==
            if a[0] !in found.sets then found
            else found.(sets := Assign(found.sets, a[0], SetOrNone(found.sets[a[0]] - Elements(a[1..]))))
  {
    var found := EvictKey(m, a[0], now);
    FoundSet(m, a[0], now, None);
    if a[0] in found.sets {
      FoundSet(m, a[0], now, SetOrNone(found.sets[a[0]] - Elements(a[1..])));
    }
    hide With, EvictKey, Picked;
    KeyReplay(OnSet(SREM), a, m, now, pick, ReplaySet(SREM, a, At(m, a[0]), now, pick));
  }

  method ReplaySRem(args: seq<Bytes>, db: Database, now: int, ghost pick: Bytes)
    requires db.Valid()
    modifies db.Repr()
    ensures db.Valid() && db.Repr() <= old(db.Repr())
    ensures db.Model() == Replay.Replay(OnSet(SREM), args, old(db.Model()), now, pick)
  {
    assert Persisted(OnSet(SREM));
    hide *;
    if |args| < 2 {
      SetIgnored(SREM, args, db.Model(), now, pick);
      return;
    }
    SRemIs(args, db.Model(), now, pick);
    db.ModelIs();
    var obj := db.GetSet(args[0], now);
    FindIs(db.sets, args[0]);
    db.ModelIs();
    SetKeys(db.sets);
    if obj.Some? {
      var _ := S.RemoveFrom(obj.value, args[0], args[1..], db);
    }
  }

  lemma SPopIs(a: seq<Bytes>, m: DB, now: int, pick: Bytes)
    requires |a| >= 1
    ensures var found := EvictKey(m, a[0], now);
            Replay.Replay(OnSet(SPOP), a, m, now, pick) ==
            if a[0] !in found.sets then found
            else if found.sets[a[0]] == {} then found.(sets := found.sets - {a[0]})
            else
              var left := found.sets[a[0]] - {Picked(found.sets[a[0]], pick)};
              found.(sets := Assign(found.sets, a[0], SetOrNone(left)))
  {
    var found := EvictKey(m, a[0], now);
    FoundSet(m, a[0], now, None);
    if a[0] in found.sets && found.sets[a[0]] != {} {
      FoundSet(m, a[0], now, SetOrNone(found.sets[a[0]] - {Picked(found.sets[a[0]], pick)}));
    }
    hide With, EvictKey, Picked;
    KeyReplay(OnSet(SPOP), a, m, now, pick, ReplaySet(SPOP, a, At(m, a[0]), now, pick));
  }

  /** The member that went live was not logged: whatever this set yields first goes. */
  method ReplaySPop(args: seq<Bytes>, db: Database, now: int) returns (ghost pick: Bytes)
    requires db.Valid()
    modifies db.Repr()
    ensures db.Valid() && db.Repr() <= old(db.Repr())
    ensures db.Model() == Replay.Replay(OnSet(SPOP), args, old(db.Model()), now, pick)
  {
    assert Persisted(OnSet(SPOP));
    hide *;
    pick := "";
    ghost var m := db.Model();
    if |args| < 1 {
      SetIgnored(SPOP, args, m, now, pick);
      return;
    }
    SPopIs(args, m, now, pick);
    db.ModelIs();
    var obj := db.GetSet(args[0], now);
    FindIs(db.sets, args[0]);
    db.ModelIs();
    SetKeys(db.sets);
    if obj.None? {
      return;
    }
    var member := S.PopFrom(obj.value, args[0], db);
    if member.Some? {
      pick := member.value;
      SPopIs(args, m, now, pick);
    } else {
      db.DeleteSet(args[0]);
    }
  }

  // -------------------------------------------------------------------- hashes

  lemma HashIgnored(op: HashOp, a: seq<Bytes>, m: DB, now: int, pick: Bytes)
    requires match op
             case HSET => |a| < 3
             case HDEL => |a| < 2
             case HMSET => |a| < 3 || |a| % 2 != 1
             case HINCRBY => |a| < 3 || LooseInt(a[2]).None?
             case _ => false
    ensures Replay.Replay(OnHash(op), a, m, now, pick) == m
  {
    hide BumpField;
    KeyIgnored(OnHash(op), a, m, now, pick);
  }

  lemma HashPutIs(op: HashOp, a: seq<Bytes>, m: DB, now: int, pick: Bytes, created: DB)
    requires op == HSET || op == HMSET
    requires |a| >= 3 && (op == HMSET ==> |a| % 2 == 1)
    requires var s := Evict(At(m, a[0]), now); created == With(m, a[0], s.(fields := Some(s.fields.GetOr(map[]))))
    requires a[0] in created.hashes
    ensures var fields := created.hashes[a[0]];
            Replay.Replay(OnHash(op), a, m, now, pick) ==
            created.(hashes := created.hashes[a[0] :=
              if op == HSET then fields[a[1] := a[2]] else fields + Pairs(a[1..])])
  {
    var s := Evict(At(m, a[0]), now);
    var fields := s.fields.GetOr(map[]);
    var more := if op == HSET then fields[a[1] := a[2]] else fields + Pairs(a[1..]);
    CreatedHash(m, a[0], now, created, more);
    hide With, BumpField, Pairs;
    KeyReplay(OnHash(op), a, m, now, pick, s.(fields := Some(more)));
  }

  /** HSET and HMSET. */
  method ReplayHashPut(op: HashOp, args: seq<Bytes>, db: Database, now: int, ghost pick: Bytes)
    requires db.Valid() && (op == HSET || op == HMSET)
    modifies db.Repr()
    ensures db.Valid() && fresh(db.Repr() - old(db.Repr()))
    ensures db.Model() == Replay.Replay(OnHash(op), args, old(db.Model()), now, pick)
  {
    hide *;
    if |args| < 3 || (op == HMSET && |args| % 2 != 1) {
      HashIgnored(op, args, db.Model(), now, pick);
      return;
    }
    db.ModelIs();
    var hash := db.GetOrCreateHash(args[0], now);
    ghost var created := db.Model();
    db.ModelIs();
    HashKeys(db.hashes);
    HashPutIs(op, args, old(db.Model()), now, pick, created);
    if op == HSET {
      var _ := H.PutField(hash, args[0], args[1], args[2], db);
    } else {
      var pairs := H.CollectPairs(args[1..]);
      db.ModelIs();
      H.PutFields(hash, args[0], pairs, db);
    }
  }

  lemma HDelIs(a: seq<Bytes>, m: DB, now: int, pick: Bytes)
    requires |a| >= 2
    ensures var found := EvictKey(m, a[0], now);
            Replay.Replay(OnHash(HDEL), a, m, now, pick) ==
            if a[0] !in found.hashes then found
            else found.(hashes := Assign(found.hashes, a[0], HashOrNone(found.hashes[a[0]] - Elements(a[1..]))))
  {
    var found := EvictKey(m, a[0], now);
    FoundHash(m, a[0], now, None);
    if a[0] in found.hashes {
      FoundHash(m, a[0], now, HashOrNone(found.hashes[a[0]] - Elements(a[1..])));
    }
    hide With, EvictKey, BumpField;
    KeyReplay(OnHash(HDEL), a, m, now, pick, ReplayHash(HDEL, a, At(m, a[0]), now));
  }

  method ReplayHDel(args: seq<Bytes>, db: Database, now: int, ghost pick: Bytes)
    requires db.Valid()
    modifies db.Repr()
    ensures db.Valid() && db.Repr() <= old(db.Repr())
    ensures db.Model() == Replay.Replay(OnHash(HDEL), args, old(db.Model()), now, pick)
  {
    hide *;
    if |args| < 2 {
      HashIgnored(HDEL, args, db.Model(), now, pick);
      return;
    }
    HDelIs(args, db.Model(), now, pick);
    db.ModelIs();
    var hash := db.GetHash(args[0], now);
    FindIs(db.hashes, args[0]);
    db.ModelIs();
    HashKeys(db.hashes);
    if hash.Some? {
      var _ := H.DeleteFrom(hash.value, args[0], args[1..], db);
    }
  }

  lemma HIncrByIs(a: seq<Bytes>, m: DB, now: int, pick: Bytes, created: DB, increment: int64)
    requires |a| >= 3 && LooseInt(a[2]) == Some(increment)
    requires var s := Evict(At(m, a[0]), now); created == With(m, a[0], s.(fields := Some(s.fields.GetOr(map[]))))
    requires a[0] in created.hashes
    ensures var fields := created.hashes[a[0]];
            Replay.Replay(OnHash(HINCRBY), a, m, now, pick) ==
            match Bumped(fields, a[1], increment)
            case None => created
            case Some(v) => created.(hashes := created.hashes[a[0] := fields[a[1] := LooseText(v)]])
  {
    var s := Evict(At(m, a[0]), now);
    var fields := s.fields.GetOr(map[]);
    CreatedHash(m, a[0], now, created, fields);
    match Bumped(fields, a[1], increment) {
      case None =>
      case Some(v) => CreatedHash(m, a[0], now, created, fields[a[1] := LooseText(v)]);
    }
    hide With, Bumped, LooseText, LooseInt;
    KeyReplay(OnHash(HINCRBY), a, m, now, pick, BumpField(s, a[1], increment).0);
  }

  method ReplayHIncrBy(args: seq<Bytes>, db: Database, now: int, ghost pick: Bytes)
    requires db.Valid()
    modifies db.Repr()
    ensures db.Valid() && fresh(db.Repr() - old(db.Repr()))
    ensures db.Model() == Replay.Replay(OnHash(HINCRBY), args, old(db.Model()), now, pick)
  {
    hide *;
    if |args| < 3 {
      HashIgnored(HINCRBY, args, db.Model(), now, pick);
      return;
    }
    db.ModelIs();
    var increment := ParseInt(args[2]);
    db.ModelIs();
    if increment.None? {
      HashIgnored(HINCRBY, args, db.Model(), now, pick);
      return;
    }
    var hash := db.GetOrCreateHash(args[0], now);
    ghost var created := db.Model();
    db.ModelIs();
    HashKeys(db.hashes);
    HIncrByIs(args, old(db.Model()), now, pick, created, increment.value);
    var _ := H.Bump(hash, args[0], args[1], increment.value, db);
  }
}
