/**
 The commands that only look at one key, as the handlers run them on a database object: looking the key up, which
 evicts it if it is due, and reading the container found.
 */
module ReadCommands {
  import opened Wrappers
  import opened GoText
  import opened Containers
  import opened Keyspace
  import opened Commands
  import opened Database
  import opened ListCommands

  /** A command that leaves of its key what looking it up leaves. */
  lemma LookExec(c: Cmd, a: seq<Bytes>, m: DB, e: Env, r: Reply)
    requires SingleKey(c) && a != []
    requires OnKey(c, a, At(m, a[0]), e) == (Evict(At(m, a[0]), e.now), r)
    ensures Exec(c, a, m, e) == (EvictKey(m, a[0], e.now), r)
  {
    hide OnKey;
    KeyExec(c, a, m, e, Evict(At(m, a[0]), e.now), r);
    hide With, At, Evict;
  }

  // ---------------------------------------------------------------------- lists

  function ItemsAt(m: DB, key: Bytes): seq<Bytes> {
    Find(m.lists, key).GetOr([])
  }

  lemma ItemsOf(m: DB, key: Bytes, now: int)
    ensures ItemsAt(EvictKey(m, key, now), key) == Evict(At(m, key), now).list.GetOr([])
  {
    FoundList(m, key, now, None);
    hide At, Evict, EvictKey, With;
  }

  lemma LRangeExec(a: seq<Bytes>, m: DB, e: Env)
    ensures Exec(OnList(LRANGE), a, m, e) ==
            if |a| != 3 then (m, Fail(WrongArity))
            else if Atoi(a[1]).None? || Atoi(a[2]).None? then (m, Fail(NotAnInteger))
            else
              var found := EvictKey(m, a[0], e.now);
              (found, Many(Bulks(RangeOf(ItemsAt(found, a[0]), Atoi(a[1]).value, Atoi(a[2]).value))))
  {
    if |a| != 3 {
      KeyRefused(OnList(LRANGE), a, m, e, Fail(WrongArity));
    } else if Atoi(a[1]).None? || Atoi(a[2]).None? {
      KeyRefused(OnList(LRANGE), a, m, e, Fail(NotAnInteger));
    } else {
      ItemsOf(m, a[0], e.now);
      hide ItemsAt, At, Evict, EvictKey, RangeOf;
      LookExec(OnList(LRANGE), a, m, e,
               Many(Bulks(RangeOf(ItemsAt(EvictKey(m, a[0], e.now), a[0]), Atoi(a[1]).value, Atoi(a[2]).value))));
    }
  }

  lemma LLenExec(a: seq<Bytes>, m: DB, e: Env)
    ensures Exec(OnList(LLEN), a, m, e) ==
            if |a| != 1 then (m, Fail(WrongArity))
            else var found := EvictKey(m, a[0], e.now); (found, Int(|ItemsAt(found, a[0])|))
  {
    if |a| != 1 {
      KeyRefused(OnList(LLEN), a, m, e, Fail(WrongArity));
    } else {
      ItemsOf(m, a[0], e.now);
      hide ItemsAt, At, Evict, EvictKey;
      LookExec(OnList(LLEN), a, m, e, Int(|ItemsAt(EvictKey(m, a[0], e.now), a[0])|));
    }
  }

  lemma LIndexExec(a: seq<Bytes>, m: DB, e: Env)
    ensures Exec(OnList(LINDEX), a, m, e) ==
            if |a| != 2 then (m, Fail(WrongArity))
            else if Atoi(a[1]).None? then (m, Fail(NotAnInteger))
            else
              var found := EvictKey(m, a[0], e.now);
              var items, i := ItemsAt(found, a[0]), Atoi(a[1]).value;
              (found, if 0 <= i < |items| then Bulk(items[i])
                      else if i < 0 <= |items| + i then Bulk(items[|items| + i]) else Nil)
  {
    if |a| != 2 {
      KeyRefused(OnList(LINDEX), a, m, e, Fail(WrongArity));
    } else if Atoi(a[1]).None? {
      KeyRefused(OnList(LINDEX), a, m, e, Fail(NotAnInteger));
    } else {
      ItemsOf(m, a[0], e.now);
      hide ItemsAt, At, Evict, EvictKey;
      var items := ItemsAt(EvictKey(m, a[0], e.now), a[0]);
      var p := Position(Atoi(a[1]).value, |items|);
      LookExec(OnList(LINDEX), a, m, e, if 0 <= p < |items| then Bulk(items[p]) else Nil);
    }
  }

  /** The list object under a key holds the items the model has there; a missing one stands for no items. */
  lemma ListHere(db: Database, key: Bytes)
    ensures if key in db.lists then db.lists[key].items == ItemsAt(db.Model(), key)
            else ItemsAt(db.Model(), key) == []
    ensures Find(db.lists, key) == if key in db.lists then Some(db.lists[key]) else None
  {
  }

  lemma Owned(db: Database)
    ensures forall o :: o in db.Repr() ==> allocated(o)
  {
  }

  lemma NoRange(start: int64, stop: int64)
    ensures Bulks(RangeOf([], start, stop)) == []
  {
  }

  method LRange(args: seq<Bytes>, db: Database, e: Env) returns (reply: Reply)
    requires db.Valid()
    modifies db
    ensures db.Valid() && db.Repr() <= old(db.Repr())
    ensures (db.Model(), reply) == Exec(OnList(LRANGE), args, old(db.Model()), e)
  {
    hide *;
    LRangeExec(args, db.Model(), e);
    if |args| != 3 {
      return Fail(WrongArity);
    }
    var start, stop := Atoi(args[1]), Atoi(args[2]);
    if start.None? || stop.None? {
      return Fail(NotAnInteger);
    }
    var list := db.GetList(args[0], e.now);
    ListHere(db, args[0]);
    if list.None? {
      NoRange(start.value, stop.value);
      return Many([]);
    }
    Owned(db);
    ghost var world := db.Repr();
    label looked:
    var elements := list.value.LRange(start.value, stop.value);
    assert forall o :: o in world ==> unchanged@looked(o);
    return Many(Bulks(elements));
  }

  method LLen(args: seq<Bytes>, db: Database, e: Env) returns (reply: Reply)
    requires db.Valid()
    modifies db
    ensures db.Valid() && db.Repr() <= old(db.Repr())
    ensures (db.Model(), reply) == Exec(OnList(LLEN), args, old(db.Model()), e)
  {
    hide *;
    LLenExec(args, db.Model(), e);
    if |args| != 1 {
      return Fail(WrongArity);
    }
    var list := db.GetList(args[0], e.now);
    ListHere(db, args[0]);
    if list.None? {
      return Int(0);
    }
    Owned(db);
    ghost var world := db.Repr();
    label looked:
    var n := list.value.LLen();
    assert forall o :: o in world ==> unchanged@looked(o);
    return Int(n);
  }

  method LIndex(args: seq<Bytes>, db: Database, e: Env) returns (reply: Reply)
    requires db.Valid()
    modifies db
    ensures db.Valid() && db.Repr() <= old(db.Repr())
    ensures (db.Model(), reply) == Exec(OnList(LINDEX), args, old(db.Model()), e)
  {
    hide *;
    LIndexExec(args, db.Model(), e);
    if |args| != 2 {
      return Fail(WrongArity);
    }
    var index := Atoi(args[1]);
    if index.None? {
      return Fail(NotAnInteger);
    }
    var list := db.GetList(args[0], e.now);
    ListHere(db, args[0]);
    if list.None? {
      return Nil;
    }
    Owned(db);
    ghost var world := db.Repr();
    label looked:
    var value := list.value.LIndex(index.value);
    assert forall o :: o in world ==> unchanged@looked(o);
    return if value.Some? then Bulk(value.value) else Nil;
  }

  // ----------------------------------------------------------------------- sets

  function MembersAt(m: DB, key: Bytes): set<Bytes> {
    Find(m.sets, key).GetOr({})
  }

  lemma MembersOf(m: DB, key: Bytes, now: int)
    ensures MembersAt(EvictKey(m, key, now), key) == Evict(At(m, key), now).members.GetOr({})
  {
    FoundSet(m, key, now, None);
    hide At, Evict, EvictKey, With;
  }

  lemma SetHere(db: Database, key: Bytes)
    ensures if key in db.sets then db.sets[key].items == MembersAt(db.Model(), key)
            else MembersAt(db.Model(), key) == {}
    ensures Find(db.sets, key) == if key in db.sets then Some(db.sets[key]) else None
  {
  }

  lemma ListedElements(order: seq<Bytes>, elements: set<Bytes>)
    requires Listing(order, elements)
    ensures Elements(order) == elements
  {
  }

  lemma SIsMemberExec(a: seq<Bytes>, m: DB, e: Env)
    ensures Exec(OnSet(SISMEMBER), a, m, e) ==
            if |a| != 2 then (m, Fail(WrongArity))
            else var found := EvictKey(m, a[0], e.now); (found, Int(if a[1] in MembersAt(found, a[0]) then 1 else 0))
  {
    if |a| != 2 {
      KeyRefused(OnSet(SISMEMBER), a, m, e, Fail(WrongArity));
    } else {
      MembersOf(m, a[0], e.now);
      hide MembersAt, At, Evict, EvictKey;
      LookExec(OnSet(SISMEMBER), a, m, e, Int(if a[1] in MembersAt(EvictKey(m, a[0], e.now), a[0]) then 1 else 0));
    }
  }

  lemma SMembersExec(a: seq<Bytes>, m: DB, e: Env)
    ensures Exec(OnSet(SMEMBERS), a, m, e) ==
            if |a| != 1 then (m, Fail(WrongArity))
            else var found := EvictKey(m, a[0], e.now); (found, Members(MembersAt(found, a[0])))
  {
    if |a| != 1 {
      KeyRefused(OnSet(SMEMBERS), a, m, e, Fail(WrongArity));
    } else {
      MembersOf(m, a[0], e.now);
      hide MembersAt, At, Evict, EvictKey;
      LookExec(OnSet(SMEMBERS), a, m, e, Members(MembersAt(EvictKey(m, a[0], e.now), a[0])));
    }
  }

  lemma SCardExec(a: seq<Bytes>, m: DB, e: Env)
    ensures Exec(OnSet(SCARD), a, m, e) ==
            if |a| != 1 then (m, Fail(WrongArity))
            else var found := EvictKey(m, a[0], e.now); (found, Int(|MembersAt(found, a[0])|))
  {
    if |a| != 1 {
      KeyRefused(OnSet(SCARD), a, m, e, Fail(WrongArity));
    } else {
      MembersOf(m, a[0], e.now);
      hide MembersAt, At, Evict, EvictKey;
      LookExec(OnSet(SCARD), a, m, e, Int(|MembersAt(EvictKey(m, a[0], e.now), a[0])|));
    }
  }

  method SIsMember(args: seq<Bytes>, db: Database, e: Env) returns (reply: Reply)
    requires db.Valid()
    modifies db
    ensures db.Valid() && db.Repr() <= old(db.Repr())
    ensures (db.Model(), reply) == Exec(OnSet(SISMEMBER), args, old(db.Model()), e)
  {
    hide *;
    SIsMemberExec(args, db.Model(), e);
    if |args| != 2 {
      return Fail(WrongArity);
    }
    var obj := db.GetSet(args[0], e.now);
    SetHere(db, args[0]);
    if obj.None? {
      return Int(0);
    }
    Owned(db);
    ghost var world := db.Repr();
    label looked:
    var found := obj.value.SIsMember(args[1]);
    assert forall o :: o in world ==> unchanged@looked(o);
    return Int(if found then 1 else 0);
  }

  method SMembers(args: seq<Bytes>, db: Database, e: Env) returns (reply: Reply)
    requires db.Valid()
    modifies db
    ensures db.Valid() && db.Repr() <= old(db.Repr())
    ensures (db.Model(), reply) == Exec(OnSet(SMEMBERS), args, old(db.Model()), e)
  {
    hide *;
    SMembersExec(args, db.Model(), e);
    if |args| != 1 {
      return Fail(WrongArity);
    }
    var obj := db.GetSet(args[0], e.now);
    SetHere(db, args[0]);
    if obj.None? {
      return Members({});
    }
    Owned(db);
    ghost var world := db.Repr();
    label looked:
    var members := obj.value.SMembers();
    assert forall o :: o in world ==> unchanged@looked(o);
    ListedElements(members, obj.value.items);
    return Members(Elements(members));
  }

  method SCard(args: seq<Bytes>, db: Database, e: Env) returns (reply: Reply)
    requires db.Valid()
    modifies db
    ensures db.Valid() && db.Repr() <= old(db.Repr())
    ensures (db.Model(), reply) == Exec(OnSet(SCARD), args, old(db.Model()), e)
  {
    hide *;
    SCardExec(args, db.Model(), e);
    if |args| != 1 {
      return Fail(WrongArity);
    }
    var obj := db.GetSet(args[0], e.now);
    SetHere(db, args[0]);
    if obj.None? {
      return Int(0);
    }
    Owned(db);
    ghost var world := db.Repr();
    label looked:
    var n := obj.value.SCard();
    assert forall o :: o in world ==> unchanged@looked(o);
    return Int(n);
  }

  // --------------------------------------------------------------------- hashes

  function FieldsAt(m: DB, key: Bytes): map<Bytes, Bytes> {
    Find(m.hashes, key).GetOr(map[])
  }

  lemma FieldsIn(m: DB, key: Bytes, now: int)
    ensures FieldsAt(EvictKey(m, key, now), key) == Evict(At(m, key), now).fields.GetOr(map[])
  {
    FoundHash(m, key, now, None);
    hide At, Evict, EvictKey, With;
  }

  lemma HashHere(db: Database, key: Bytes)
    ensures if key in db.hashes then db.hashes[key].fields == FieldsAt(db.Model(), key)
            else FieldsAt(db.Model(), key) == map[]
    ensures Find(db.hashes, key) == if key in db.hashes then Some(db.hashes[key]) else None
  {
  }

  lemma HashRefuses(op: HashOp, a: seq<Bytes>, slot: Slot, e: Env)
    requires LooksAtHash(op) && !HashArgs(op, a) && a != []
    ensures DoHash(op, a, slot, e) == (slot, Fail(WrongArity))
  {
    hide Evict, ValueBag, FieldReplies, BumpField, Pairs;
  }

  lemma HashExec(op: HashOp, a: seq<Bytes>, m: DB, e: Env)
    requires LooksAtHash(op)
    ensures Exec(OnHash(op), a, m, e) ==
            if !HashArgs(op, a) then (m, Fail(WrongArity))
            else var found := EvictKey(m, a[0], e.now); (found, HashReply(op, a, FieldsAt(found, a[0])))
  {
    if !HashArgs(op, a) {
      if a != [] {
        HashRefuses(op, a, At(m, a[0]), e);
      }
      hide DoHash, At;
      KeyRefused(OnHash(op), a, m, e, Fail(WrongArity));
    } else {
      HashLook(op, a, At(m, a[0]), e);
      FieldsIn(m, a[0], e.now);
      hide DoHash, At, Evict, EvictKey, FieldsAt, HashReply;
      LookExec(OnHash(op), a, m, e, HashReply(op, a, FieldsAt(EvictKey(m, a[0], e.now), a[0])));
    }
  }

  method HGet(args: seq<Bytes>, db: Database, e: Env) returns (reply: Reply)
    requires db.Valid()
    modifies db
    ensures db.Valid() && db.Repr() <= old(db.Repr())
    ensures (db.Model(), reply) == Exec(OnHash(HGET), args, old(db.Model()), e)
  {
    hide Exec, At, Evict, EvictKey, Database.Valid, Database.Repr, Database.Model, FieldsAt, ValueBag, FieldReplies;
    HashExec(HGET, args, db.Model(), e);
    if |args| != 2 {
      return Fail(WrongArity);
    }
    var hash := db.GetHash(args[0], e.now);
    HashHere(db, args[0]);
    if hash.None? {
      return Nil;
    }
    Owned(db);
    ghost var world := db.Repr();
    label looked:
    var value := hash.value.HGet(args[1]);
    assert forall o :: o in world ==> unchanged@looked(o);
    return if value.Some? then Bulk(value.value) else Nil;
  }

  method HExists(args: seq<Bytes>, db: Database, e: Env) returns (reply: Reply)
    requires db.Valid()
    modifies db
    ensures db.Valid() && db.Repr() <= old(db.Repr())
    ensures (db.Model(), reply) == Exec(OnHash(HEXISTS), args, old(db.Model()), e)
  {
    hide Exec, At, Evict, EvictKey, Database.Valid, Database.Repr, Database.Model, FieldsAt, ValueBag, FieldReplies;
    HashExec(HEXISTS, args, db.Model(), e);
    if |args| != 2 {
      return Fail(WrongArity);
    }
    var hash := db.GetHash(args[0], e.now);
    HashHere(db, args[0]);
    if hash.None? {
      return Int(0);
    }
    Owned(db);
    ghost var world := db.Repr();
    label looked:
    var found := hash.value.HExists(args[1]);
    assert forall o :: o in world ==> unchanged@looked(o);
    return Int(if found then 1 else 0);
  }

  method HGetAll(args: seq<Bytes>, db: Database, e: Env) returns (reply: Reply)
    requires db.Valid()
    modifies db
    ensures db.Valid() && db.Repr() <= old(db.Repr())
    ensures (db.Model(), reply) == Exec(OnHash(HGETALL), args, old(db.Model()), e)
  {
    hide Exec, At, Evict, EvictKey, Database.Valid, Database.Repr, Database.Model, FieldsAt, ValueBag, FieldReplies;
    HashExec(HGETALL, args, db.Model(), e);
    if |args| != 1 {
      return Fail(WrongArity);
    }
    var hash := db.GetHash(args[0], e.now);
    HashHere(db, args[0]);
    if hash.None? {
      return FieldsOf(map[]);
    }
    Owned(db);
    ghost var world := db.Repr();
    label looked:
    var fields := hash.value.HGetAll();
    assert forall o :: o in world ==> unchanged@looked(o);
    return FieldsOf(fields);
  }

  method HKeys(args: seq<Bytes>, db: Database, e: Env) returns (reply: Reply)
    requires db.Valid()
    modifies db
    ensures db.Valid() && db.Repr() <= old(db.Repr())
    ensures (db.Model(), reply) == Exec(OnHash(HKEYS), args, old(db.Model()), e)
  {
    hide Exec, At, Evict, EvictKey, Database.Valid, Database.Repr, Database.Model, FieldsAt, ValueBag, FieldReplies;
    HashExec(HKEYS, args, db.Model(), e);
    if |args| != 1 {
      return Fail(WrongArity);
    }
    var hash := db.GetHash(args[0], e.now);
    HashHere(db, args[0]);
    if hash.None? {
      assert FieldsAt(db.Model(), args[0]).Keys == {};
      return Members({});
    }
    Owned(db);
    ghost var world := db.Repr();
    label looked:
    var names := hash.value.HKeys();
    assert forall o :: o in world ==> unchanged@looked(o);
    ListedElements(names, hash.value.fields.Keys);
    return Members(Elements(names));
  }

  method HVals(args: seq<Bytes>, db: Database, e: Env) returns (reply: Reply)
    requires db.Valid()
    modifies db
    ensures db.Valid() && db.Repr() <= old(db.Repr())
    ensures (db.Model(), reply) == Exec(OnHash(HVALS), args, old(db.Model()), e)
  {
    hide Exec, At, Evict, EvictKey, Database.Valid, Database.Repr, Database.Model, FieldsAt, ValueBag, FieldReplies;
    HashExec(HVALS, args, db.Model(), e);
    if |args| != 1 {
      return Fail(WrongArity);
    }
    var hash := db.GetHash(args[0], e.now);
    HashHere(db, args[0]);
    if hash.None? {
      NoValues();
      return Bag(multiset{});
    }
    Owned(db);
    ghost var world := db.Repr();
    label looked:
    var values := hash.value.HVals();
    assert forall o :: o in world ==> unchanged@looked(o);
    return Bag(multiset(values));
  }

  method HLen(args: seq<Bytes>, db: Database, e: Env) returns (reply: Reply)
    requires db.Valid()
    modifies db
    ensures db.Valid() && db.Repr() <= old(db.Repr())
    ensures (db.Model(), reply) == Exec(OnHash(HLEN), args, old(db.Model()), e)
  {
    hide Exec, At, Evict, EvictKey, Database.Valid, Database.Repr, Database.Model, FieldsAt, ValueBag, FieldReplies;
    HashExec(HLEN, args, db.Model(), e);
    if |args| != 1 {
      return Fail(WrongArity);
    }
    var hash := db.GetHash(args[0], e.now);
    HashHere(db, args[0]);
    if hash.None? {
      return Int(0);
    }
    Owned(db);
    ghost var world := db.Repr();
    label looked:
    var n := hash.value.HLen();
    assert forall o :: o in world ==> unchanged@looked(o);
    return Int(n);
  }

  /** A missing field is told from an empty value by asking for it again. */
  method RepliesFor(hash: Option<Hash>, names: seq<Bytes>) returns (replies: seq<Reply>)
    ensures replies == FieldReplies(if hash.Some? then hash.value.fields else map[], names)
  {
    var values;
    if hash.Some? {
      values := hash.value.HMGet(names);
    } else {
      values := seq(|names|, _ => "");
    }
    replies := [];
    var i := 0;
    while i < |values|
      invariant 0 <= i <= |values| && |replies| == i
      invariant forall k :: 0 <= k < i ==>
                  replies[k] == FieldReplies(if hash.Some? then hash.value.fields else map[], names)[k]
    {
      var found := false;
      if hash.Some? {
        found := hash.value.HExists(names[i]);
      }
      replies := replies + [if values[i] == "" && !found then Nil else Bulk(values[i])];
      i := i + 1;
    }
  }

  method HMGet(args: seq<Bytes>, db: Database, e: Env) returns (reply: Reply)
    requires db.Valid()
    modifies db
    ensures db.Valid() && db.Repr() <= old(db.Repr())
    ensures (db.Model(), reply) == Exec(OnHash(HMGET), args, old(db.Model()), e)
  {
    hide Exec, At, Evict, EvictKey, Database.Valid, Database.Repr, Database.Model, FieldsAt, ValueBag, FieldReplies;
    HashExec(HMGET, args, db.Model(), e);
    if |args| < 2 {
      return Fail(WrongArity);
    }
    var hash := db.GetHash(args[0], e.now);
    HashHere(db, args[0]);
    Owned(db);
    ghost var world := db.Repr();
    label looked:
    var replies := RepliesFor(hash, args[1..]);
    assert forall o :: o in world ==> unchanged@looked(o);
    return Many(replies);
  }

  // ---------------------------------------------------------- strings and deadlines

  lemma GetExec(a: seq<Bytes>, m: DB, e: Env)
    ensures Exec(OnString(GET), a, m, e) ==
            if |a| != 1 then (m, Fail(WrongArity))
            else
              var found := EvictKey(m, a[0], e.now);
              (found, if a[0] in found.store then Bulk(found.store[a[0]]) else Nil)
  {
    if |a| != 1 {
      KeyRefused(OnString(GET), a, m, e, Fail(WrongArity));
    } else {
      FoundText(m, a[0], e.now, None);
      var found := EvictKey(m, a[0], e.now);
      hide At, Evict, EvictKey, With;
      LookExec(OnString(GET), a, m, e, if a[0] in found.store then Bulk(found.store[a[0]]) else Nil);
    }
  }

  lemma TypeExec(a: seq<Bytes>, m: DB, e: Env)
    ensures Exec(OnString(TYPE), a, m, e) ==
            if |a| != 1 then (m, Fail(WrongArity))
            else var found := EvictKey(m, a[0], e.now); (found, Status(TypeName(At(found, a[0]))))
  {
    if |a| != 1 {
      KeyRefused(OnString(TYPE), a, m, e, Fail(WrongArity));
    } else {
      FoundText(m, a[0], e.now, None);
      hide At, Evict, EvictKey, With, TypeName;
      LookExec(OnString(TYPE), a, m, e, Status(TypeName(At(EvictKey(m, a[0], e.now), a[0]))));
    }
  }

  function UnitOf(op: DeadlineOp): nat {
    if op.TTL? then NANOS_PER_SECOND else NANOS_PER_MILLI
  }

  lemma TimeLeftExec(op: DeadlineOp, a: seq<Bytes>, m: DB, e: Env)
    requires op == TTL || op == PTTL
    ensures Exec(OnDeadline(op), a, m, e) ==
            if |a| != 1 then (m, Fail(WrongArity))
            else var found := EvictKey(m, a[0], e.now); (found, TimeLeft(At(found, a[0]), UnitOf(op), e))
  {
    if |a| != 1 {
      KeyRefused(OnDeadline(op), a, m, e, Fail(WrongArity));
    } else {
      FoundText(m, a[0], e.now, None);
      hide At, Evict, EvictKey, With, TimeLeft;
      LookExec(OnDeadline(op), a, m, e, TimeLeft(At(EvictKey(m, a[0], e.now), a[0]), UnitOf(op), e));
    }
  }

  method Get(args: seq<Bytes>, db: Database, e: Env) returns (reply: Reply)
    requires db.Valid()
    modifies db
    ensures db.Valid() && db.Repr() <= old(db.Repr())
    ensures (db.Model(), reply) == Exec(OnString(GET), args, old(db.Model()), e)
  {
    hide *;
    GetExec(args, db.Model(), e);
    if |args| != 1 {
      return Fail(WrongArity);
    }
    db.ExpireIfNeeded(args[0], e.now);
    db.ModelIs();
    if args[0] !in db.store {
      return Nil;
    }
    return Bulk(db.store[args[0]]);
  }

  /** `GetKeyType`: the first of the four maps that has the key decides. */
  method KeyType(key: Bytes, db: Database) returns (name: Bytes)
    ensures name == TypeName(At(db.Model(), key))
  {
    db.AtIs(key);
    hide At, Database.Model;
    if key in db.store {
      return "string";
    }
    if key in db.lists {
      return "list";
    }
    if key in db.sets {
      return "set";
    }
    return if key in db.hashes then "hash" else "none";
  }

  method TypeCommand(args: seq<Bytes>, db: Database, e: Env) returns (reply: Reply)
    requires db.Valid()
    modifies db
    ensures db.Valid() && db.Repr() <= old(db.Repr())
    ensures (db.Model(), reply) == Exec(OnString(TYPE), args, old(db.Model()), e)
  {
    hide *;
    TypeExec(args, db.Model(), e);
    if |args| != 1 {
      return Fail(WrongArity);
    }
    db.ExpireIfNeeded(args[0], e.now);
    Owned(db);
    ghost var world := db.Repr();
    label looked:
    var name := KeyType(args[0], db);
    assert forall o :: o in world ==> unchanged@looked(o);
    return Status(name);
  }

  /** TTL and PTTL: whole units left, rounded down, -1 without a deadline and -2 without the key. */
  method TimeLeftCommand(op: DeadlineOp, args: seq<Bytes>, db: Database, e: Env) returns (reply: Reply)
    requires db.Valid() && (op == TTL || op == PTTL)
    modifies db
    ensures db.Valid() && db.Repr() <= old(db.Repr())
    ensures (db.Model(), reply) == Exec(OnDeadline(op), args, old(db.Model()), e)
  {
    hide At, Evict, EvictKey, Exec, Database.Valid, Database.Model, Database.Repr, Database.KeyExistsLocked, Exists;
    TimeLeftExec(op, args, db.Model(), e);
    if |args| != 1 {
      return Fail(WrongArity);
    }
    var key := args[0];
    db.ExpireIfNeeded(key, e.now);
    db.KeyExistsIs(key);
    db.AtIs(key);
    if !db.KeyExistsLocked(key) {
      return Int(-2);
    }
    if key !in db.expires {
      return Int(-1);
    }
    var remaining := db.expires[key] - e.now;
    if remaining < 0 {
      remaining := 0;
    }
    return Int(remaining / UnitOf(op));
  }
}
