/** The set commands that change a set, as the handlers run them on a database object. */
module SetCommands {
  import opened Wrappers
  import opened GoText
  import opened Containers
  import opened Keyspace
  import opened Commands
  import opened Database
  import opened ListCommands

  lemma SetRefused(op: SetOp, a: seq<Bytes>, m: DB, e: Env)
    requires if op == SPOP then |a| != 1 else (op == SADD || op == SREM) && |a| < 2
    ensures Exec(OnSet(op), a, m, e) == (m, Fail(WrongArity))
  {
    KeyRefused(OnSet(op), a, m, e, Fail(WrongArity));
  }

  // --------------------------------------------------------------------- SADD

  lemma SAddExec(a: seq<Bytes>, m: DB, e: Env, created: DB, larger: set<Bytes>)
    requires |a| >= 2
    requires var s := Evict(At(m, a[0]), e.now); created == With(m, a[0], s.(members := Some(s.members.GetOr({}))))
    requires a[0] in created.sets && larger == created.sets[a[0]] + Elements(a[1..])
    ensures Exec(OnSet(SADD), a, m, e) ==
            (created.(sets := created.sets[a[0] := larger]), Int(|larger| - |created.sets[a[0]]|))
  {
    var s := Evict(At(m, a[0]), e.now);
    CreatedSet(m, a[0], e.now, created, larger);
    hide With;
    KeyExec(OnSet(SADD), a, m, e, s.(members := Some(larger)), Int(|larger| - |created.sets[a[0]]|));
  }

  method SAdd(args: seq<Bytes>, db: Database, e: Env) returns (reply: Reply)
    requires db.Valid()
    modifies db.Repr()
    ensures db.Valid() && fresh(db.Repr() - old(db.Repr()))
    ensures (db.Model(), reply) == Exec(OnSet(SADD), args, old(db.Model()), e)
  {
    hide *;
    if |args| < 2 {
      SetRefused(SADD, args, db.Model(), e);
      return Fail(WrongArity);
    }
    db.ModelIs();
    var obj := db.GetOrCreateSet(args[0], e.now);
    ghost var created := db.Model();
    db.ModelIs();
    var added := AddTo(obj, args[0], args[1..], db);
    SAddExec(args, old(db.Model()), e, created, obj.items);
    return Int(added);
  }

  method AddTo(obj: Set, key: Bytes, members: seq<Bytes>, db: Database) returns (added: nat)
    requires db.Valid() && key in db.sets && obj == db.sets[key]
    modifies obj
    ensures db.Valid() && db.Repr() == old(db.Repr())
    ensures key in old(db.Model()).sets
    ensures db.Model() == old(db.Model()).(sets := old(db.Model()).sets[key := obj.items])
    ensures obj.items == old(db.Model()).sets[key] + Elements(members)
    ensures added == |obj.items| - |old(db.Model()).sets[key]|
  {
    hide *;
    ghost var m := db.Model();
    db.ModelIs();
    SetsBefore(db.sets, key);
    added := obj.SAdd(members);
    SetsAfter(db.sets, key, m.sets);
    db.ModelIs();
  }

  // --------------------------------------------------------------------- SREM

  lemma SRemExec(a: seq<Bytes>, m: DB, e: Env)
    requires |a| >= 2
    ensures var found := EvictKey(m, a[0], e.now);
            Exec(OnSet(SREM), a, m, e) ==
            if a[0] !in found.sets then (found, Int(0))
            else var left := found.sets[a[0]] - Elements(a[1..]);
                 (found.(sets := Assign(found.sets, a[0], SetOrNone(left))), Int(|found.sets[a[0]]| - |left|))
  {
    var found, s := EvictKey(m, a[0], e.now), Evict(At(m, a[0]), e.now);
    FoundSet(m, a[0], e.now, None);
    if a[0] in found.sets {
      var left := found.sets[a[0]] - Elements(a[1..]);
      FoundSet(m, a[0], e.now, SetOrNone(left));
      hide With, Assign, EvictKey;
      KeyExec(OnSet(SREM), a, m, e, s.(members := SetOrNone(left)), Int(|found.sets[a[0]]| - |left|));
    } else {
      hide With, Assign, EvictKey;
      KeyExec(OnSet(SREM), a, m, e, s, Int(0));
    }
  }

  method SRem(args: seq<Bytes>, db: Database, e: Env) returns (reply: Reply)
    requires db.Valid()
    modifies db.Repr()
    ensures db.Valid() && db.Repr() <= old(db.Repr())
    ensures (db.Model(), reply) == Exec(OnSet(SREM), args, old(db.Model()), e)
  {
    hide *;
    if |args| < 2 {
      SetRefused(SREM, args, db.Model(), e);
      return Fail(WrongArity);
    }
    db.ModelIs();
    SRemExec(args, db.Model(), e);
    var obj := db.GetSet(args[0], e.now);
    FindIs(db.sets, args[0]);
    db.ModelIs();
    SetKeys(db.sets);
    if obj.None? {
      return Int(0);
    }
    var removed := RemoveFrom(obj.value, args[0], args[1..], db);
    return Int(removed);
  }

  method RemoveFrom(obj: Set, key: Bytes, members: seq<Bytes>, db: Database) returns (removed: nat)
    requires db.Valid() && key in db.sets && obj == db.sets[key]
    modifies db, obj
    ensures db.Valid() && db.Repr() <= old(db.Repr())
    ensures key in old(db.Model()).sets
    ensures var m, left := old(db.Model()), old(db.Model()).sets[key] - Elements(members);
            && db.Model() == m.(sets := Assign(m.sets, key, SetOrNone(left)))
            && removed == |m.sets[key]| - |left|
  {
    hide *;
    ghost var m := db.Model();
    db.ModelIs();
    SetsBefore(db.sets, key);
    removed := obj.SRem(members);
    SetsAfter(db.sets, key, m.sets);
    db.ModelIs();
    DropAfterPut(m.sets, key, obj.items);
    SetOrNoneIs(obj.items);
    if obj.items == {} {
      db.DeleteSet(key);
    }
  }

  lemma SetOrNoneIs(members: set<Bytes>)
    ensures SetOrNone(members) == if members == {} then None else Some(members)
  {
  }

  // --------------------------------------------------------------------- SPOP

  lemma SPopExec(a: seq<Bytes>, m: DB, e: Env)
    requires |a| == 1
    ensures var found := EvictKey(m, a[0], e.now);
            Exec(OnSet(SPOP), a, m, e) ==
            if a[0] !in found.sets || found.sets[a[0]] == {} then (found, Nil)
            else var member := Picked(found.sets[a[0]], e.pick);
                 (found.(sets := Assign(found.sets, a[0], SetOrNone(found.sets[a[0]] - {member}))), Bulk(member))
  {
    var found, s := EvictKey(m, a[0], e.now), Evict(At(m, a[0]), e.now);
    FoundSet(m, a[0], e.now, None);
    if a[0] in found.sets && found.sets[a[0]] != {} {
      var member := Picked(found.sets[a[0]], e.pick);
      var left := found.sets[a[0]] - {member};
      FoundSet(m, a[0], e.now, SetOrNone(left));
      hide With, Assign, EvictKey, Picked;
      KeyExec(OnSet(SPOP), a, m, e, s.(members := SetOrNone(left)), Bulk(member));
    } else {
      hide With, Assign, EvictKey, Picked;
      KeyExec(OnSet(SPOP), a, m, e, s, Nil);
    }
  }

  /** `pick` is the member map iteration happened to yield first. */
  method SPop(args: seq<Bytes>, db: Database, e: Env) returns (reply: Reply, ghost pick: Bytes)
    requires db.Valid()
    modifies db.Repr()
    ensures db.Valid() && db.Repr() <= old(db.Repr())
    ensures (db.Model(), reply) == Exec(OnSet(SPOP), args, old(db.Model()), e.(pick := pick))
  {
    hide *;
    pick := e.pick;
    if |args| != 1 {
      SetRefused(SPOP, args, db.Model(), e.(pick := pick));
      return Fail(WrongArity), pick;
    }
    db.ModelIs();
    ghost var m := db.Model();
    SPopExec(args, m, e.(pick := pick));
    var obj := db.GetSet(args[0], e.now);
    FindIs(db.sets, args[0]);
    db.ModelIs();
    SetKeys(db.sets);
    if obj.None? {
      return Nil, pick;
    }
    var member := PopFrom(obj.value, args[0], db);
    if member.None? {
      return Nil, pick;
    }
    pick := member.value;
    SPopExec(args, m, e.(pick := pick));
    return Bulk(member.value), pick;
  }

  method PopFrom(obj: Set, key: Bytes, db: Database) returns (member: Option<Bytes>)
    requires db.Valid() && key in db.sets && obj == db.sets[key]
    modifies db, obj
    ensures db.Valid() && db.Repr() <= old(db.Repr())
    ensures key in old(db.Model()).sets
    ensures var m := old(db.Model());
            if m.sets[key] == {} then member == None && db.Model() == m
            else member.Some? && member.value in m.sets[key] &&
                 db.Model() == m.(sets := Assign(m.sets, key, SetOrNone(m.sets[key] - {member.value})))
  {
    hide *;
    ghost var m := db.Model();
    db.ModelIs();
    SetsBefore(db.sets, key);
    member := obj.SPop();
    SetsAfter(db.sets, key, m.sets);
    db.ModelIs();
    DropAfterPut(m.sets, key, obj.items);
    SetOrNoneIs(obj.items);
    if member.None? {
      return;
    }
    if obj.items == {} {
      db.DeleteSet(key);
    }
  }
}
