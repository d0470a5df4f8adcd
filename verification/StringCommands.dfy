/** The commands on strings and deadlines, and DEL and MSET, as the handlers run them on a database object. */
module StringCommands {
  import opened Wrappers
  import opened GoText
  import opened Keyspace
  import opened Commands
  import opened Database
  import opened ListCommands

  // ----------------------------------------------------------------- SET and MSET

  lemma StoredIs(m: DB, key: Bytes, value: Bytes)
    ensures m.(store := m.store[key := value], expires := m.expires - {key}) ==
            With(m, key, At(m, key).(text := Some(value), deadline := None))
  {
    var put := m.(store := m.store[key := value]);
    WithText(m, key, Some(value));
    AtSame(m, key, At(m, key).(text := Some(value)));
    WithDeadline(put, key, None);
    WithTwice(m, key, At(m, key).(text := Some(value)), At(m, key).(text := Some(value), deadline := None));
  }

  /** Stores a string and clears the key's deadline; whatever else the key holds stays. */
  method Store(key: Bytes, value: Bytes, db: Database)
    requires db.Valid()
    modifies db
    ensures db.Valid() && db.Repr() == old(db.Repr())
    ensures db.Model() == With(old(db.Model()), key, At(old(db.Model()), key).(text := Some(value), deadline := None))
  {
    hide *;
    StoredIs(db.Model(), key, value);
    db.PutText(key, value);
    db.DeleteDeadline(key);
  }

  lemma SetExec(a: seq<Bytes>, m: DB, e: Env)
    ensures Exec(OnString(SET), a, m, e) ==
            if |a| != 2 then (m, Fail(WrongArity))
            else (With(m, a[0], At(m, a[0]).(text := Some(a[1]), deadline := None)), OK)
  {
    hide With, At;
    if |a| != 2 {
      KeyRefused(OnString(SET), a, m, e, Fail(WrongArity));
    } else {
      KeyExec(OnString(SET), a, m, e, At(m, a[0]).(text := Some(a[1]), deadline := None), OK);
    }
  }

  method SetCommand(args: seq<Bytes>, db: Database, e: Env) returns (reply: Reply)
    requires db.Valid()
    modifies db
    ensures db.Valid() && db.Repr() == old(db.Repr())
    ensures (db.Model(), reply) == Exec(OnString(SET), args, old(db.Model()), e)
  {
    hide *;
    SetExec(args, db.Model(), e);
    if |args| != 2 {
      return Fail(WrongArity);
    }
    Store(args[0], args[1], db);
    return OK;
  }

  lemma StorePairsStep(args: seq<Bytes>, i: nat, m: DB)
    requires i + 1 < |args|
    ensures StorePairs(args[i..], m) ==
            StorePairs(args[i + 2..], With(m, args[i], At(m, args[i]).(text := Some(args[i + 1]), deadline := None)))
  {
    assert args[i..][2..] == args[i + 2..];
    hide With, At;
  }

  lemma StorePairsEnd(args: seq<Bytes>, m: DB)
    ensures StorePairs(args[|args|..], m) == m && args[0..] == args
  {
  }

  /** The loop of MSET over its key and value arguments. */
  method StoreAll(args: seq<Bytes>, db: Database)
    requires db.Valid() && |args| % 2 == 0
    modifies db
    ensures db.Valid() && db.Repr() == old(db.Repr())
    ensures db.Model() == StorePairs(args, old(db.Model()))
  {
    hide *;
    StorePairsEnd(args, db.Model());
    var i := 0;
    while i < |args|
      invariant 0 <= i <= |args| && i % 2 == 0
      invariant db.Valid() && db.Repr() == old(db.Repr())
      invariant StorePairs(args, old(db.Model())) == StorePairs(args[i..], db.Model())
    {
      StorePairsStep(args, i, db.Model());
      Store(args[i], args[i + 1], db);
      i := i + 2;
    }
    StorePairsEnd(args, db.Model());
  }

  lemma MSetExec(a: seq<Bytes>, m: DB, e: Env)
    ensures Exec(OnKeys(MSET), a, m, e) ==
            if |a| < 2 || |a| % 2 != 0 then (m, Fail(WrongArity)) else (StorePairs(a, m), OK)
  {
    hide StorePairs;
  }

  method MSet(args: seq<Bytes>, db: Database, e: Env) returns (reply: Reply)
    requires db.Valid()
    modifies db
    ensures db.Valid() && db.Repr() == old(db.Repr())
    ensures (db.Model(), reply) == Exec(OnKeys(MSET), args, old(db.Model()), e)
  {
    hide *;
    MSetExec(args, db.Model(), e);
    if |args| < 2 || |args| % 2 != 0 {
      return Fail(WrongArity);
    }
    StoreAll(args, db);
    return OK;
  }

  // ------------------------------------------------------------------- increments

  lemma IncrementIs(m: DB, key: Bytes, amount: int64, e: Env)
    ensures var found := EvictKey(m, key, e.now);
            var (s, r) := Increment(At(m, key), amount, e);
            (With(m, key, s), r) ==
            match Atoi(Find(found.store, key).GetOr("0"))
            case None => (found, Fail(NotAnInteger))
            case Some(n) =>
              (found.(store := found.store[key := Itoa(Wrap(n + amount))]), Int(Wrap(n + amount)))
  {
    var s := Evict(At(m, key), e.now);
    FoundText(m, key, e.now, None);
    var value := Atoi(s.text.GetOr("0"));
    if value.Some? {
      FoundText(m, key, e.now, Some(Itoa(Wrap(value.value + amount))));
    }
    hide With, EvictKey, Atoi, Itoa, Wrap, At, Evict;
  }

  method IncrementKey(key: Bytes, amount: int64, db: Database, e: Env) returns (reply: Reply)
    requires db.Valid()
    modifies db
    ensures db.Valid() && db.Repr() <= old(db.Repr())
    ensures (db.Model(), reply) == var (s, r) := Increment(At(old(db.Model()), key), amount, e);
                                   (With(old(db.Model()), key, s), r)
  {
    ghost var m := db.Model();
    IncrementIs(m, key, amount, e);
    hide *;
    db.ExpireIfNeeded(key, e.now);
    db.ModelIs();
    var text := Find(db.store, key);
    var n := Atoi(text.GetOr("0"));
    if n.None? {
      return Fail(NotAnInteger);
    }
    var newVal := Wrap(n.value + amount);
    db.PutText(key, Itoa(newVal));
    return Int(newVal);
  }

  lemma IncrementExec(op: StringOp, a: seq<Bytes>, m: DB, e: Env)
    requires op == INCR || op == DECR
    ensures if |a| != 1 then Exec(OnString(op), a, m, e) == (m, Fail(WrongArity))
            else var (s, r) := Increment(At(m, a[0]), if op == INCR then 1 else -1, e);
                 Exec(OnString(op), a, m, e) == (With(m, a[0], s), r)
  {
    hide With, At, Increment;
    if |a| != 1 {
      KeyRefused(OnString(op), a, m, e, Fail(WrongArity));
    } else {
      var (s, r) := Increment(At(m, a[0]), if op == INCR then 1 else -1, e);
      KeyExec(OnString(op), a, m, e, s, r);
    }
  }

  /** INCR and DECR. */
  method Step(op: StringOp, args: seq<Bytes>, db: Database, e: Env) returns (reply: Reply)
    requires db.Valid() && (op == INCR || op == DECR)
    modifies db
    ensures db.Valid() && db.Repr() <= old(db.Repr())
    ensures (db.Model(), reply) == Exec(OnString(op), args, old(db.Model()), e)
  {
    var amount: int64 := if op == INCR then 1 else -1;
    hide *;
    IncrementExec(op, args, db.Model(), e);
    if |args| != 1 {
      return Fail(WrongArity);
    }
    reply := IncrementKey(args[0], amount, db, e);
  }

  lemma IncrementByExec(op: StringOp, a: seq<Bytes>, m: DB, e: Env)
    requires op == INCRBY || op == DECRBY
    ensures if |a| != 2 then Exec(OnString(op), a, m, e) == (m, Fail(WrongArity))
            else match Atoi(a[1])
                 case None => Exec(OnString(op), a, m, e) == (m, Fail(NotAnInteger))
                 case Some(n) =>
                   var (s, r) := Increment(At(m, a[0]), if op == INCRBY then n else Wrap(0 - n), e);
                   Exec(OnString(op), a, m, e) == (With(m, a[0], s), r)
  {
    hide With, At, Increment, Atoi, Wrap;
    if |a| != 2 {
      KeyRefused(OnString(op), a, m, e, Fail(WrongArity));
    } else {
      match Atoi(a[1]) {
        case None => KeyRefused(OnString(op), a, m, e, Fail(NotAnInteger));
        case Some(n) =>
          var (s, r) := Increment(At(m, a[0]), if op == INCRBY then n else Wrap(0 - n), e);
          KeyExec(OnString(op), a, m, e, s, r);
      }
    }
  }

  /** INCRBY and DECRBY; negating the least integer wraps. */
  method StepBy(op: StringOp, args: seq<Bytes>, db: Database, e: Env) returns (reply: Reply)
    requires db.Valid() && (op == INCRBY || op == DECRBY)
    modifies db
    ensures db.Valid() && db.Repr() <= old(db.Repr())
    ensures (db.Model(), reply) == Exec(OnString(op), args, old(db.Model()), e)
  {
    hide *;
    IncrementByExec(op, args, db.Model(), e);
    if |args| != 2 {
      return Fail(WrongArity);
    }
    var n := Atoi(args[1]);
    if n.None? {
      return Fail(NotAnInteger);
    }
    reply := IncrementKey(args[0], if op == INCRBY then n.value else Wrap(0 - n.value), db, e);
  }

  // -------------------------------------------------------------------------- DEL

  lemma DeleteStep(keys: seq<Bytes>, i: nat, m: DB, now: int)
    requires i < |keys|
    ensures var (m', n) := DeleteKeys(keys[i + 1..], With(m, keys[i], VACANT), now);
            DeleteKeys(keys[i..], m, now) == (m', Holdings(Evict(At(m, keys[i]), now)) + n)
  {
    assert keys[i..][1..] == keys[i + 1..];
    hide With, At;
  }

  lemma DeleteEnd(keys: seq<Bytes>, m: DB, now: int)
    ensures DeleteKeys(keys[|keys|..], m, now) == (m, 0) && keys[0..] == keys
  {
  }

  lemma DelExec(a: seq<Bytes>, m: DB, e: Env)
    ensures Exec(OnKeys(DEL), a, m, e) ==
            if |a| < 1 then (m, Fail(WrongArity))
            else (DeleteKeys(a, m, e.now).0, Int(DeleteKeys(a, m, e.now).1))
  {
    hide DeleteKeys;
  }

  method DeleteAll(keys: seq<Bytes>, db: Database, now: int) returns (deleted: nat)
    requires db.Valid()
    modifies db
    ensures db.Valid() && db.Repr() <= old(db.Repr())
    ensures (db.Model(), deleted) == DeleteKeys(keys, old(db.Model()), now)
  {
    hide *;
    DeleteEnd(keys, db.Model(), now);
    deleted := 0;
    var i := 0;
    while i < |keys|
      invariant 0 <= i <= |keys|
      invariant db.Valid() && db.Repr() <= old(db.Repr())
      invariant DeleteKeys(keys, old(db.Model()), now) ==
                (DeleteKeys(keys[i..], db.Model(), now).0, deleted + DeleteKeys(keys[i..], db.Model(), now).1)
    {
      DeleteStep(keys, i, db.Model(), now);
      var n := db.DeleteKey(keys[i], now);
      deleted := deleted + n;
      i := i + 1;
    }
    DeleteEnd(keys, db.Model(), now);
  }

  method Del(args: seq<Bytes>, db: Database, e: Env) returns (reply: Reply)
    requires db.Valid()
    modifies db
    ensures db.Valid() && db.Repr() <= old(db.Repr())
    ensures (db.Model(), reply) == Exec(OnKeys(DEL), args, old(db.Model()), e)
  {
    hide *;
    DelExec(args, db.Model(), e);
    if |args| < 1 {
      return Fail(WrongArity);
    }
    var deleted := DeleteAll(args, db, e.now);
    return Int(deleted);
  }

  // -------------------------------------------------------------------- deadlines

  lemma SetDeadlineIs(m: DB, key: Bytes, amount: Bytes, unit: nat, e: Env)
    ensures var found := EvictKey(m, key, e.now);
            var (s, r) := SetDeadline(At(m, key), amount, unit, e);
            (With(m, key, s), r) ==
            match Atoi(amount)
            case None => (m, Fail(NotAnInteger))
            case Some(n) =>
              if !Exists(At(found, key)) then (found, Int(0))
              else (found.(expires := found.expires[key := e.now + Wrap(n * unit)]), Int(1))
  {
    FoundDeadline(m, key, e.now, None);
    SelfWith(m, key);
    if Atoi(amount).Some? {
      FoundDeadline(m, key, e.now, Some(e.now + Wrap(Atoi(amount).value * unit)));
    }
    hide With, EvictKey, Atoi, Wrap, At, Evict, Exists;
  }

  method SetExpire(key: Bytes, amount: Bytes, unit: nat, db: Database, e: Env) returns (reply: Reply)
    requires db.Valid()
    modifies db
    ensures db.Valid() && db.Repr() <= old(db.Repr())
    ensures (db.Model(), reply) == var (s, r) := SetDeadline(At(old(db.Model()), key), amount, unit, e);
                                   (With(old(db.Model()), key, s), r)
  {
    hide *;
    SetDeadlineIs(db.Model(), key, amount, unit, e);
    var n := Atoi(amount);
    if n.None? {
      return Fail(NotAnInteger);
    }
    db.ExpireIfNeeded(key, e.now);
    db.KeyExistsIs(key);
    if !db.KeyExistsLocked(key) {
      return Int(0);
    }
    db.PutDeadline(key, e.now + Wrap(n.value * unit));
    return Int(1);
  }

  function Unit(op: DeadlineOp): nat {
    if op == EXPIRE || op == TTL then NANOS_PER_SECOND else NANOS_PER_MILLI
  }

  lemma ExpireExec(op: DeadlineOp, a: seq<Bytes>, m: DB, e: Env)
    requires op == EXPIRE || op == PEXPIRE
    ensures if |a| != 2 then Exec(OnDeadline(op), a, m, e) == (m, Fail(WrongArity))
            else var (s, r) := SetDeadline(At(m, a[0]), a[1], Unit(op), e);
                 Exec(OnDeadline(op), a, m, e) == (With(m, a[0], s), r)
  {
    hide With, At, SetDeadline;
    if |a| != 2 {
      KeyRefused(OnDeadline(op), a, m, e, Fail(WrongArity));
    } else {
      var (s, r) := SetDeadline(At(m, a[0]), a[1], Unit(op), e);
      KeyExec(OnDeadline(op), a, m, e, s, r);
    }
  }

  /** EXPIRE and PEXPIRE. */
  method Expire(op: DeadlineOp, args: seq<Bytes>, db: Database, e: Env) returns (reply: Reply)
    requires db.Valid() && (op == EXPIRE || op == PEXPIRE)
    modifies db
    ensures db.Valid() && db.Repr() <= old(db.Repr())
    ensures (db.Model(), reply) == Exec(OnDeadline(op), args, old(db.Model()), e)
  {
    hide *;
    ExpireExec(op, args, db.Model(), e);
    if |args| != 2 {
      return Fail(WrongArity);
    }
    reply := SetExpire(args[0], args[1], Unit(op), db, e);
  }

  lemma PersistExec(a: seq<Bytes>, m: DB, e: Env)
    ensures if |a| != 1 then Exec(OnDeadline(PERSIST), a, m, e) == (m, Fail(WrongArity))
            else var found := EvictKey(m, a[0], e.now);
                 Exec(OnDeadline(PERSIST), a, m, e) ==
                 if a[0] in found.expires then (found.(expires := found.expires - {a[0]}), Int(1)) else (found, Int(0))
  {
    if |a| != 1 {
      KeyRefused(OnDeadline(PERSIST), a, m, e, Fail(WrongArity));
    } else {
      FoundDeadline(m, a[0], e.now, None);
      var s := Evict(At(m, a[0]), e.now);
      hide With, EvictKey, At, Evict;
      if s.deadline.None? {
        KeyExec(OnDeadline(PERSIST), a, m, e, s, Int(0));
      } else {
        KeyExec(OnDeadline(PERSIST), a, m, e, s.(deadline := None), Int(1));
      }
    }
  }

  method Persist(args: seq<Bytes>, db: Database, e: Env) returns (reply: Reply)
    requires db.Valid()
    modifies db
    ensures db.Valid() && db.Repr() <= old(db.Repr())
    ensures (db.Model(), reply) == Exec(OnDeadline(PERSIST), args, old(db.Model()), e)
  {
    hide *;
    PersistExec(args, db.Model(), e);
    if |args| != 1 {
      return Fail(WrongArity);
    }
    db.ExpireIfNeeded(args[0], e.now);
    db.ModelIs();
    if args[0] !in db.expires {
      return Int(0);
    }
    db.DeleteDeadline(args[0]);
    return Int(1);
  }
}
