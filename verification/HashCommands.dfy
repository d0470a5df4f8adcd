/** The hash commands that change a hash, as the handlers run them on a database object. */
module HashCommands {
  import opened Wrappers
  import opened GoText
  import opened Sequences
  import opened Containers
  import opened Keyspace
  import opened Commands
  import opened Database
  import opened ListCommands

  lemma HashRefused(op: HashOp, a: seq<Bytes>, m: DB, e: Env)
    requires match op
             case HSET => |a| != 3
             case HDEL => |a| < 2
             case HMSET => |a| < 3 || |a| % 2 == 0
             case HINCRBY => |a| != 3
             case _ => false
    ensures Exec(OnHash(op), a, m, e) == (m, Fail(WrongArity))
  {
    hide BumpField;
    KeyRefused(OnHash(op), a, m, e, Fail(WrongArity));
  }

  // --------------------------------------------------------------------- HSET

  lemma HSetExec(a: seq<Bytes>, m: DB, e: Env, created: DB)
    requires |a| == 3
    requires var s := Evict(At(m, a[0]), e.now); created == With(m, a[0], s.(fields := Some(s.fields.GetOr(map[]))))
    ensures a[0] in created.hashes
    ensures var fields := created.hashes[a[0]];
            Exec(OnHash(HSET), a, m, e) ==
            (created.(hashes := created.hashes[a[0] := fields[a[1] := a[2]]]), Int(if a[1] in fields then 0 else 1))
  {
    var s := Evict(At(m, a[0]), e.now);
    var fields := s.fields.GetOr(map[]);
    CreatedHash(m, a[0], e.now, created, fields[a[1] := a[2]]);
    hide With, BumpField;
    KeyExec(OnHash(HSET), a, m, e, s.(fields := Some(fields[a[1] := a[2]])), Int(if a[1] in fields then 0 else 1));
  }

  method HSet(args: seq<Bytes>, db: Database, e: Env) returns (reply: Reply)
    requires db.Valid()
    modifies db.Repr()
    ensures db.Valid() && fresh(db.Repr() - old(db.Repr()))
    ensures (db.Model(), reply) == Exec(OnHash(HSET), args, old(db.Model()), e)
  {
    hide *;
    if |args| != 3 {
      HashRefused(HSET, args, db.Model(), e);
      return Fail(WrongArity);
    }
    db.ModelIs();
    var hash := db.GetOrCreateHash(args[0], e.now);
    ghost var created := db.Model();
    HSetExec(args, old(db.Model()), e, created);
    db.ModelIs();
    var isNew := PutField(hash, args[0], args[1], args[2], db);
    return Int(if isNew then 1 else 0);
  }

  method PutField(hash: Hash, key: Bytes, field: Bytes, value: Bytes, db: Database) returns (isNew: bool)
    requires db.Valid() && key in db.hashes && hash == db.hashes[key]
    modifies hash
    ensures db.Valid() && db.Repr() == old(db.Repr())
    ensures key in old(db.Model()).hashes
    ensures var m := old(db.Model());
            && db.Model() == m.(hashes := m.hashes[key := m.hashes[key][field := value]])
            && (isNew <==> field !in m.hashes[key])
  {
    hide *;
    ghost var m := db.Model();
    db.ModelIs();
    HashesBefore(db.hashes, key);
    isNew := hash.HSet(field, value);
    HashesAfter(db.hashes, key, m.hashes);
    db.ModelIs();
  }

  // -------------------------------------------------------------------- HMSET

  lemma HMSetExec(a: seq<Bytes>, m: DB, e: Env, created: DB)
    requires |a| >= 3 && |a| % 2 == 1
    requires var s := Evict(At(m, a[0]), e.now); created == With(m, a[0], s.(fields := Some(s.fields.GetOr(map[]))))
    ensures a[0] in created.hashes
    ensures Exec(OnHash(HMSET), a, m, e) ==
            (created.(hashes := created.hashes[a[0] := created.hashes[a[0]] + Pairs(a[1..])]), OK)
  {
    var s := Evict(At(m, a[0]), e.now);
    var fields := s.fields.GetOr(map[]) + Pairs(a[1..]);
    CreatedHash(m, a[0], e.now, created, fields);
    hide With, BumpField, Pairs;
    KeyExec(OnHash(HMSET), a, m, e, s.(fields := Some(fields)), OK);
  }

  lemma {:induction false} PairsSnoc(args: seq<Bytes>, i: nat)
    requires i % 2 == 0 && i + 1 < |args|
    ensures Pairs(args[..i + 2]) == Pairs(args[..i])[args[i] := args[i + 1]]
  {
    if i == 0 {
      assert args[..2][2..] == [];
    } else {
      var rest := args[2..];
      PairsSnoc(rest, i - 2);
      assert args[..i + 2][2..] == rest[..i];
      assert args[..i][2..] == rest[..i - 2];
    }
  }

  /** The loop of HMSET over its field and value arguments. */
  method CollectPairs(args: seq<Bytes>) returns (pairs: map<Bytes, Bytes>)
    requires |args| % 2 == 0
    ensures pairs == Pairs(args)
  {
    pairs := map[];
    var i := 0;
    while i < |args|
      invariant 0 <= i <= |args| && i % 2 == 0
      invariant pairs == Pairs(args[..i])
    {
      PairsSnoc(args, i);
      pairs := pairs[args[i] := args[i + 1]];
      i := i + 2;
    }
    assert args[..i] == args;
  }

  method HMSet(args: seq<Bytes>, db: Database, e: Env) returns (reply: Reply)
    requires db.Valid()
    modifies db.Repr()
    ensures db.Valid() && fresh(db.Repr() - old(db.Repr()))
    ensures (db.Model(), reply) == Exec(OnHash(HMSET), args, old(db.Model()), e)
  {
    hide *;
    if |args| < 3 || |args| % 2 == 0 {
      HashRefused(HMSET, args, db.Model(), e);
      return Fail(WrongArity);
    }
    db.ModelIs();
    var hash := db.GetOrCreateHash(args[0], e.now);
    ghost var created := db.Model();
    HMSetExec(args, old(db.Model()), e, created);
    var pairs := CollectPairs(args[1..]);
    db.ModelIs();
    PutFields(hash, args[0], pairs, db);
    return OK;
  }

  method PutFields(hash: Hash, key: Bytes, pairs: map<Bytes, Bytes>, db: Database)
    requires db.Valid() && key in db.hashes && hash == db.hashes[key]
    modifies hash
    ensures db.Valid() && db.Repr() == old(db.Repr())
    ensures key in old(db.Model()).hashes
    ensures var m := old(db.Model()); db.Model() == m.(hashes := m.hashes[key := m.hashes[key] + pairs])
  {
    hide *;
    ghost var m := db.Model();
    db.ModelIs();
    HashesBefore(db.hashes, key);
    hash.HMSet(pairs);
    HashesAfter(db.hashes, key, m.hashes);
    db.ModelIs();
  }

  // ------------------------------------------------------------------ HINCRBY

  lemma HIncrByExec(a: seq<Bytes>, m: DB, e: Env, created: DB, increment: int64)
    requires |a| == 3 && Atoi(a[2]) == Some(increment)
    requires var s := Evict(At(m, a[0]), e.now); created == With(m, a[0], s.(fields := Some(s.fields.GetOr(map[]))))
    ensures a[0] in created.hashes
    ensures var fields := created.hashes[a[0]];
            Exec(OnHash(HINCRBY), a, m, e) ==
            match Bumped(fields, a[1], increment)
            case None => (created, Fail(HashValueNotInteger))
            case Some(v) => (created.(hashes := created.hashes[a[0] := fields[a[1] := LooseText(v)]]), Int(v))
  {
    var s := Evict(At(m, a[0]), e.now);
    var fields := s.fields.GetOr(map[]);
    var (s', r) := BumpField(s, a[1], increment);
    CreatedHash(m, a[0], e.now, created, fields);
    match Bumped(fields, a[1], increment) {
      case None =>
      case Some(v) => CreatedHash(m, a[0], e.now, created, fields[a[1] := LooseText(v)]);
    }
    hide With, Bumped, LooseText;
    HIncrByKey(a, m, e, increment);
  }

  lemma HIncrByKey(a: seq<Bytes>, m: DB, e: Env, increment: int64)
    requires |a| == 3 && Atoi(a[2]) == Some(increment)
    ensures var (s', r) := BumpField(Evict(At(m, a[0]), e.now), a[1], increment);
            Exec(OnHash(HINCRBY), a, m, e) == (With(m, a[0], s'), r)
  {
    var (s', r) := BumpField(Evict(At(m, a[0]), e.now), a[1], increment);
    hide With, BumpField;
    KeyExec(OnHash(HINCRBY), a, m, e, s', r);
  }

  lemma HIncrByRefused(a: seq<Bytes>, m: DB, e: Env)
    requires |a| == 3 && Atoi(a[2]).None?
    ensures Exec(OnHash(HINCRBY), a, m, e) == (m, Fail(NotAnInteger))
  {
    hide BumpField;
    KeyRefused(OnHash(HINCRBY), a, m, e, Fail(NotAnInteger));
  }

  /** The hash is got or created before the increment can fail. */
  method HIncrBy(args: seq<Bytes>, db: Database, e: Env) returns (reply: Reply)
    requires db.Valid()
    modifies db.Repr()
    ensures db.Valid() && fresh(db.Repr() - old(db.Repr()))
    ensures (db.Model(), reply) == Exec(OnHash(HINCRBY), args, old(db.Model()), e)
  {
    hide *;
    if |args| != 3 {
      HashRefused(HINCRBY, args, db.Model(), e);
      return Fail(WrongArity);
    }
    var increment := Atoi(args[2]);
    if increment.None? {
      HIncrByRefused(args, db.Model(), e);
      return Fail(NotAnInteger);
    }
    db.ModelIs();
    var hash := db.GetOrCreateHash(args[0], e.now);
    ghost var created := db.Model();
    HIncrByExec(args, old(db.Model()), e, created, increment.value);
    db.ModelIs();
    var newValue := Bump(hash, args[0], args[1], increment.value, db);
    return if newValue.Some? then Int(newValue.value) else Fail(HashValueNotInteger);
  }

  method Bump(hash: Hash, key: Bytes, field: Bytes, increment: int64, db: Database) returns (r: Option<int64>)
    requires db.Valid() && key in db.hashes && hash == db.hashes[key]
    modifies hash
    ensures db.Valid() && db.Repr() == old(db.Repr())
    ensures key in old(db.Model()).hashes
    ensures var m := old(db.Model());
            && r == Bumped(m.hashes[key], field, increment)
            && db.Model() == match r
                             case None => m
                             case Some(v) => m.(hashes := m.hashes[key := m.hashes[key][field := LooseText(v)]])
  {
    hide *;
    ghost var m := db.Model();
    db.ModelIs();
    HashesBefore(db.hashes, key);
    r := hash.HIncrBy(field, increment);
    HashesAfter(db.hashes, key, m.hashes);
    db.ModelIs();
    DropAfterPut(m.hashes, key, hash.fields);
  }

  // --------------------------------------------------------------------- HDEL

  lemma HDelExec(a: seq<Bytes>, m: DB, e: Env)
    requires |a| >= 2
    ensures var found := EvictKey(m, a[0], e.now);
            Exec(OnHash(HDEL), a, m, e) ==
            if a[0] !in found.hashes then (found, Int(0))
            else var left := found.hashes[a[0]] - Elements(a[1..]);
                 (found.(hashes := Assign(found.hashes, a[0], HashOrNone(left))), Int(|found.hashes[a[0]]| - |left|))
  {
    var found, s := EvictKey(m, a[0], e.now), Evict(At(m, a[0]), e.now);
    FoundHash(m, a[0], e.now, None);
    if a[0] in found.hashes {
      var left := found.hashes[a[0]] - Elements(a[1..]);
      FoundHash(m, a[0], e.now, HashOrNone(left));
      hide With, Assign, EvictKey, BumpField;
      KeyExec(OnHash(HDEL), a, m, e, s.(fields := HashOrNone(left)), Int(|found.hashes[a[0]]| - |left|));
    } else {
      hide With, Assign, EvictKey, BumpField;
      KeyExec(OnHash(HDEL), a, m, e, s, Int(0));
    }
  }

  method HDel(args: seq<Bytes>, db: Database, e: Env) returns (reply: Reply)
    requires db.Valid()
    modifies db.Repr()
    ensures db.Valid() && db.Repr() <= old(db.Repr())
    ensures (db.Model(), reply) == Exec(OnHash(HDEL), args, old(db.Model()), e)
  {
    hide *;
    if |args| < 2 {
      HashRefused(HDEL, args, db.Model(), e);
      return Fail(WrongArity);
    }
    db.ModelIs();
    HDelExec(args, db.Model(), e);
    var hash := db.GetHash(args[0], e.now);
    FindIs(db.hashes, args[0]);
    db.ModelIs();
    HashKeys(db.hashes);
    if hash.None? {
      return Int(0);
    }
    var deleted := DeleteFrom(hash.value, args[0], args[1..], db);
    return Int(deleted);
  }

  method DeleteFrom(hash: Hash, key: Bytes, names: seq<Bytes>, db: Database) returns (deleted: nat)
    requires db.Valid() && key in db.hashes && hash == db.hashes[key]
    modifies db, hash
    ensures db.Valid() && db.Repr() <= old(db.Repr())
    ensures key in old(db.Model()).hashes
    ensures var m, left := old(db.Model()), old(db.Model()).hashes[key] - Elements(names);
            && db.Model() == m.(hashes := Assign(m.hashes, key, HashOrNone(left)))
            && deleted == |m.hashes[key]| - |left|
  {
    hide *;
    ghost var m := db.Model();
    db.ModelIs();
    HashesBefore(db.hashes, key);
    deleted := hash.HDel(names);
    HashesAfter(db.hashes, key, m.hashes);
    db.ModelIs();
    DropAfterPut(m.hashes, key, hash.fields);
    HashOrNoneIs(hash.fields);
    if hash.fields == map[] {
      db.DeleteHash(key);
    }
  }

  lemma HashOrNoneIs(fields: map<Bytes, Bytes>)
    ensures HashOrNone(fields) == if fields == map[] then None else Some(fields)
  {
  }
}
