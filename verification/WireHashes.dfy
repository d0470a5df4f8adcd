/** The hash commands in the words on the wire. */
module WireHashes {
  import opened Wrappers
  import opened GoText
  import opened Containers
  import opened Keyspace
  import opened Commands
  import opened Wire

  /** The fields under a key; a missing hash has none. */
  function FieldsAt(db: DB, k: Bytes): map<Bytes, Bytes> {
    if k in db.hashes then db.hashes[k] else map[]
  }

  /** The database with these fields under the key, which goes when there are none. */
  function Keeping(db: DB, k: Bytes, fields: map<Bytes, Bytes>): DB {
    db.(hashes := if fields == map[] then db.hashes - {k} else db.hashes[k := fields])
  }

  lemma HashSlot(k: Bytes, db: DB, e: Env, fields: map<Bytes, Bytes>)
    requires Live(db, k, e.now)
    ensures var s := At(db, k);
            && Evict(s, e.now) == s && s.fields.GetOr(map[]) == FieldsAt(db, k) && (s.fields.Some? <==> k in db.hashes)
            && With(db, k, s.(fields := Some(fields))) == db.(hashes := db.hashes[k := fields])
            && With(db, k, s.(fields := HashOrNone(fields))) == Keeping(db, k, fields)
  {
    LiveIsKept(db, k, e.now);
    OnePart(db, k, At(db, k).(fields := Some(fields)));
    OnePart(db, k, At(db, k).(fields := None));
    hide With, Evict, EvictKey;
  }

  /** A command that leaves these fields under its key. */
  lemma Leaves(name: Bytes, op: HashOp, k: Bytes, a: seq<Bytes>, db: DB, e: Env, fields: map<Bytes, Bytes>, r: Reply)
    requires Says(name, OnHash(op)) && Live(db, k, e.now)
    requires SingleKey(OnHash(op)) ==>
               OnKey(OnHash(op), [k] + a, At(db, k), e) == (At(db, k).(fields := Some(fields)), r)
    ensures Ask([name, k] + a, db, e) == (db.(hashes := db.hashes[k := fields]), r)
  {
    hide *;
    IsSingle(OnHash(op));
    HashSlot(k, db, e, fields);
    assert [name, k] + a == [name] + ([k] + a);
    AsksKey(name, [k] + a, OnHash(op), db, e, At(db, k).(fields := Some(fields)), r);
  }

  lemma Answers(name: Bytes, op: HashOp, k: Bytes, a: seq<Bytes>, db: DB, e: Env, r: Reply)
    requires Says(name, OnHash(op))
    requires SingleKey(OnHash(op)) ==> OnKey(OnHash(op), [k] + a, At(db, k), e) == (At(db, k), r)
    ensures Ask([name, k] + a, db, e) == (db, r)
  {
    hide *;
    IsSingle(OnHash(op));
    assert [name, k] + a == [name] + ([k] + a);
    AsksOnly(name, [k] + a, OnHash(op), db, e, r);
  }

  // --------------------------------------------------------------------- writing

  lemma SetSlot(k: Bytes, f: Bytes, v: Bytes, db: DB, e: Env)
    requires Live(db, k, e.now)
    ensures OnKey(OnHash(HSET), [k] + [f, v], At(db, k), e) ==
            (At(db, k).(fields := Some(FieldsAt(db, k)[f := v])), Int(if f in FieldsAt(db, k) then 0 else 1))
  {
    HashSlot(k, db, e, map[]);
    hide With, Evict, Pairs, BumpField;
  }

  /** HSET sets one field and answers whether it is new. */
  lemma Setting(k: Bytes, f: Bytes, v: Bytes, db: DB, e: Env)
    requires Live(db, k, e.now)
    ensures Ask(["HSET", k, f, v], db, e) ==
            (db.(hashes := db.hashes[k := FieldsAt(db, k)[f := v]]), Int(if f in FieldsAt(db, k) then 0 else 1))
  {
    hide *;
    HashNames();
    SetSlot(k, f, v, db, e);
    assert ["HSET", k, f, v] == ["HSET", k] + [f, v];
    Leaves("HSET", HSET, k, [f, v], db, e, FieldsAt(db, k)[f := v], Int(if f in FieldsAt(db, k) then 0 else 1));
  }

  /** Position `i` of the pairs is the last to name its field. */
  predicate LastNamed(pairs: seq<Bytes>, i: nat) {
    i % 2 == 0 && i + 1 < |pairs| && forall j :: i < j < |pairs| - 1 && j % 2 == 0 ==> pairs[j] != pairs[i]
  }

  lemma SetManySlot(k: Bytes, pairs: seq<Bytes>, db: DB, e: Env)
    requires Live(db, k, e.now) && |pairs| >= 2 && |pairs| % 2 == 0
    ensures OnKey(OnHash(HMSET), [k] + pairs, At(db, k), e) ==
            (At(db, k).(fields := Some(FieldsAt(db, k) + Pairs(pairs))), OK)
  {
    hide *;
    var a := [k] + pairs;
    assert |a| == |pairs| + 1 && a[1..] == pairs;
    HashSlot(k, db, e, map[]);
    SetManyOf(a, At(db, k), e);
  }

  lemma SetManyOf(a: seq<Bytes>, s: Slot, e: Env)
    requires |a| >= 3 && |a| % 2 == 1 && Evict(s, e.now) == s
    ensures SingleKey(OnHash(HMSET))
    ensures OnKey(OnHash(HMSET), a, s, e) == (s.(fields := Some(s.fields.GetOr(map[]) + Pairs(a[1..]))), OK)
  {
    hide Evict, Pairs, BumpField;
  }

  /** HMSET sets every field it names to the value it gives it last, and leaves the others. */
  lemma SettingMany(k: Bytes, pairs: seq<Bytes>, db: DB, e: Env) returns (fields: map<Bytes, Bytes>)
    requires Live(db, k, e.now) && |pairs| >= 2 && |pairs| % 2 == 0
    ensures Ask(["HMSET", k] + pairs, db, e) == (db.(hashes := db.hashes[k := fields]), OK)
    ensures forall i :: 0 <= i < |pairs| && LastNamed(pairs, i) ==>
              pairs[i] in fields && fields[pairs[i]] == pairs[i + 1]
    ensures forall f :: (forall i :: 0 <= i < |pairs| && i % 2 == 0 ==> pairs[i] != f) ==>
              Find(fields, f) == Find(FieldsAt(db, k), f)
  {
    fields := FieldsAt(db, k) + Pairs(pairs);
    forall i | 0 <= i < |pairs| && LastNamed(pairs, i)
      ensures pairs[i] in fields && fields[pairs[i]] == pairs[i + 1]
    {
      LastValueWins(pairs, i);
    }
    forall f | forall i :: 0 <= i < |pairs| && i % 2 == 0 ==> pairs[i] != f
      ensures Find(fields, f) == Find(FieldsAt(db, k), f)
    {
      OnlyNamedFields(pairs, f);
    }
    SettingAll(k, pairs, db, e, fields);
  }

  lemma SettingAll(k: Bytes, pairs: seq<Bytes>, db: DB, e: Env, fields: map<Bytes, Bytes>)
    requires Live(db, k, e.now) && |pairs| >= 2 && |pairs| % 2 == 0 && fields == FieldsAt(db, k) + Pairs(pairs)
    ensures Ask(["HMSET", k] + pairs, db, e) == (db.(hashes := db.hashes[k := fields]), OK)
  {
    hide *;
    HashNames();
    SetManySlot(k, pairs, db, e);
    Leaves("HMSET", HMSET, k, pairs, db, e, fields, OK);
  }

  lemma DeleteSlot(k: Bytes, fs: seq<Bytes>, db: DB, e: Env)
    requires fs != [] && Live(db, k, e.now)
    ensures var left := FieldsAt(db, k) - Elements(fs);
            OnKey(OnHash(HDEL), [k] + fs, At(db, k), e) ==
            if k in db.hashes then (At(db, k).(fields := HashOrNone(left)), Int(|FieldsAt(db, k)| - |left|))
            else (At(db, k), Int(0))
  {
    hide *;
    var a := [k] + fs;
    assert |a| == |fs| + 1 && a[1..] == fs;
    HashSlot(k, db, e, map[]);
    DeleteOf(a, At(db, k), e);
  }

  lemma DeleteOf(a: seq<Bytes>, s: Slot, e: Env)
    requires |a| >= 2 && Evict(s, e.now) == s
    ensures SingleKey(OnHash(HDEL))
    ensures var fields := s.fields.GetOr(map[]);
            var left := fields - Elements(a[1..]);
            OnKey(OnHash(HDEL), a, s, e) ==
            if s.fields.Some? then (s.(fields := HashOrNone(left)), Int(|fields| - |left|)) else (s, Int(0))
  {
    hide Evict, Elements, HashOrNone, BumpField, Pairs;
  }

  lemma Dropped(fields: map<Bytes, Bytes>, gone: set<Bytes>)
    ensures |fields| - |fields - gone| == |fields.Keys * gone|
  {
    assert (fields - gone).Keys == fields.Keys - gone;
    assert fields.Keys == (fields.Keys - gone) + (fields.Keys * gone);
    assert |fields| == |fields.Keys| && |fields - gone| == |(fields - gone).Keys|;
  }

  /** HDEL drops its fields and answers how many were there; the key goes with the last. */
  lemma Deleting(k: Bytes, fs: seq<Bytes>, db: DB, e: Env)
    requires fs != [] && Live(db, k, e.now)
    ensures Ask(["HDEL", k] + fs, db, e) ==
            if k in db.hashes then
              (Keeping(db, k, FieldsAt(db, k) - Elements(fs)), Int(|FieldsAt(db, k).Keys * Elements(fs)|))
            else (db, Int(0))
  {
    Dropped(FieldsAt(db, k), Elements(fs));
    hide *;
    HashNames();
    DeleteSlot(k, fs, db, e);
    if k in db.hashes {
      DeletingTo(k, fs, db, e, FieldsAt(db, k) - Elements(fs));
    } else {
      Answers("HDEL", HDEL, k, fs, db, e, Int(0));
    }
  }

  lemma DeletingTo(k: Bytes, fs: seq<Bytes>, db: DB, e: Env, left: map<Bytes, Bytes>)
    requires Says("HDEL", OnHash(HDEL)) && Live(db, k, e.now)
    requires SingleKey(OnHash(HDEL)) ==>
               OnKey(OnHash(HDEL), [k] + fs, At(db, k), e) ==
               (At(db, k).(fields := HashOrNone(left)), Int(|FieldsAt(db, k)| - |left|))
    ensures Ask(["HDEL", k] + fs, db, e) == (Keeping(db, k, left), Int(|FieldsAt(db, k)| - |left|))
  {
    hide *;
    IsSingle(OnHash(HDEL));
    HashSlot(k, db, e, left);
    assert ["HDEL", k] + fs == ["HDEL"] + ([k] + fs);
    AsksKey("HDEL", [k] + fs, OnHash(HDEL), db, e, At(db, k).(fields := HashOrNone(left)),
            Int(|FieldsAt(db, k)| - |left|));
  }

  // -------------------------------------------------------------------- counting

  lemma ZeroIsZero()
    ensures LooseInt("0") == Some(0) && Atoi("0") == Some(0)
  {
    AtoiOfItoa(0);
    ParseIntAgreesWithAtoi("0");
  }

  lemma BumpSlot(k: Bytes, f: Bytes, amount: Bytes, db: DB, e: Env, n: int64, d: int64)
    requires Live(db, k, e.now) && Atoi(amount) == Some(d)
    requires if f in FieldsAt(db, k) then LooseInt(FieldsAt(db, k)[f]) == Some(n) else n == 0
    ensures OnKey(OnHash(HINCRBY), [k] + [f, amount], At(db, k), e) ==
            (At(db, k).(fields := Some(FieldsAt(db, k)[f := LooseText(Wrap(n + d))])), Int(Wrap(n + d)))
  {
    HashSlot(k, db, e, map[]);
    ZeroIsZero();
    hide With, Evict, Atoi, LooseInt, LooseText, Pairs, Wrap;
  }

  lemma Sum(n: int64, d: int64) returns (v: int64)
    ensures v == Wrap(n + d) && (v - (n + d)) % 0x1_0000_0000_0000_0000 == 0
    ensures -0x8000_0000_0000_0000 <= n + d <= 0x7fff_ffff_ffff_ffff ==> v == n + d
  {
    v := Wrap(n + d);
    WrapCongruent(n + d);
    var i := (n + d - v) / TWO64;
    hide Wrap;
    assert v - (n + d) == (0 - TWO64) * i;
    ModOf(i);
  }

  lemma ModOf(k: int)
    ensures ((0 - TWO64) * k) % TWO64 == 0
  {
  }

  /**
   HINCRBY adds its amount to the number in the field, or to 0, as 64-bit integers do, answers the sum and leaves
   its text, and touches no other field. What it reads is what the server's own parser makes of the text.
   */
  lemma Incrementing(k: Bytes, f: Bytes, amount: Bytes, db: DB, e: Env, n: int64, d: int64) returns (v: int64)
    requires Live(db, k, e.now) && Atoi(amount) == Some(d)
    requires if f in FieldsAt(db, k) then LooseInt(FieldsAt(db, k)[f]) == Some(n) else n == 0
    ensures (v - (n + d)) % 0x1_0000_0000_0000_0000 == 0
    ensures -0x8000_0000_0000_0000 <= n + d <= 0x7fff_ffff_ffff_ffff ==> v == n + d
    ensures Ask(["HINCRBY", k, f, amount], db, e) ==
            (db.(hashes := db.hashes[k := FieldsAt(db, k)[f := LooseText(v)]]), Int(v))
  {
    v := Sum(n, d);
    hide *;
    HashNames();
    BumpSlot(k, f, amount, db, e, n, d);
    assert ["HINCRBY", k, f, amount] == ["HINCRBY", k] + [f, amount];
    Leaves("HINCRBY", HINCRBY, k, [f, amount], db, e, FieldsAt(db, k)[f := LooseText(v)], Int(v));
  }

  lemma RefusedSlots(k: Bytes, f: Bytes, amount: Bytes, db: DB, e: Env)
    requires Live(db, k, e.now)
    requires Atoi(amount).None? || (f in FieldsAt(db, k) && LooseInt(FieldsAt(db, k)[f]).None?)
    ensures OnKey(OnHash(HINCRBY), [k] + [f, amount], At(db, k), e) ==
            (At(db, k), Fail(if Atoi(amount).None? then NotAnInteger else HashValueNotInteger))
  {
    HashSlot(k, db, e, map[]);
    hide With, Evict, Atoi, LooseInt, LooseText, Pairs, Wrap;
  }

  /** An amount or a stored value that is no integer is refused, and nothing changes. */
  lemma IncrementingRefused(k: Bytes, f: Bytes, amount: Bytes, db: DB, e: Env)
    requires Live(db, k, e.now)
    requires Atoi(amount).None? || (f in FieldsAt(db, k) && LooseInt(FieldsAt(db, k)[f]).None?)
    ensures Ask(["HINCRBY", k, f, amount], db, e) ==
            (db, Fail(if Atoi(amount).None? then NotAnInteger else HashValueNotInteger))
  {
    hide *;
    HashNames();
    RefusedSlots(k, f, amount, db, e);
    assert ["HINCRBY", k, f, amount] == ["HINCRBY", k] + [f, amount];
    Answers("HINCRBY", HINCRBY, k, [f, amount], db, e,
            Fail(if Atoi(amount).None? then NotAnInteger else HashValueNotInteger));
  }

  /** HINCRBY and then HGET: the text of the sum. */
  lemma IncrementThenGet(k: Bytes, f: Bytes, amount: Bytes, db: DB, e: Env, n: int64, d: int64)
    requires Live(db, k, e.now) && Atoi(amount) == Some(d) && Itoa(n) == Find(FieldsAt(db, k), f).GetOr("0")
    requires -0x8000_0000_0000_0000 < n + d <= 0x7fff_ffff_ffff_ffff
    ensures Ask(["HGET", k, f], Ask(["HINCRBY", k, f, amount], db, e).0, e).1 == Bulk(Itoa(n + d))
  {
    AtoiOfItoa(n);
    ParseIntAgreesWithAtoi(Itoa(n));
    ZeroIsZero();
    hide Ask, Itoa, Atoi, LooseInt;
    var v := Incrementing(k, f, amount, db, e, n, d);
    var after := db.(hashes := db.hashes[k := FieldsAt(db, k)[f := LooseText(v)]]);
    assert LooseText(v) == Itoa(n + d);
    Getting(k, f, after, e);
  }

  // --------------------------------------------------------------------- looking

  lemma LookSlot(op: HashOp, k: Bytes, a: seq<Bytes>, db: DB, e: Env)
    requires Live(db, k, e.now) && LooksAtHash(op) && HashArgs(op, [k] + a)
    ensures OnKey(OnHash(op), [k] + a, At(db, k), e) == (At(db, k), HashReply(op, [k] + a, FieldsAt(db, k)))
  {
    HashSlot(k, db, e, map[]);
    HashLook(op, [k] + a, At(db, k), e);
    hide DoHash, Evict, HashReply;
  }

  lemma GetSlots(k: Bytes, f: Bytes, db: DB, e: Env)
    requires Live(db, k, e.now)
    ensures OnKey(OnHash(HGET), [k] + [f], At(db, k), e) ==
            (At(db, k), if f in FieldsAt(db, k) then Bulk(FieldsAt(db, k)[f]) else Nil)
    ensures OnKey(OnHash(HEXISTS), [k] + [f], At(db, k), e) == (At(db, k), Int(if f in FieldsAt(db, k) then 1 else 0))
  {
    LookSlot(HGET, k, [f], db, e);
    LookSlot(HEXISTS, k, [f], db, e);
    hide OnKey, At, FieldsAt;
  }

  lemma Getting(k: Bytes, f: Bytes, db: DB, e: Env)
    requires Live(db, k, e.now)
    ensures Ask(["HGET", k, f], db, e) == (db, if f in FieldsAt(db, k) then Bulk(FieldsAt(db, k)[f]) else Nil)
    ensures Ask(["HEXISTS", k, f], db, e) == (db, Int(if f in FieldsAt(db, k) then 1 else 0))
  {
    hide *;
    HashNames();
    GetSlots(k, f, db, e);
    assert ["HGET", k, f] == ["HGET", k] + [f] && ["HEXISTS", k, f] == ["HEXISTS", k] + [f];
    Answers("HGET", HGET, k, [f], db, e, if f in FieldsAt(db, k) then Bulk(FieldsAt(db, k)[f]) else Nil);
    Answers("HEXISTS", HEXISTS, k, [f], db, e, Int(if f in FieldsAt(db, k) then 1 else 0));
  }

  /** HMGET answers field by field. */
  lemma GettingMany(k: Bytes, fs: seq<Bytes>, db: DB, e: Env) returns (r: seq<Reply>)
    requires fs != [] && Live(db, k, e.now)
    ensures Ask(["HMGET", k] + fs, db, e) == (db, Many(r)) && |r| == |fs|
    ensures forall i :: 0 <= i < |fs| ==>
              r[i] == if fs[i] in FieldsAt(db, k) then Bulk(FieldsAt(db, k)[fs[i]]) else Nil
  {
    r := FieldReplies(FieldsAt(db, k), fs);
    assert ([k] + fs)[1..] == fs;
    LookSlot(HMGET, k, fs, db, e);
    hide OnKey, At, FieldsAt, Ask, Says;
    HashNames();
    Answers("HMGET", HMGET, k, fs, db, e, Many(r));
  }

  /** The fields that hold a value. */
  function Holding(fields: map<Bytes, Bytes>, v: Bytes): set<Bytes> {
    set f | f in fields && fields[f] == v
  }

  lemma {:induction false} BagCounts(fields: map<Bytes, Bytes>, v: Bytes)
    ensures ValueBag(fields)[v] == |Holding(fields, v)|
    decreases |fields|
  {
    hide ValueBag;
    if fields == map[] {
      NoValues();
      assert Holding(fields, v) == {};
    } else {
      var f := TakeOne(fields);
      DropOne(fields, f);
      BagCounts(fields - {f}, v);
      var all, rest := Holding(fields, v), Holding(fields - {f}, v);
      if fields[f] == v {
        assert all == rest + {f};
      } else {
        assert all == rest;
      }
    }
  }

  /** HGETALL, HKEYS, HVALS and HLEN answer all fields, their names, their values, and how many there are. */
  lemma Listing(k: Bytes, db: DB, e: Env) returns (values: multiset<Bytes>)
    requires Live(db, k, e.now)
    ensures Ask(["HGETALL", k], db, e) == (db, FieldsOf(FieldsAt(db, k)))
    ensures Ask(["HKEYS", k], db, e) == (db, Members(FieldsAt(db, k).Keys))
    ensures Ask(["HVALS", k], db, e) == (db, Bag(values))
    ensures forall v :: values[v] == |Holding(FieldsAt(db, k), v)|
    ensures Ask(["HLEN", k], db, e) == (db, Int(|FieldsAt(db, k)|))
  {
    values := ValueBag(FieldsAt(db, k));
    forall v
      ensures values[v] == |Holding(FieldsAt(db, k), v)|
    {
      BagCounts(FieldsAt(db, k), v);
    }
    hide *;
    ListingAll(k, db, e);
  }

  lemma ListingAll(k: Bytes, db: DB, e: Env)
    requires Live(db, k, e.now)
    ensures Ask(["HGETALL", k], db, e) == (db, FieldsOf(FieldsAt(db, k)))
    ensures Ask(["HKEYS", k], db, e) == (db, Members(FieldsAt(db, k).Keys))
    ensures Ask(["HVALS", k], db, e) == (db, Bag(ValueBag(FieldsAt(db, k))))
    ensures Ask(["HLEN", k], db, e) == (db, Int(|FieldsAt(db, k)|))
  {
    hide *;
    AllSlots(k, db, e);
    HashNames();
    assert ["HGETALL", k] == ["HGETALL", k] + [] && ["HKEYS", k] == ["HKEYS", k] + [];
    assert ["HVALS", k] == ["HVALS", k] + [] && ["HLEN", k] == ["HLEN", k] + [];
    Answers("HGETALL", HGETALL, k, [], db, e, FieldsOf(FieldsAt(db, k)));
    Answers("HKEYS", HKEYS, k, [], db, e, Members(FieldsAt(db, k).Keys));
    Answers("HVALS", HVALS, k, [], db, e, Bag(ValueBag(FieldsAt(db, k))));
    Answers("HLEN", HLEN, k, [], db, e, Int(|FieldsAt(db, k)|));
  }

  lemma AllSlots(k: Bytes, db: DB, e: Env)
    requires Live(db, k, e.now)
    ensures OnKey(OnHash(HGETALL), [k] + [], At(db, k), e) == (At(db, k), FieldsOf(FieldsAt(db, k)))
    ensures OnKey(OnHash(HKEYS), [k] + [], At(db, k), e) == (At(db, k), Members(FieldsAt(db, k).Keys))
    ensures OnKey(OnHash(HVALS), [k] + [], At(db, k), e) == (At(db, k), Bag(ValueBag(FieldsAt(db, k))))
    ensures OnKey(OnHash(HLEN), [k] + [], At(db, k), e) == (At(db, k), Int(|FieldsAt(db, k)|))
  {
    LookSlot(HGETALL, k, [], db, e);
    LookSlot(HKEYS, k, [], db, e);
    LookSlot(HVALS, k, [], db, e);
    LookSlot(HLEN, k, [], db, e);
    hide OnKey, At, FieldsAt, ValueBag;
  }
}
