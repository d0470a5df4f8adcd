/** The string commands in the words on the wire. */
module WireStrings {
  import opened Wrappers
  import opened GoText
  import opened Containers
  import opened Keyspace
  import opened Commands
  import opened Wire

  lemma SetSlot(k: Bytes, v: Bytes, db: DB, e: Env) returns (s: Slot)
    ensures OnKey(OnString(SET), [k, v], At(db, k), e) == (s, OK)
    ensures With(db, k, s) == db.(store := db.store[k := v], expires := db.expires - {k})
  {
    s := At(db, k).(text := Some(v), deadline := None);
    OnePart(db, k, s);
    hide With, At;
  }

  /** SET stores the text and drops the deadline, whatever was there. */
  lemma Setting(k: Bytes, v: Bytes, db: DB, e: Env)
    ensures Ask(["SET", k, v], db, e) == (db.(store := db.store[k := v], expires := db.expires - {k}), OK)
  {
    hide *;
    StringNames();
    var s := SetSlot(k, v, db, e);
    IsSingle(OnString(SET));
    assert ["SET", k, v] == ["SET"] + [k, v];
    AsksKey("SET", [k, v], OnString(SET), db, e, s, OK);
  }

  lemma LookSlots(k: Bytes, db: DB, e: Env)
    requires Live(db, k, e.now)
    ensures OnKey(OnString(GET), [k], At(db, k), e) ==
            (At(db, k), if k in db.store then Bulk(db.store[k]) else Nil)
    ensures OnKey(OnString(TYPE), [k], At(db, k), e) ==
            (At(db, k), Status(if k in db.store then "string" else if k in db.lists then "list"
                               else if k in db.sets then "set" else if k in db.hashes then "hash" else "none"))
  {
    LiveIsKept(db, k, e.now);
    hide Evict, EvictKey;
  }

  lemma Getting(k: Bytes, db: DB, e: Env)
    requires Live(db, k, e.now)
    ensures Ask(["GET", k], db, e) == (db, if k in db.store then Bulk(db.store[k]) else Nil)
  {
    hide *;
    StringNames();
    LookSlots(k, db, e);
    IsSingle(OnString(GET));
    assert ["GET", k] == ["GET"] + [k];
    AsksOnly("GET", [k], OnString(GET), db, e, if k in db.store then Bulk(db.store[k]) else Nil);
  }

  lemma Typing(k: Bytes, db: DB, e: Env)
    requires Live(db, k, e.now)
    ensures Ask(["TYPE", k], db, e) ==
            (db, Status(if k in db.store then "string" else if k in db.lists then "list"
                        else if k in db.sets then "set" else if k in db.hashes then "hash" else "none"))
  {
    hide *;
    StringNames();
    LookSlots(k, db, e);
    IsSingle(OnString(TYPE));
    assert ["TYPE", k] == ["TYPE"] + [k];
    AsksOnly("TYPE", [k], OnString(TYPE), db, e,
             Status(if k in db.store then "string" else if k in db.lists then "list"
                    else if k in db.sets then "set" else if k in db.hashes then "hash" else "none"));
  }

  // ------------------------------------------------------------------- counting

  /** A number `d` away from the one stored, or from 0. */
  lemma CountedSlot(k: Bytes, db: DB, e: Env, n: int64, d: int64) returns (s: Slot)
    requires Live(db, k, e.now) && Atoi(if k in db.store then db.store[k] else "0") == Some(n)
    ensures Increment(At(db, k), d, e) == (s, Int(Wrap(n + d)))
    ensures With(db, k, s) == db.(store := db.store[k := Itoa(Wrap(n + d))])
  {
    LiveIsKept(db, k, e.now);
    s := At(db, k).(text := Some(Itoa(Wrap(n + d))));
    OnePart(db, k, s);
    hide With, Evict, EvictKey, Atoi, Itoa, Wrap;
  }

  lemma IncrementsAre(k: Bytes, s: Slot, e: Env)
    ensures OnKey(OnString(INCR), [k], s, e) == Increment(s, 1, e)
    ensures OnKey(OnString(DECR), [k], s, e) == Increment(s, -1, e)
  {
    hide Increment;
  }

  lemma IncrementsByAre(k: Bytes, amount: Bytes, m: int64, minus: int64, s: Slot, e: Env)
    requires Atoi(amount) == Some(m) && minus == Wrap(0 - m)
    ensures OnKey(OnString(INCRBY), [k, amount], s, e) == Increment(s, m, e)
    ensures OnKey(OnString(DECRBY), [k, amount], s, e) == Increment(s, minus, e)
  {
    hide Increment, Atoi, Wrap;
  }

  /** The successor, and the least integer after the greatest. */
  lemma Successor(n: int64)
    ensures Wrap(n + 1) == if n == 0x7fff_ffff_ffff_ffff then -0x8000_0000_0000_0000 else n + 1
    ensures Wrap(n + -1) == if n == -0x8000_0000_0000_0000 then 0x7fff_ffff_ffff_ffff else n - 1
  {
  }

  lemma Stepping(name: Bytes, op: StringOp, k: Bytes, db: DB, e: Env, n: int64, d: int64)
    requires Says(name, OnString(op)) && Live(db, k, e.now)
    requires Atoi(if k in db.store then db.store[k] else "0") == Some(n)
    requires SingleKey(OnString(op)) ==> OnKey(OnString(op), [k], At(db, k), e) == Increment(At(db, k), d, e)
    ensures Ask([name, k], db, e) == (db.(store := db.store[k := Itoa(Wrap(n + d))]), Int(Wrap(n + d)))
  {
    hide *;
    IsSingle(OnString(op));
    var s := CountedSlot(k, db, e, n, d);
    assert [name, k] == [name] + [k];
    AsksKey(name, [k], OnString(op), db, e, s, Int(Wrap(n + d)));
  }

  /** INCR adds one to the number stored, or to 0, and DECR takes one off; the text left is the number answered. */
  lemma Incrementing(k: Bytes, db: DB, e: Env, n: int64)
    requires Live(db, k, e.now) && Atoi(if k in db.store then db.store[k] else "0") == Some(n)
    ensures var v := if n == 0x7fff_ffff_ffff_ffff then -0x8000_0000_0000_0000 else n + 1;
            Ask(["INCR", k], db, e) == (db.(store := db.store[k := Itoa(v)]), Int(v))
    ensures var v := if n == -0x8000_0000_0000_0000 then 0x7fff_ffff_ffff_ffff else n - 1;
            Ask(["DECR", k], db, e) == (db.(store := db.store[k := Itoa(v)]), Int(v))
  {
    var one: int64, less: int64 := 1, -1;
    hide *;
    StringNames();
    Successor(n);
    IncrementsAre(k, At(db, k), e);
    Stepping("INCR", INCR, k, db, e, n, one);
    Stepping("DECR", DECR, k, db, e, n, less);
  }

  lemma ModOfMultiple(k: int)
    ensures ((0 - TWO64) * k) % TWO64 == 0
  {
  }

  /** Wrapped sums and differences agree with the true ones up to a multiple of 2^64. */
  lemma WrappedSums(n: int64, m: int64, minus: int64)
    requires minus == Wrap(0 - m)
    ensures (Wrap(n + m) - (n + m)) % 0x1_0000_0000_0000_0000 == 0
    ensures (Wrap(n + minus) - (n - m)) % 0x1_0000_0000_0000_0000 == 0
  {
    WrapCongruent(n + m);
    WrapCongruent(0 - m);
    WrapCongruent(n + minus);
    hide Wrap;
    var i, j, k := (n + m - Wrap(n + m)) / TWO64, (0 - m - minus) / TWO64, (n + minus - Wrap(n + minus)) / TWO64;
    assert Wrap(n + m) - (n + m) == (0 - TWO64) * i;
    assert Wrap(n + minus) - (n - m) == (0 - TWO64) * (j + k);
    ModOfMultiple(i);
    ModOfMultiple(j + k);
  }

  /** INCRBY adds and DECRBY subtracts, as 64-bit integers do. */
  lemma IncrementingBy(k: Bytes, amount: Bytes, db: DB, e: Env, n: int64, m: int64) returns (up: int64, down: int64)
    requires Live(db, k, e.now) && Atoi(if k in db.store then db.store[k] else "0") == Some(n)
    requires Atoi(amount) == Some(m)
    ensures (up - (n + m)) % 0x1_0000_0000_0000_0000 == 0 && (down - (n - m)) % 0x1_0000_0000_0000_0000 == 0
    ensures Ask(["INCRBY", k, amount], db, e) == (db.(store := db.store[k := Itoa(up)]), Int(up))
    ensures Ask(["DECRBY", k, amount], db, e) == (db.(store := db.store[k := Itoa(down)]), Int(down))
  {
    hide *;
    var minus: int64 := Wrap(0 - m);
    up, down := Wrap(n + m), Wrap(n + minus);
    WrappedSums(n, m, minus);
    StringNames();
    IncrementsByAre(k, amount, m, minus, At(db, k), e);
    var s := CountedSlot(k, db, e, n, m);
    var t := CountedSlot(k, db, e, n, minus);
    IsSingle(OnString(INCRBY));
    IsSingle(OnString(DECRBY));
    assert ["INCRBY", k, amount] == ["INCRBY"] + [k, amount] && ["DECRBY", k, amount] == ["DECRBY"] + [k, amount];
    AsksKey("INCRBY", [k, amount], OnString(INCRBY), db, e, s, Int(up));
    AsksKey("DECRBY", [k, amount], OnString(DECRBY), db, e, t, Int(down));
  }

  lemma RefusedSlots(k: Bytes, amount: Bytes, db: DB, e: Env)
    requires Live(db, k, e.now)
    ensures k in db.store && Atoi(db.store[k]).None? ==>
              && OnKey(OnString(INCR), [k], At(db, k), e) == (At(db, k), Fail(NotAnInteger))
              && OnKey(OnString(DECR), [k], At(db, k), e) == (At(db, k), Fail(NotAnInteger))
    ensures (k in db.store && Atoi(db.store[k]).None?) || Atoi(amount).None? ==>
              && OnKey(OnString(INCRBY), [k, amount], At(db, k), e) == (At(db, k), Fail(NotAnInteger))
              && OnKey(OnString(DECRBY), [k, amount], At(db, k), e) == (At(db, k), Fail(NotAnInteger))
  {
    LiveIsKept(db, k, e.now);
    hide Evict, EvictKey, Atoi, Itoa, Wrap;
  }

  /** A text that is no 64-bit integer, stored or asked for, is refused and nothing changes. */
  lemma CountingRefused(k: Bytes, amount: Bytes, db: DB, e: Env)
    requires Live(db, k, e.now)
    ensures k in db.store && Atoi(db.store[k]).None? ==>
              && Ask(["INCR", k], db, e) == (db, Fail(NotAnInteger))
              && Ask(["DECR", k], db, e) == (db, Fail(NotAnInteger))
    ensures (k in db.store && Atoi(db.store[k]).None?) || Atoi(amount).None? ==>
              && Ask(["INCRBY", k, amount], db, e) == (db, Fail(NotAnInteger))
              && Ask(["DECRBY", k, amount], db, e) == (db, Fail(NotAnInteger))
  {
    hide *;
    StringNames();
    RefusedSlots(k, amount, db, e);
    IsSingle(OnString(INCR));
    IsSingle(OnString(DECR));
    IsSingle(OnString(INCRBY));
    IsSingle(OnString(DECRBY));
    assert ["INCR", k] == ["INCR"] + [k] && ["DECR", k] == ["DECR"] + [k];
    assert ["INCRBY", k, amount] == ["INCRBY"] + [k, amount] && ["DECRBY", k, amount] == ["DECRBY"] + [k, amount];
    if k in db.store && Atoi(db.store[k]).None? {
      AsksOnly("INCR", [k], OnString(INCR), db, e, Fail(NotAnInteger));
      AsksOnly("DECR", [k], OnString(DECR), db, e, Fail(NotAnInteger));
    }
    if (k in db.store && Atoi(db.store[k]).None?) || Atoi(amount).None? {
      AsksOnly("INCRBY", [k, amount], OnString(INCRBY), db, e, Fail(NotAnInteger));
      AsksOnly("DECRBY", [k, amount], OnString(DECRBY), db, e, Fail(NotAnInteger));
    }
  }
}
