/** The set commands in the words on the wire. */
module WireSets {
  import opened Wrappers
  import opened GoText
  import opened Containers
  import opened Keyspace
  import opened Commands
  import opened Wire

  /** The members under a key; a missing set has none. */
  function SetAt(db: DB, k: Bytes): set<Bytes> {
    if k in db.sets then db.sets[k] else {}
  }

  /** The database with these members under the key, which goes when there are none. */
  function Keeping(db: DB, k: Bytes, members: set<Bytes>): DB {
    db.(sets := if members == {} then db.sets - {k} else db.sets[k := members])
  }

  lemma SetSlot(k: Bytes, db: DB, e: Env, members: set<Bytes>)
    requires Live(db, k, e.now)
    ensures var s := At(db, k);
            && Evict(s, e.now) == s && s.members.GetOr({}) == SetAt(db, k) && (s.members.Some? <==> k in db.sets)
            && With(db, k, s.(members := Some(members))) == db.(sets := db.sets[k := members])
            && With(db, k, s.(members := SetOrNone(members))) == Keeping(db, k, members)
  {
    LiveIsKept(db, k, e.now);
    OnePart(db, k, At(db, k).(members := Some(members)));
    OnePart(db, k, At(db, k).(members := None));
    hide With, Evict, EvictKey;
  }

  lemma AddSlot(k: Bytes, ms: seq<Bytes>, db: DB, e: Env)
    requires ms != [] && Live(db, k, e.now)
    ensures var larger := SetAt(db, k) + Elements(ms);
            OnKey(OnSet(SADD), [k] + ms, At(db, k), e) ==
            (At(db, k).(members := Some(larger)), Int(|larger| - |SetAt(db, k)|))
  {
    SetSlot(k, db, e, {});
    assert ([k] + ms)[1..] == ms;
    hide With, Evict, Elements;
  }

  /** How many elements a union adds and a difference takes. */
  lemma Sizes(have: set<Bytes>, more: set<Bytes>)
    ensures |have + more| - |have| == |more - have|
    ensures |have| - |have - more| == |have * more|
  {
    assert have + more == have + (more - have);
    assert have == (have - more) + (have * more);
  }

  /** SADD adds its members and answers how many of them were new. */
  lemma Adding(k: Bytes, ms: seq<Bytes>, db: DB, e: Env)
    requires ms != [] && Live(db, k, e.now)
    ensures Ask(["SADD", k] + ms, db, e) ==
            (db.(sets := db.sets[k := SetAt(db, k) + Elements(ms)]), Int(|Elements(ms) - SetAt(db, k)|))
  {
    Sizes(SetAt(db, k), Elements(ms));
    hide *;
    AddSlot(k, ms, db, e);
    AddingTo(k, ms, db, e, SetAt(db, k) + Elements(ms));
  }

  lemma AddingTo(k: Bytes, ms: seq<Bytes>, db: DB, e: Env, larger: set<Bytes>)
    requires Live(db, k, e.now)
    requires SingleKey(OnSet(SADD)) ==>
               OnKey(OnSet(SADD), [k] + ms, At(db, k), e) ==
               (At(db, k).(members := Some(larger)), Int(|larger| - |SetAt(db, k)|))
    ensures Ask(["SADD", k] + ms, db, e) == (db.(sets := db.sets[k := larger]), Int(|larger| - |SetAt(db, k)|))
  {
    hide *;
    SetNames();
    IsSingle(OnSet(SADD));
    SetSlot(k, db, e, larger);
    assert ["SADD", k] + ms == ["SADD"] + ([k] + ms);
    AsksKey("SADD", [k] + ms, OnSet(SADD), db, e, At(db, k).(members := Some(larger)),
            Int(|larger| - |SetAt(db, k)|));
  }

  lemma RemoveSlot(k: Bytes, ms: seq<Bytes>, db: DB, e: Env)
    requires ms != [] && Live(db, k, e.now)
    ensures var left := SetAt(db, k) - Elements(ms);
            OnKey(OnSet(SREM), [k] + ms, At(db, k), e) ==
            if k in db.sets then (At(db, k).(members := SetOrNone(left)), Int(|SetAt(db, k)| - |left|))
            else (At(db, k), Int(0))
  {
    SetSlot(k, db, e, {});
    assert ([k] + ms)[1..] == ms;
    hide With, Evict, Elements, SetOrNone;
  }

  /** SREM takes its members out and answers how many were there; the key goes with the last. */
  lemma Removing(k: Bytes, ms: seq<Bytes>, db: DB, e: Env)
    requires ms != [] && Live(db, k, e.now)
    ensures Ask(["SREM", k] + ms, db, e) ==
            if k in db.sets then (Keeping(db, k, SetAt(db, k) - Elements(ms)), Int(|SetAt(db, k) * Elements(ms)|))
            else (db, Int(0))
  {
    Sizes(SetAt(db, k), Elements(ms));
    hide *;
    RemoveSlot(k, ms, db, e);
    if k in db.sets {
      RemovingTo(k, ms, db, e, SetAt(db, k) - Elements(ms));
    } else {
      RemovingNone(k, ms, db, e);
    }
  }

  lemma RemovingTo(k: Bytes, ms: seq<Bytes>, db: DB, e: Env, left: set<Bytes>)
    requires Live(db, k, e.now)
    requires SingleKey(OnSet(SREM)) ==>
               OnKey(OnSet(SREM), [k] + ms, At(db, k), e) ==
               (At(db, k).(members := SetOrNone(left)), Int(|SetAt(db, k)| - |left|))
    ensures Ask(["SREM", k] + ms, db, e) == (Keeping(db, k, left), Int(|SetAt(db, k)| - |left|))
  {
    hide *;
    SetNames();
    IsSingle(OnSet(SREM));
    SetSlot(k, db, e, left);
    assert ["SREM", k] + ms == ["SREM"] + ([k] + ms);
    AsksKey("SREM", [k] + ms, OnSet(SREM), db, e, At(db, k).(members := SetOrNone(left)),
            Int(|SetAt(db, k)| - |left|));
  }

  lemma RemovingNone(k: Bytes, ms: seq<Bytes>, db: DB, e: Env)
    requires SingleKey(OnSet(SREM)) ==> OnKey(OnSet(SREM), [k] + ms, At(db, k), e) == (At(db, k), Int(0))
    ensures Ask(["SREM", k] + ms, db, e) == (db, Int(0))
  {
    hide *;
    SetNames();
    IsSingle(OnSet(SREM));
    assert ["SREM", k] + ms == ["SREM"] + ([k] + ms);
    AsksOnly("SREM", [k] + ms, OnSet(SREM), db, e, Int(0));
  }

  lemma LookSlots(k: Bytes, m: Bytes, db: DB, e: Env)
    requires Live(db, k, e.now)
    ensures OnKey(OnSet(SISMEMBER), [k, m], At(db, k), e) == (At(db, k), Int(if m in SetAt(db, k) then 1 else 0))
    ensures OnKey(OnSet(SMEMBERS), [k], At(db, k), e) == (At(db, k), Members(SetAt(db, k)))
    ensures OnKey(OnSet(SCARD), [k], At(db, k), e) == (At(db, k), Int(|SetAt(db, k)|))
  {
    SetSlot(k, db, e, {});
    hide With, Evict;
  }

  lemma Looking(k: Bytes, m: Bytes, db: DB, e: Env)
    requires Live(db, k, e.now)
    ensures Ask(["SISMEMBER", k, m], db, e) == (db, Int(if m in SetAt(db, k) then 1 else 0))
    ensures Ask(["SMEMBERS", k], db, e) == (db, Members(SetAt(db, k)))
    ensures Ask(["SCARD", k], db, e) == (db, Int(|SetAt(db, k)|))
  {
    hide *;
    SetNames();
    LookSlots(k, m, db, e);
    IsSingle(OnSet(SISMEMBER));
    IsSingle(OnSet(SMEMBERS));
    IsSingle(OnSet(SCARD));
    assert ["SISMEMBER", k, m] == ["SISMEMBER"] + [k, m];
    assert ["SMEMBERS", k] == ["SMEMBERS"] + [k] && ["SCARD", k] == ["SCARD"] + [k];
    AsksOnly("SISMEMBER", [k, m], OnSet(SISMEMBER), db, e, Int(if m in SetAt(db, k) then 1 else 0));
    AsksOnly("SMEMBERS", [k], OnSet(SMEMBERS), db, e, Members(SetAt(db, k)));
    AsksOnly("SCARD", [k], OnSet(SCARD), db, e, Int(|SetAt(db, k)|));
  }

  lemma PopSlot(k: Bytes, db: DB, e: Env) returns (m: Bytes)
    requires Live(db, k, e.now) && SetAt(db, k) != {}
    ensures m in SetAt(db, k) && (e.pick in SetAt(db, k) ==> m == e.pick)
    ensures OnKey(OnSet(SPOP), [k], At(db, k), e) == (At(db, k).(members := SetOrNone(SetAt(db, k) - {m})), Bulk(m))
  {
    SetSlot(k, db, e, {});
    m := Picked(SetAt(db, k), e.pick);
    hide With, Evict, Picked, SetOrNone;
  }

  /** SPOP takes some member, the one map iteration yields first, and answers it; the key goes with the last. */
  lemma Popping(k: Bytes, db: DB, e: Env) returns (m: Bytes)
    requires Live(db, k, e.now) && SetAt(db, k) != {}
    ensures m in SetAt(db, k) && (e.pick in SetAt(db, k) ==> m == e.pick)
    ensures Ask(["SPOP", k], db, e) == (Keeping(db, k, SetAt(db, k) - {m}), Bulk(m))
  {
    hide *;
    SetNames();
    IsSingle(OnSet(SPOP));
    m := PopSlot(k, db, e);
    SetSlot(k, db, e, SetAt(db, k) - {m});
    assert ["SPOP", k] == ["SPOP"] + [k];
    AsksKey("SPOP", [k], OnSet(SPOP), db, e, At(db, k).(members := SetOrNone(SetAt(db, k) - {m})), Bulk(m));
  }

  lemma PopNothingSlot(k: Bytes, db: DB, e: Env)
    requires Live(db, k, e.now) && SetAt(db, k) == {}
    ensures OnKey(OnSet(SPOP), [k], At(db, k), e) == (At(db, k), Nil)
  {
    SetSlot(k, db, e, {});
    hide With, Evict;
  }

  lemma PoppingNothing(k: Bytes, db: DB, e: Env)
    requires Live(db, k, e.now) && SetAt(db, k) == {}
    ensures Ask(["SPOP", k], db, e) == (db, Nil)
  {
    hide *;
    SetNames();
    IsSingle(OnSet(SPOP));
    PopNothingSlot(k, db, e);
    assert ["SPOP", k] == ["SPOP"] + [k];
    AsksOnly("SPOP", [k], OnSet(SPOP), db, e, Nil);
  }

  // --------------------------------------------------------------- several sets

  ghost predicate AllLive(db: DB, ks: seq<Bytes>, now: int) {
    forall i :: 0 <= i < |ks| ==> Live(db, ks[i], now)
  }

  lemma GatherFirst(ks: seq<Bytes>, db: DB, stop: bool, now: int)
    requires ks != [] && AllLive(db, ks, now)
    ensures AllLive(db, ks[1..], now)
    ensures Gather(ks, db, stop, now) ==
            if ks[0] in db.sets then
              var (db', complete, rest) := Gather(ks[1..], db, stop, now);
              (db', complete, [db.sets[ks[0]]] + rest)
            else if stop then (db, false, []) else Gather(ks[1..], db, stop, now)
  {
    assert Live(db, ks[0], now);
    LiveIsKept(db, ks[0], now);
    SelfWith(db, ks[0]);
    hide With, Evict, EvictKey;
  }

  /** The set of some key holds the member. */
  ghost predicate InOne(m: Bytes, db: DB, ks: seq<Bytes>) {
    exists i :: 0 <= i < |ks| && ks[i] in db.sets && m in db.sets[ks[i]]
  }

  lemma InOneStep(m: Bytes, db: DB, ks: seq<Bytes>)
    requires ks != []
    ensures InOne(m, db, ks) <==> (ks[0] in db.sets && m in db.sets[ks[0]]) || InOne(m, db, ks[1..])
  {
    if InOne(m, db, ks[1..]) {
      var i :| 0 <= i < |ks[1..]| && ks[1..][i] in db.sets && m in db.sets[ks[1..][i]];
      assert ks[i + 1] == ks[1..][i];
    }
    if i :| 1 <= i < |ks| && ks[i] in db.sets && m in db.sets[ks[i]] {
      assert ks[1..][i - 1] == ks[i];
    }
  }

  lemma {:induction false} GathersAll(ks: seq<Bytes>, db: DB, now: int, m: Bytes)
    requires AllLive(db, ks, now)
    ensures var (db', complete, sets) := Gather(ks, db, false, now);
            db' == db && complete && (m in Union(sets) <==> InOne(m, db, ks))
  {
    if ks != [] {
      GatherFirst(ks, db, false, now);
      GathersAll(ks[1..], db, now, m);
      InOneStep(m, db, ks);
      hide AllLive, Gather, InOne;
      var rest := Gather(ks[1..], db, false, now).2;
      assert ks[0] in db.sets ==> ([db.sets[ks[0]]] + rest)[1..] == rest;
    }
  }

  /** Every key has a set and every set holds the member. */
  ghost predicate InEvery(m: Bytes, db: DB, ks: seq<Bytes>) {
    forall i :: 0 <= i < |ks| ==> ks[i] in db.sets && m in db.sets[ks[i]]
  }

  lemma InEveryStep(m: Bytes, db: DB, ks: seq<Bytes>)
    requires ks != []
    ensures InEvery(m, db, ks) <==> ks[0] in db.sets && m in db.sets[ks[0]] && InEvery(m, db, ks[1..])
  {
    if ks[0] in db.sets && m in db.sets[ks[0]] && InEvery(m, db, ks[1..]) {
      forall i | 0 <= i < |ks|
        ensures ks[i] in db.sets && m in db.sets[ks[i]]
      {
        assert i > 0 ==> ks[1..][i - 1] == ks[i];
      }
    }
  }

  lemma {:induction false} GathersEvery(ks: seq<Bytes>, db: DB, now: int, m: Bytes)
    requires AllLive(db, ks, now) && ks != []
    ensures var (db', complete, sets) := Gather(ks, db, true, now);
            && db' == db && (complete ==> sets != [])
            && ((complete && m in Intersection(sets)) <==> InEvery(m, db, ks))
    decreases ks
  {
    GatherFirst(ks, db, true, now);
    InEveryStep(m, db, ks);
    if |ks| == 1 {
      assert Gather(ks[1..], db, true, now) == (db, true, []);
    } else {
      GathersEvery(ks[1..], db, now, m);
      hide AllLive, Gather, InEvery;
      var rest := Gather(ks[1..], db, true, now).2;
      assert ks[0] in db.sets ==> ([db.sets[ks[0]]] + rest)[1..] == rest;
    }
  }

  lemma SetExecs(ks: seq<Bytes>, db: DB, e: Env)
    requires ks != []
    ensures Exec(OnKeys(SINTER), ks, db, e) ==
            var (db', complete, sets) := Gather(ks, db, true, e.now);
            (db', Members(if complete then Intersection(sets) else {}))
    ensures Exec(OnKeys(SUNION), ks, db, e) ==
            (Gather(ks, db, false, e.now).0, Members(Union(Gather(ks, db, false, e.now).2)))
    ensures Exec(OnKeys(SDIFF), ks, db, e) == Diff(ks, db, e.now)
  {
    hide Gather, Intersection, Union, Diff;
  }

  lemma SetAlgebraIs(ks: seq<Bytes>, db: DB, e: Env)
    requires ks != []
    ensures Ask(["SINTER"] + ks, db, e) ==
            var (db', complete, sets) := Gather(ks, db, true, e.now);
            (db', Members(if complete then Intersection(sets) else {}))
    ensures Ask(["SUNION"] + ks, db, e) ==
            (Gather(ks, db, false, e.now).0, Members(Union(Gather(ks, db, false, e.now).2)))
    ensures Ask(["SDIFF"] + ks, db, e) == Diff(ks, db, e.now)
  {
    hide *;
    KeysNames();
    SetExecs(ks, db, e);
    Asks("SINTER", ks, OnKeys(SINTER), db, e);
    Asks("SUNION", ks, OnKeys(SUNION), db, e);
    Asks("SDIFF", ks, OnKeys(SDIFF), db, e);
  }

  /** SINTER answers the members that the set of every key holds: none at all where a key has no set. */
  lemma Intersecting(ks: seq<Bytes>, db: DB, e: Env) returns (r: set<Bytes>)
    requires ks != [] && AllLive(db, ks, e.now)
    ensures Ask(["SINTER"] + ks, db, e) == (db, Members(r))
    ensures forall m :: m in r <==> InEvery(m, db, ks)
  {
    SetAlgebraIs(ks, db, e);
    var (db', complete, sets) := Gather(ks, db, true, e.now);
    r := if complete then Intersection(sets) else {};
    hide Ask, Gather, Intersection, AllLive, InEvery;
    GathersEvery(ks, db, e.now, "");
    forall m
      ensures m in r <==> InEvery(m, db, ks)
    {
      GathersEvery(ks, db, e.now, m);
    }
  }

  /** SUNION answers the members that the set of some key holds. */
  lemma Uniting(ks: seq<Bytes>, db: DB, e: Env) returns (r: set<Bytes>)
    requires ks != [] && AllLive(db, ks, e.now)
    ensures Ask(["SUNION"] + ks, db, e) == (db, Members(r))
    ensures forall m :: m in r <==> InOne(m, db, ks)
  {
    SetAlgebraIs(ks, db, e);
    r := Union(Gather(ks, db, false, e.now).2);
    hide Ask, Gather, Union, AllLive, InOne;
    GathersAll(ks, db, e.now, "");
    forall m
      ensures m in r <==> InOne(m, db, ks)
    {
      GathersAll(ks, db, e.now, m);
    }
  }

  lemma DiffIs(ks: seq<Bytes>, db: DB, now: int)
    requires ks != [] && AllLive(db, ks, now)
    ensures AllLive(db, ks[1..], now)
    ensures Diff(ks, db, now) ==
            if ks[0] !in db.sets then (db, Members({}))
            else (Gather(ks[1..], db, false, now).0, Members(db.sets[ks[0]] - Union(Gather(ks[1..], db, false, now).2)))
  {
    GatherFirst(ks, db, false, now);
    assert Live(db, ks[0], now);
    LiveIsKept(db, ks[0], now);
    SelfWith(db, ks[0]);
    hide With, Evict, EvictKey, Gather, Union;
  }

  /** SDIFF answers the members of the first key's set that no other key's set holds. */
  lemma Subtracting(ks: seq<Bytes>, db: DB, e: Env) returns (r: set<Bytes>)
    requires ks != [] && AllLive(db, ks, e.now)
    ensures Ask(["SDIFF"] + ks, db, e) == (db, Members(r))
    ensures forall m :: m in r <==> ks[0] in db.sets && m in db.sets[ks[0]] && !InOne(m, db, ks[1..])
  {
    SetAlgebraIs(ks, db, e);
    DiffIs(ks, db, e.now);
    r := if ks[0] !in db.sets then {} else db.sets[ks[0]] - Union(Gather(ks[1..], db, false, e.now).2);
    hide Ask, Gather, Union, AllLive, InOne, Diff;
    GathersAll(ks[1..], db, e.now, "");
    forall m
      ensures m in r <==> ks[0] in db.sets && m in db.sets[ks[0]] && !InOne(m, db, ks[1..])
    {
      GathersAll(ks[1..], db, e.now, m);
    }
  }
}
