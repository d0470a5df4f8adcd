/**
 The commands that only look at several keys, or at all of them, as the handlers run them on a database object.
 */
module ManyKeys {
  import opened Wrappers
  import opened GoText
  import opened Containers
  import opened Keyspace
  import opened Commands
  import opened Database
  import opened ReadCommands

  // -------------------------------------------------------------- EXISTS and MGET

  lemma CountStep(keys: seq<Bytes>, i: nat, m: DB, now: int)
    requires i < |keys|
    ensures var found := EvictKey(m, keys[i], now);
            var (m', n) := CountExisting(keys[i + 1..], found, now);
            CountExisting(keys[i..], m, now) == (m', (if Exists(At(found, keys[i])) then 1 else 0) + n)
  {
    assert keys[i..][1..] == keys[i + 1..];
    FoundText(m, keys[i], now, None);
    hide With, At, Evict, Exists;
  }

  lemma CountEnd(keys: seq<Bytes>, m: DB, now: int)
    ensures CountExisting(keys[|keys|..], m, now) == (m, 0) && keys[0..] == keys
  {
  }

  lemma ExistsExec(a: seq<Bytes>, m: DB, e: Env)
    ensures Exec(OnKeys(EXISTS), a, m, e) ==
            if |a| < 1 then (m, Fail(WrongArity))
            else (CountExisting(a, m, e.now).0, Int(CountExisting(a, m, e.now).1))
  {
    hide CountExisting;
  }

  method CountKeys(keys: seq<Bytes>, db: Database, now: int) returns (count: nat)
    requires db.Valid()
    modifies db
    ensures db.Valid() && db.Repr() <= old(db.Repr())
    ensures (db.Model(), count) == CountExisting(keys, old(db.Model()), now)
  {
    hide *;
    CountEnd(keys, db.Model(), now);
    count := 0;
    var i := 0;
    while i < |keys|
      invariant 0 <= i <= |keys|
      invariant db.Valid() && db.Repr() <= old(db.Repr())
      invariant CountExisting(keys, old(db.Model()), now) ==
                (CountExisting(keys[i..], db.Model(), now).0, count + CountExisting(keys[i..], db.Model(), now).1)
    {
      CountStep(keys, i, db.Model(), now);
      db.ExpireIfNeeded(keys[i], now);
      db.KeyExistsIs(keys[i]);
      if db.KeyExistsLocked(keys[i]) {
        count := count + 1;
      }
      i := i + 1;
    }
    CountEnd(keys, db.Model(), now);
  }

  method ExistsCommand(args: seq<Bytes>, db: Database, e: Env) returns (reply: Reply)
    requires db.Valid()
    modifies db
    ensures db.Valid() && db.Repr() <= old(db.Repr())
    ensures (db.Model(), reply) == Exec(OnKeys(EXISTS), args, old(db.Model()), e)
  {
    hide *;
    ExistsExec(args, db.Model(), e);
    if |args| < 1 {
      return Fail(WrongArity);
    }
    var count := CountKeys(args, db, e.now);
    return Int(count);
  }

  lemma EvictStep(keys: seq<Bytes>, i: nat, m: DB, now: int)
    requires i < |keys|
    ensures EvictAll(keys[i..], m, now) == EvictAll(keys[i + 1..], EvictKey(m, keys[i], now), now)
  {
    assert keys[i..][1..] == keys[i + 1..];
    hide EvictKey;
  }

  lemma EvictEnd(keys: seq<Bytes>, m: DB, now: int)
    ensures EvictAll(keys[|keys|..], m, now) == m && keys[0..] == keys
  {
  }

  method ExpireAll(keys: seq<Bytes>, db: Database, now: int)
    requires db.Valid()
    modifies db
    ensures db.Valid() && db.Repr() <= old(db.Repr())
    ensures db.Model() == EvictAll(keys, old(db.Model()), now)
  {
    hide *;
    EvictEnd(keys, db.Model(), now);
    var i := 0;
    while i < |keys|
      invariant 0 <= i <= |keys|
      invariant db.Valid() && db.Repr() <= old(db.Repr())
      invariant EvictAll(keys, old(db.Model()), now) == EvictAll(keys[i..], db.Model(), now)
    {
      EvictStep(keys, i, db.Model(), now);
      db.ExpireIfNeeded(keys[i], now);
      i := i + 1;
    }
    EvictEnd(keys, db.Model(), now);
  }

  lemma MGetExec(a: seq<Bytes>, m: DB, e: Env)
    ensures Exec(OnKeys(MGET), a, m, e) ==
            if |a| < 1 then (m, Fail(WrongArity))
            else (EvictAll(a, m, e.now), Many(Texts(a, EvictAll(a, m, e.now))))
  {
    hide EvictAll, Texts;
  }

  method ReadTexts(keys: seq<Bytes>, db: Database) returns (texts: seq<Reply>)
    requires db.Valid()
    ensures texts == Texts(keys, db.Model())
    ensures db.Valid() && db.Repr() == old(db.Repr()) && db.Model() == old(db.Model())
  {
    texts := [];
    var i := 0;
    while i < |keys|
      invariant 0 <= i <= |keys| == |Texts(keys, db.Model())|
      invariant texts == Texts(keys, db.Model())[..i]
    {
      texts := texts + [if keys[i] in db.store then Bulk(db.store[keys[i]]) else Nil];
      i := i + 1;
    }
  }

  method MGet(args: seq<Bytes>, db: Database, e: Env) returns (reply: Reply)
    requires db.Valid()
    modifies db
    ensures db.Valid() && db.Repr() <= old(db.Repr())
    ensures (db.Model(), reply) == Exec(OnKeys(MGET), args, old(db.Model()), e)
  {
    hide *;
    MGetExec(args, db.Model(), e);
    if |args| < 1 {
      return Fail(WrongArity);
    }
    ExpireAll(args, db, e.now);
    var texts := ReadTexts(args, db);
    return Many(texts);
  }

  // ------------------------------------------------------- SINTER, SUNION and SDIFF

  lemma GatherStep(keys: seq<Bytes>, i: nat, m: DB, stop: bool, now: int)
    requires i < |keys|
    ensures var found := EvictKey(m, keys[i], now);
            Gather(keys[i..], m, stop, now) ==
            if keys[i] in found.sets then
              var (m', complete, rest) := Gather(keys[i + 1..], found, stop, now);
              (m', complete, [found.sets[keys[i]]] + rest)
            else if stop then (found, false, [])
            else Gather(keys[i + 1..], found, stop, now)
  {
    assert keys[i..][1..] == keys[i + 1..];
    FoundSet(m, keys[i], now, None);
    hide With, At, Evict;
  }

  lemma GatherEnd(keys: seq<Bytes>, m: DB, stop: bool, now: int)
    ensures Gather(keys[|keys|..], m, stop, now) == (m, true, []) && keys[0..] == keys
  {
  }

  function Before(sets: seq<set<Bytes>>, r: (DB, bool, seq<set<Bytes>>)): (DB, bool, seq<set<Bytes>>) {
    (r.0, r.1, sets + r.2)
  }

  lemma BeforeIs(sets: seq<set<Bytes>>, one: set<Bytes>, r: (DB, bool, seq<set<Bytes>>))
    ensures Before([], r) == r
    ensures Before(sets, (r.0, r.1, [one] + r.2)) == Before(sets + [one], r)
    ensures Before(sets, (r.0, r.1, [])) == (r.0, r.1, sets)
  {
    assert sets + ([one] + r.2) == sets + [one] + r.2;
    assert [] + r.2 == r.2;
    assert sets + [] == sets;
  }

  /** The contents of some set objects. */
  ghost function ContentsOf(sets: seq<Set>): (r: seq<set<Bytes>>)
    reads sets
    ensures |r| == |sets| && forall i :: 0 <= i < |sets| ==> r[i] == sets[i].items
  {
    seq(|sets|, i requires 0 <= i < |sets| reads sets => sets[i].items)
  }

  lemma ContentsSnoc(sets: seq<Set>, one: Set)
    ensures ContentsOf([]) == [] && ContentsOf(sets + [one]) == ContentsOf(sets) + [one.items]
  {
  }

  lemma SetFound(db: Database, key: Bytes)
    ensures Find(db.sets, key) == if key in db.sets then Some(db.sets[key]) else None
    ensures key in db.sets <==> key in db.Model().sets
    ensures key in db.sets ==> db.Model().sets[key] == db.sets[key].items
  {
  }

  /**
   The loop of SINTER, SUNION and SDIFF over the keys behind the first. A missing set ends the first of them and
   is skipped by the others.
   */
  method GatherSets(keys: seq<Bytes>, db: Database, stop: bool, now: int) returns (complete: bool, sets: seq<Set>)
    requires db.Valid()
    modifies db
    ensures db.Valid() && db.Repr() <= old(db.Repr())
    ensures var (m, c, all) := Gather(keys, old(db.Model()), stop, now);
            db.Model() == m && complete == c && (c ==> ContentsOf(sets) == all)
  {
    hide *;
    GatherEnd(keys, db.Model(), stop, now);
    BeforeIs([], {}, Gather(keys, db.Model(), stop, now));
    sets := [];
    var i := 0;
    while i < |keys|
      invariant 0 <= i <= |keys|
      invariant db.Valid() && db.Repr() <= old(db.Repr())
      invariant Gather(keys, old(db.Model()), stop, now) ==
                Before(ContentsOf(sets), Gather(keys[i..], db.Model(), stop, now))
    {
      GatherStep(keys, i, db.Model(), stop, now);
      var obj := db.GetSet(keys[i], now);
      SetFound(db, keys[i]);
      if obj.None? {
        if stop {
          BeforeIs(ContentsOf(sets), {}, (db.Model(), false, []));
          return false, [];
        }
      } else {
        BeforeIs(ContentsOf(sets), obj.value.items, Gather(keys[i + 1..], db.Model(), stop, now));
        ContentsSnoc(sets, obj.value);
        sets := sets + [obj.value];
      }
      i := i + 1;
    }
    GatherEnd(keys, db.Model(), stop, now);
    BeforeIs(ContentsOf(sets), {}, (db.Model(), true, []));
    return true, sets;
  }

  lemma {:induction false} SkippingIsComplete(keys: seq<Bytes>, m: DB, now: int)
    ensures Gather(keys, m, false, now).1
  {
    if keys != [] {
      var s := Evict(At(m, keys[0]), now);
      SkippingIsComplete(keys[1..], With(m, keys[0], s), now);
    }
  }

  lemma GatherFirst(a: seq<Bytes>, m: DB, stop: bool, now: int)
    requires |a| >= 1
    ensures a[0..] == a
    ensures var found := EvictKey(m, a[0], now);
            Gather(a, m, stop, now) ==
            if a[0] in found.sets then
              var (m', complete, rest) := Gather(a[1..], found, stop, now);
              (m', complete, [found.sets[a[0]]] + rest)
            else if stop then (found, false, [])
            else Gather(a[1..], found, stop, now)
  {
    GatherStep(a, 0, m, stop, now);
    assert a[0..] == a;
    hide Gather, EvictKey;
  }

  lemma InterExec(a: seq<Bytes>, m: DB, e: Env)
    ensures Exec(OnKeys(SINTER), a, m, e) ==
            if |a| < 1 then (m, Fail(WrongArity))
            else
              var found := EvictKey(m, a[0], e.now);
              if a[0] !in found.sets then (found, Members({}))
              else
                var (m', complete, others) := Gather(a[1..], found, true, e.now);
                (m', Members(if complete then Intersection([found.sets[a[0]]] + others) else {}))
  {
    if |a| >= 1 {
      GatherFirst(a, m, true, e.now);
    }
    hide Gather, Intersection, EvictKey;
  }

  lemma UnionExec(a: seq<Bytes>, m: DB, e: Env)
    ensures Exec(OnKeys(SUNION), a, m, e) ==
            if |a| < 1 then (m, Fail(WrongArity))
            else
              var found := EvictKey(m, a[0], e.now);
              var (m', _, others) := Gather(a[1..], found, false, e.now);
              (m', Members((if a[0] in found.sets then found.sets[a[0]] else {}) + Union(others)))
  {
    if |a| >= 1 {
      GatherFirst(a, m, false, e.now);
      var (m', c, others) := Gather(a[1..], EvictKey(m, a[0], e.now), false, e.now);
      hide Gather, EvictKey;
      assert forall one: set<Bytes> :: ([one] + others)[1..] == others;
      assert {} + Union(others) == Union(others);
    }
  }

  lemma DiffExec(a: seq<Bytes>, m: DB, e: Env)
    ensures Exec(OnKeys(SDIFF), a, m, e) ==
            if |a| < 1 then (m, Fail(WrongArity))
            else
              var found := EvictKey(m, a[0], e.now);
              if a[0] !in found.sets then (found, Members({}))
              else
                var (m', _, others) := Gather(a[1..], found, false, e.now);
                (m', Members(found.sets[a[0]] - Union(others)))
  {
    if |a| >= 1 {
      FoundSet(m, a[0], e.now, None);
    }
    hide Gather, Union, With, At, Evict;
  }

  /** What the three methods of a set object return, as sets. */
  lemma InterIs(first: Set, others: seq<Set>, result: seq<Bytes>)
    requires forall m :: m in result <==> m in first.items && InAll(m, others)
    ensures Elements(result) == Intersection([first.items] + ContentsOf(others))
  {
    var all := [first.items] + ContentsOf(others);
    forall m
      ensures m in Elements(result) <==> m in Intersection(all)
    {
      IntersectionIs(all, m);
      if m in Intersection(all) {
        forall i | 0 <= i < |others|
          ensures m in others[i].items
        {
          assert m in all[i + 1];
        }
        assert m in all[0];
      }
    }
  }

  lemma SomeIsUnion(m: Bytes, others: seq<Set>)
    ensures InSome(m, others) <==> m in Union(ContentsOf(others))
  {
    UnionIs(ContentsOf(others), m);
  }

  lemma UnionIsAll(first: Set, others: seq<Set>, result: seq<Bytes>)
    requires forall m :: m in result <==> m in first.items || InSome(m, others)
    ensures Elements(result) == first.items + Union(ContentsOf(others))
  {
    forall m
      ensures m in Elements(result) <==> m in first.items + Union(ContentsOf(others))
    {
      SomeIsUnion(m, others);
    }
  }

  lemma DiffIs(first: Set, others: seq<Set>, result: seq<Bytes>)
    requires forall m :: m in result <==> m in first.items && !InSome(m, others)
    ensures Elements(result) == first.items - Union(ContentsOf(others))
  {
    forall m
      ensures m in Elements(result) <==> m in first.items - Union(ContentsOf(others))
    {
      SomeIsUnion(m, others);
    }
  }

  method SInter(args: seq<Bytes>, db: Database, e: Env) returns (reply: Reply)
    requires db.Valid()
    modifies db
    ensures db.Valid() && db.Repr() <= old(db.Repr())
    ensures (db.Model(), reply) == Exec(OnKeys(SINTER), args, old(db.Model()), e)
  {
    hide *;
    InterExec(args, db.Model(), e);
    if |args| < 1 {
      return Fail(WrongArity);
    }
    var first := db.GetSet(args[0], e.now);
    SetFound(db, args[0]);
    if first.None? {
      return Members({});
    }
    var complete, others := GatherSets(args[1..], db, true, e.now);
    if !complete {
      return Members({});
    }
    Owned(db);
    ghost var world := db.Repr();
    label gathered:
    var members := first.value.SInter(others);
    assert forall o :: o in world ==> unchanged@gathered(o);
    InterIs(first.value, others, members);
    return Members(Elements(members));
  }

  method SUnion(args: seq<Bytes>, db: Database, e: Env) returns (reply: Reply)
    requires db.Valid()
    modifies db
    ensures db.Valid() && db.Repr() <= old(db.Repr())
    ensures (db.Model(), reply) == Exec(OnKeys(SUNION), args, old(db.Model()), e)
  {
    hide *;
    UnionExec(args, db.Model(), e);
    if |args| < 1 {
      return Fail(WrongArity);
    }
    var found := db.GetSet(args[0], e.now);
    SetFound(db, args[0]);
    SkippingIsComplete(args[1..], db.Model(), e.now);
    var _, others := GatherSets(args[1..], db, false, e.now);
    Owned(db);
    ghost var world := db.Repr();
    label gathered:
    var first;
    if found.Some? {
      first := found.value;
    } else {
      first := new Set();
    }
    var members := first.SUnion(others);
    assert forall o :: o in world ==> unchanged@gathered(o);
    UnionIsAll(first, others, members);
    return Members(Elements(members));
  }

  method SDiff(args: seq<Bytes>, db: Database, e: Env) returns (reply: Reply)
    requires db.Valid()
    modifies db
    ensures db.Valid() && db.Repr() <= old(db.Repr())
    ensures (db.Model(), reply) == Exec(OnKeys(SDIFF), args, old(db.Model()), e)
  {
    hide *;
    DiffExec(args, db.Model(), e);
    if |args| < 1 {
      return Fail(WrongArity);
    }
    var first := db.GetSet(args[0], e.now);
    SetFound(db, args[0]);
    if first.None? {
      return Members({});
    }
    SkippingIsComplete(args[1..], db.Model(), e.now);
    var _, others := GatherSets(args[1..], db, false, e.now);
    Owned(db);
    ghost var world := db.Repr();
    label gathered:
    var members := first.value.SDiff(others);
    assert forall o :: o in world ==> unchanged@gathered(o);
    DiffIs(first.value, others, members);
    return Members(Elements(members));
  }

  // --------------------------------------------------------- KEYS, SCAN and DBSIZE

  lemma KeyspaceExec(op: KeyspaceOp, a: seq<Bytes>, m: DB, e: Env)
    ensures var swept := Sweep(m, e.now);
            Exec(OnKeyspace(op), a, m, e) ==
            match op
            case KEYS => if |a| != 1 then (m, Fail(WrongArity)) else (swept, KeysReply(swept, a[0]))
            case SCAN =>
              if |a| < 1 then (m, Fail(WrongArity))
              else if Atoi(a[0]).None? then (m, Fail(InvalidCursor))
              else (swept, Many([Bulk("0"), KeysReply(swept, MatchPattern(a, 1, "*"))]))
            case DBSIZE => (swept, Int(TotalKeys(swept)))
  {
    hide Sweep, KeysReply, MatchPattern, Atoi;
  }

  /** The keys of each type, in map iteration's order, matched against the pattern by the library. */
  function ListKeysLike(pattern: Bytes, db: Database): (reply: Reply)
    reads db.Repr()
    ensures reply == KeysReply(db.Model(), pattern)
  {
    db.KeysAre();
    KeysLike(pattern, db.store.Keys, db.lists.Keys, db.sets.Keys, db.hashes.Keys)
  }

  function CountAll(db: Database): (total: nat)
    reads db.Repr()
    ensures total == TotalKeys(db.Model())
  {
    db.KeysAre();
    assert |db.Model().lists| == |db.Model().lists.Keys|;
    |db.store.Keys| + |db.lists.Keys| + |db.sets.Keys| + |db.hashes.Keys|
  }

  method Enumerate(op: KeyspaceOp, args: seq<Bytes>, db: Database, e: Env) returns (reply: Reply)
    requires db.Valid()
    modifies db
    ensures db.Valid() && db.Repr() <= old(db.Repr())
    ensures (db.Model(), reply) == Exec(OnKeyspace(op), args, old(db.Model()), e)
  {
    hide *;
    KeyspaceExec(op, args, db.Model(), e);
    if (op == KEYS && |args| != 1) || (op == SCAN && |args| < 1) {
      return Fail(WrongArity);
    }
    if op == SCAN && Atoi(args[0]).None? {
      return Fail(InvalidCursor);
    }
    db.SweepExpired(e.now);
    match op {
      case KEYS => reply := ListKeysLike(args[0], db);
      case SCAN => reply := Many([Bulk("0"), ListKeysLike(MatchPattern(args, 1, "*"), db)]);
      case DBSIZE => reply := Int(CountAll(db));
    }
  }
}
