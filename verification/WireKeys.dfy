/** Deadlines, the commands on several keys, and those on the whole keyspace, in the words on the wire. */
module WireKeys {
  import opened Wrappers
  import opened GoText
  import opened Containers
  import opened Keyspace
  import opened Commands
  import opened Wire
  import WireStrings

  /** One of the four data maps has the key. */
  predicate Has(db: DB, k: Bytes) {
    k in db.store || k in db.lists || k in db.sets || k in db.hashes
  }

  // ------------------------------------------------------------------- deadlines

  lemma DeadlineSlot(k: Bytes, db: DB, e: Env, t: Option<int>)
    requires Live(db, k, e.now)
    ensures var s := At(db, k);
            && Evict(s, e.now) == s && (Exists(s) <==> Has(db, k)) && s.deadline == Find(db.expires, k)
            && With(db, k, s.(deadline := t)) == db.(expires := Assign(db.expires, k, t))
  {
    LiveIsKept(db, k, e.now);
    OnePart(db, k, At(db, k).(deadline := t));
    hide With, Evict, EvictKey, Assign;
  }

  lemma ExpireSlots(k: Bytes, amount: Bytes, db: DB, e: Env, n: int64)
    requires Live(db, k, e.now) && Atoi(amount) == Some(n)
    ensures OnKey(OnDeadline(EXPIRE), [k, amount], At(db, k), e) ==
            if Has(db, k) then (At(db, k).(deadline := Some(e.now + Wrap(n * 1_000_000_000))), Int(1))
            else (At(db, k), Int(0))
    ensures OnKey(OnDeadline(PEXPIRE), [k, amount], At(db, k), e) ==
            if Has(db, k) then (At(db, k).(deadline := Some(e.now + Wrap(n * 1_000_000))), Int(1))
            else (At(db, k), Int(0))
  {
    DeadlineSlot(k, db, e, None);
    hide With, Evict, Atoi, Wrap, Exists;
  }

  lemma Nanos(n: int64, unit: int) returns (d: int64)
    ensures d == Wrap(n * unit) && (d - n * unit) % 0x1_0000_0000_0000_0000 == 0
    ensures -0x8000_0000_0000_0000 <= n * unit <= 0x7fff_ffff_ffff_ffff ==> d == n * unit
  {
    d := Wrap(n * unit);
    var product := n * unit;
    WrapCongruent(product);
    var i := (product - d) / TWO64;
    hide Wrap;
    assert d - product == (0 - TWO64) * i;
    WireStrings.ModOfMultiple(i);
  }

  lemma SetsDeadline(name: Bytes, op: DeadlineOp, k: Bytes, amount: Bytes, db: DB, e: Env, t: int)
    requires Says(name, OnDeadline(op)) && Live(db, k, e.now) && Has(db, k)
    requires SingleKey(OnDeadline(op)) ==>
               OnKey(OnDeadline(op), [k, amount], At(db, k), e) == (At(db, k).(deadline := Some(t)), Int(1))
    ensures Ask([name, k, amount], db, e) == (db.(expires := db.expires[k := t]), Int(1))
  {
    AssignSome(db, k, t);
    hide *;
    IsSingle(OnDeadline(op));
    DeadlineSlot(k, db, e, Some(t));
    assert [name, k, amount] == [name] + [k, amount];
    AsksKey(name, [k, amount], OnDeadline(op), db, e, At(db, k).(deadline := Some(t)), Int(1));
  }

  lemma AssignSome(db: DB, k: Bytes, t: int)
    ensures Assign(db.expires, k, Some(t)) == db.expires[k := t]
  {
  }

  /**
   EXPIRE gives a key that exists a deadline that many seconds from now, PEXPIRE that many milliseconds; the
   duration is counted in nanoseconds, and wraps as 64-bit integers do.
   */
  lemma Expiring(k: Bytes, amount: Bytes, db: DB, e: Env, n: int64) returns (s: int64, ms: int64)
    requires Live(db, k, e.now) && Atoi(amount) == Some(n) && Has(db, k)
    ensures (s - n * 1_000_000_000) % 0x1_0000_0000_0000_0000 == 0
    ensures (ms - n * 1_000_000) % 0x1_0000_0000_0000_0000 == 0
    ensures -9_000_000_000 <= n <= 9_000_000_000 ==> s == n * 1_000_000_000 && ms == n * 1_000_000
    ensures Ask(["EXPIRE", k, amount], db, e) == (db.(expires := db.expires[k := e.now + s]), Int(1))
    ensures Ask(["PEXPIRE", k, amount], db, e) == (db.(expires := db.expires[k := e.now + ms]), Int(1))
  {
    s := Nanos(n, 1_000_000_000);
    ms := Nanos(n, 1_000_000);
    hide *;
    DeadlineNames();
    ExpireSlots(k, amount, db, e, n);
    SetsDeadline("EXPIRE", EXPIRE, k, amount, db, e, e.now + s);
    SetsDeadline("PEXPIRE", PEXPIRE, k, amount, db, e, e.now + ms);
  }

  lemma AnswersDeadline(name: Bytes, op: DeadlineOp, a: seq<Bytes>, db: DB, e: Env, r: Reply)
    requires Says(name, OnDeadline(op)) && a != []
    requires SingleKey(OnDeadline(op)) ==> OnKey(OnDeadline(op), a, At(db, a[0]), e) == (At(db, a[0]), r)
    ensures Ask([name] + a, db, e) == (db, r)
  {
    hide *;
    IsSingle(OnDeadline(op));
    AsksOnly(name, a, OnDeadline(op), db, e, r);
  }

  lemma NoExpireSlots(k: Bytes, amount: Bytes, db: DB, e: Env)
    requires Live(db, k, e.now) && (Atoi(amount).None? || !Has(db, k))
    ensures var r := if Atoi(amount).None? then Fail(NotAnInteger) else Int(0);
            && OnKey(OnDeadline(EXPIRE), [k, amount], At(db, k), e) == (At(db, k), r)
            && OnKey(OnDeadline(PEXPIRE), [k, amount], At(db, k), e) == (At(db, k), r)
  {
    DeadlineSlot(k, db, e, None);
    hide With, Evict, Atoi, Wrap, Exists;
  }

  /** A key that is not there gets no deadline, and a duration that is no integer is refused. */
  lemma ExpiringNothing(k: Bytes, amount: Bytes, db: DB, e: Env)
    requires Live(db, k, e.now) && (Atoi(amount).None? || !Has(db, k))
    ensures Ask(["EXPIRE", k, amount], db, e) == (db, if Atoi(amount).None? then Fail(NotAnInteger) else Int(0))
    ensures Ask(["PEXPIRE", k, amount], db, e) == (db, if Atoi(amount).None? then Fail(NotAnInteger) else Int(0))
  {
    hide *;
    DeadlineNames();
    NoExpireSlots(k, amount, db, e);
    var r := if Atoi(amount).None? then Fail(NotAnInteger) else Int(0);
    assert ["EXPIRE", k, amount] == ["EXPIRE"] + [k, amount] && ["PEXPIRE", k, amount] == ["PEXPIRE"] + [k, amount];
    AnswersDeadline("EXPIRE", EXPIRE, [k, amount], db, e, r);
    AnswersDeadline("PEXPIRE", PEXPIRE, [k, amount], db, e, r);
  }

  lemma LeftSlots(k: Bytes, db: DB, e: Env)
    requires Live(db, k, e.now)
    ensures var none := if !Has(db, k) then Int(-2) else Int(-1);
            var left := if k in db.expires then db.expires[k] - e.now else 0;
            && OnKey(OnDeadline(TTL), [k], At(db, k), e) ==
               (At(db, k), if Has(db, k) && k in db.expires then Int(left / 1_000_000_000) else none)
            && OnKey(OnDeadline(PTTL), [k], At(db, k), e) ==
               (At(db, k), if Has(db, k) && k in db.expires then Int(left / 1_000_000) else none)
  {
    DeadlineSlot(k, db, e, None);
    hide With, Evict, Exists;
  }

  /** TTL answers the whole seconds left and PTTL the milliseconds, -1 without a deadline and -2 without the key. */
  lemma TimeLeftIs(k: Bytes, db: DB, e: Env)
    requires Live(db, k, e.now)
    ensures !Has(db, k) ==> Ask(["TTL", k], db, e) == (db, Int(-2)) && Ask(["PTTL", k], db, e) == (db, Int(-2))
    ensures Has(db, k) && k !in db.expires ==>
              Ask(["TTL", k], db, e) == (db, Int(-1)) && Ask(["PTTL", k], db, e) == (db, Int(-1))
    ensures Has(db, k) && k in db.expires ==>
              && Ask(["TTL", k], db, e) == (db, Int((db.expires[k] - e.now) / 1_000_000_000))
              && Ask(["PTTL", k], db, e) == (db, Int((db.expires[k] - e.now) / 1_000_000))
  {
    hide *;
    DeadlineNames();
    LeftSlots(k, db, e);
    var none := if !Has(db, k) then Int(-2) else Int(-1);
    var left := if k in db.expires then db.expires[k] - e.now else 0;
    assert ["TTL", k] == ["TTL"] + [k] && ["PTTL", k] == ["PTTL"] + [k];
    AnswersDeadline("TTL", TTL, [k], db, e,
                    if Has(db, k) && k in db.expires then Int(left / 1_000_000_000) else none);
    AnswersDeadline("PTTL", PTTL, [k], db, e,
                    if Has(db, k) && k in db.expires then Int(left / 1_000_000) else none);
  }

  lemma PersistSlot(k: Bytes, db: DB, e: Env)
    requires Live(db, k, e.now)
    ensures OnKey(OnDeadline(PERSIST), [k], At(db, k), e) ==
            if k in db.expires then (At(db, k).(deadline := None), Int(1)) else (At(db, k), Int(0))
    ensures With(db, k, At(db, k).(deadline := None)) == db.(expires := db.expires - {k})
  {
    DeadlineSlot(k, db, e, None);
    hide With, Evict;
  }

  /** PERSIST takes the deadline away and answers whether there was one. */
  lemma Persisting(k: Bytes, db: DB, e: Env)
    requires Live(db, k, e.now)
    ensures Ask(["PERSIST", k], db, e) == (db.(expires := db.expires - {k}), Int(if k in db.expires then 1 else 0))
  {
    NoneThere(db, k);
    hide *;
    DeadlineNames();
    PersistSlot(k, db, e);
    IsSingle(OnDeadline(PERSIST));
    assert ["PERSIST", k] == ["PERSIST"] + [k];
    if k in db.expires {
      AsksKey("PERSIST", [k], OnDeadline(PERSIST), db, e, At(db, k).(deadline := None), Int(1));
    } else {
      AnswersDeadline("PERSIST", PERSIST, [k], db, e, Int(0));
    }
  }

  lemma NoneThere(db: DB, k: Bytes)
    ensures k !in db.expires ==> db.(expires := db.expires - {k}) == db
  {
    assert k !in db.expires ==> db.expires - {k} == db.expires;
  }

  /** A deadline of n seconds is n seconds, and n thousand milliseconds, and when it has come the key is gone. */
  lemma ExpireThenAsk(k: Bytes, amount: Bytes, db: DB, e: Env, later: Env, n: int64)
    requires k in db.store && Live(db, k, e.now) && Atoi(amount) == Some(n) && 0 < n <= 9_000_000_000
    requires e.now <= later.now
    ensures var after := Ask(["EXPIRE", k, amount], db, e).0;
            var passed := later.now - e.now;
            if passed < n * 1_000_000_000 then
              && Ask(["TTL", k], after, later).1 == Int((n * 1_000_000_000 - passed) / 1_000_000_000)
              && Ask(["PTTL", k], after, later).1 == Int((n * 1_000_000_000 - passed) / 1_000_000)
              && Ask(["GET", k], after, later).1 == Bulk(db.store[k])
            else Ask(["GET", k], after, later).1 == Nil
    ensures Ask(["TTL", k], Ask(["EXPIRE", k, amount], db, e).0, e).1 == Int(n)
    ensures Ask(["PTTL", k], Ask(["EXPIRE", k, amount], db, e).0, e).1 == Int(n * 1_000)
  {
    hide Ask, Atoi;
    var s, _ := Expiring(k, amount, db, e, n);
    var after := db.(expires := db.expires[k := e.now + s]);
    TimeLeftIs(k, after, e);
    if later.now - e.now < n * 1_000_000_000 {
      TimeLeftIs(k, after, later);
      WireStrings.Getting(k, after, later);
    } else {
      GettingDue(k, after, later);
    }
  }

  /** A key is gone from the moment its deadline is reached, from all five maps. */
  lemma GettingDue(k: Bytes, db: DB, e: Env)
    requires k in db.expires && db.expires[k] <= e.now
    ensures Ask(["GET", k], db, e) ==
            (DB(db.store - {k}, db.lists - {k}, db.sets - {k}, db.hashes - {k}, db.expires - {k}), Nil)
  {
    StringNames();
    IsSingle(OnString(GET));
    assert OnKey(OnString(GET), [k], At(db, k), e) == (VACANT, Nil);
    hide Says, Ask, OnKey, At;
    assert ["GET", k] == ["GET"] + [k];
    AsksKey("GET", [k], OnString(GET), db, e, VACANT, Nil);
  }

  // ------------------------------------------------------------ several strings

  lemma AsksMany(name: Bytes, op: KeysOp, ks: seq<Bytes>, db: DB, e: Env)
    requires Says(name, OnKeys(op))
    ensures Ask([name] + ks, db, e) == DoKeys(op, ks, db, e)
  {
    ExecMany(op, ks, db, e);
    hide *;
    Asks(name, ks, OnKeys(op), db, e);
  }

  lemma ExecMany(op: KeysOp, ks: seq<Bytes>, db: DB, e: Env)
    ensures Exec(OnKeys(op), ks, db, e) == DoKeys(op, ks, db, e)
  {
    hide DoKeys;
  }

  lemma ManyAre(ks: seq<Bytes>, db: DB, e: Env)
    requires ks != []
    ensures DoKeys(MGET, ks, db, e) == (EvictAll(ks, db, e.now), Many(Texts(ks, EvictAll(ks, db, e.now))))
    ensures DoKeys(DEL, ks, db, e) == (DeleteKeys(ks, db, e.now).0, Int(DeleteKeys(ks, db, e.now).1))
    ensures DoKeys(EXISTS, ks, db, e) == (CountExisting(ks, db, e.now).0, Int(CountExisting(ks, db, e.now).1))
    ensures |ks| >= 2 && |ks| % 2 == 0 ==> DoKeys(MSET, ks, db, e) == (StorePairs(ks, db), OK)
  {
    hide EvictAll, Texts, DeleteKeys, CountExisting, StorePairs;
  }

  /** Position `i` of the pairs is the last to name its key. */
  predicate LastNamed(pairs: seq<Bytes>, i: nat) {
    i % 2 == 0 && i + 1 < |pairs| && forall j :: i < j < |pairs| - 1 && j % 2 == 0 ==> pairs[j] != pairs[i]
  }

  predicate Named(pairs: seq<Bytes>, k: Bytes) {
    exists i :: 0 <= i < |pairs| - 1 && i % 2 == 0 && pairs[i] == k
  }

  lemma NamedStep(pairs: seq<Bytes>, k: Bytes)
    requires |pairs| >= 2
    ensures Named(pairs, k) <==> pairs[0] == k || Named(pairs[2..], k)
  {
    var rest := pairs[2..];
    if i :| 0 <= i < |rest| - 1 && i % 2 == 0 && rest[i] == k {
      assert pairs[i + 2] == k && (i + 2) % 2 == 0;
    }
    if i :| 2 <= i < |pairs| - 1 && i % 2 == 0 && pairs[i] == k {
      assert rest[i - 2] == k && (i - 2) % 2 == 0;
    }
  }

  /** What one pair after the other does to one key. */
  lemma {:induction false} StoredAt(pairs: seq<Bytes>, db: DB, k: Bytes)
    ensures var s, s' := At(db, k), At(StorePairs(pairs, db), k);
            if Named(pairs, k) then s' == s.(text := s'.text, deadline := None) && s'.text.Some? else s' == s
    decreases pairs
  {
    if |pairs| >= 2 {
      var first := At(db, pairs[0]).(text := Some(pairs[1]), deadline := None);
      NamedStep(pairs, k);
      AtWith(db, pairs[0], first, k);
      hide Named, At, With;
      StoredAt(pairs[2..], With(db, pairs[0], first), k);
    }
  }

  lemma LastNamedStep(pairs: seq<Bytes>, i: nat)
    requires |pairs| >= 2 && LastNamed(pairs, i) && i >= 2
    ensures LastNamed(pairs[2..], i - 2)
  {
    var rest := pairs[2..];
    forall j | i - 2 < j < |rest| - 1 && j % 2 == 0
      ensures rest[j] != rest[i - 2]
    {
      assert pairs[j + 2] != pairs[i];
    }
  }

  lemma NotNamedAgain(pairs: seq<Bytes>)
    requires |pairs| >= 2 && LastNamed(pairs, 0)
    ensures !Named(pairs[2..], pairs[0])
  {
    forall i | 0 <= i < |pairs[2..]| - 1 && i % 2 == 0
      ensures pairs[2..][i] != pairs[0]
    {
      assert pairs[i + 2] != pairs[0];
    }
  }

  lemma {:induction false} StoredText(pairs: seq<Bytes>, db: DB, i: nat)
    requires LastNamed(pairs, i)
    ensures At(StorePairs(pairs, db), pairs[i]).text == Some(pairs[i + 1])
    decreases pairs
  {
    var first := At(db, pairs[0]).(text := Some(pairs[1]), deadline := None);
    var next := With(db, pairs[0], first);
    if i == 0 {
      NotNamedAgain(pairs);
      StoredAt(pairs[2..], next, pairs[0]);
      AtWith(db, pairs[0], first, pairs[0]);
    } else {
      LastNamedStep(pairs, i);
      StoredText(pairs[2..], next, i - 2);
    }
  }

  lemma MSetIs(pairs: seq<Bytes>, db: DB, e: Env)
    requires |pairs| >= 2 && |pairs| % 2 == 0
    ensures Ask(["MSET"] + pairs, db, e) == (StorePairs(pairs, db), OK)
  {
    hide *;
    KeysNames();
    ManyAre(pairs, db, e);
    AsksMany("MSET", MSET, pairs, db, e);
  }

  /**
   MSET stores under every key it names the text it gives it last, and drops its deadline; nothing else changes,
   and nothing is evicted.
   */
  lemma SettingMany(pairs: seq<Bytes>, db: DB, e: Env) returns (after: DB)
    requires |pairs| >= 2 && |pairs| % 2 == 0
    ensures Ask(["MSET"] + pairs, db, e) == (after, OK)
    ensures after.lists == db.lists && after.sets == db.sets && after.hashes == db.hashes
    ensures forall i :: 0 <= i < |pairs| && LastNamed(pairs, i) ==> Find(after.store, pairs[i]) == Some(pairs[i + 1])
    ensures forall k :: Named(pairs, k) ==> k !in after.expires
    ensures forall k :: !Named(pairs, k) ==>
              Find(after.store, k) == Find(db.store, k) && Find(after.expires, k) == Find(db.expires, k)
  {
    MSetIs(pairs, db, e);
    after := StorePairs(pairs, db);
    forall k
      ensures var s, s' := At(db, k), At(after, k);
              if Named(pairs, k) then s' == s.(text := s'.text, deadline := None) else s' == s
    {
      StoredAt(pairs, db, k);
    }
    forall i | 0 <= i < |pairs| && LastNamed(pairs, i)
      ensures At(after, pairs[i]).text == Some(pairs[i + 1])
    {
      StoredText(pairs, db, i);
    }
    hide StorePairs, Named, LastNamed, Ask;
    SameOthers(db, after);
  }

  lemma SameOthers(a: DB, b: DB)
    requires forall k :: At(a, k).list == At(b, k).list && At(a, k).members == At(b, k).members
    requires forall k :: At(a, k).fields == At(b, k).fields
    ensures a.lists == b.lists && a.sets == b.sets && a.hashes == b.hashes
  {
    forall k
      ensures Find(a.lists, k) == Find(b.lists, k) && Find(a.sets, k) == Find(b.sets, k)
      ensures Find(a.hashes, k) == Find(b.hashes, k)
    {
      assert At(a, k).list == At(b, k).list && At(a, k).fields == At(b, k).fields;
    }
    SameMap(a.lists, b.lists);
    SameMap(a.sets, b.sets);
    SameMap(a.hashes, b.hashes);
  }

  ghost predicate AllLive(db: DB, ks: seq<Bytes>, now: int) {
    forall i :: 0 <= i < |ks| ==> Live(db, ks[i], now)
  }

  lemma {:induction false} NothingEvicted(ks: seq<Bytes>, db: DB, now: int)
    requires AllLive(db, ks, now)
    ensures EvictAll(ks, db, now) == db
  {
    if ks != [] {
      assert Live(db, ks[0], now);
      LiveIsKept(db, ks[0], now);
      NothingEvicted(ks[1..], db, now);
    }
  }

  lemma TextsAre(ks: seq<Bytes>, db: DB)
    ensures forall i :: 0 <= i < |ks| ==> Texts(ks, db)[i] == if ks[i] in db.store then Bulk(db.store[ks[i]]) else Nil
  {
  }

  /** MGET answers text by text. */
  lemma GettingMany(ks: seq<Bytes>, db: DB, e: Env) returns (r: seq<Reply>)
    requires ks != [] && AllLive(db, ks, e.now)
    ensures Ask(["MGET"] + ks, db, e) == (db, Many(r)) && |r| == |ks|
    ensures forall i :: 0 <= i < |ks| ==> r[i] == if ks[i] in db.store then Bulk(db.store[ks[i]]) else Nil
  {
    r := Texts(ks, db);
    hide *;
    NothingEvicted(ks, db, e.now);
    KeysNames();
    ManyAre(ks, db, e);
    AsksMany("MGET", MGET, ks, db, e);
    TextsAre(ks, db);
  }

  // ----------------------------------------------------------- DEL and EXISTS

  /** How many entries the four data maps have under some keys. */
  function Entries(db: DB, ks: set<Bytes>): nat {
    |db.store.Keys * ks| + |db.lists.Keys * ks| + |db.sets.Keys * ks| + |db.hashes.Keys * ks|
  }

  lemma OneFewer(all: set<Bytes>, k: Bytes, rest: set<Bytes>)
    ensures |all * ({k} + rest)| == (if k in all then 1 else 0) + |(all - {k}) * rest|
  {
    if k in all {
      assert all * ({k} + rest) == {k} + (all - {k}) * rest;
    } else {
      assert all * ({k} + rest) == (all - {k}) * rest;
    }
  }

  lemma EntriesStep(db: DB, k: Bytes, rest: set<Bytes>)
    ensures Entries(db, {k} + rest) == Held(db, k) + Entries(WithoutKeys(db, {k}), rest)
  {
    OneFewer(db.store.Keys, k, rest);
    OneFewer(db.lists.Keys, k, rest);
    OneFewer(db.sets.Keys, k, rest);
    OneFewer(db.hashes.Keys, k, rest);
    KeysWithout(db.store, k);
    KeysWithout(db.lists, k);
    KeysWithout(db.sets, k);
    KeysWithout(db.hashes, k);
  }

  lemma KeysWithout<V>(m: map<Bytes, V>, k: Bytes)
    ensures (m - {k}).Keys == m.Keys - {k}
  {
  }

  /** How many of the four data maps have the key. */
  function Held(db: DB, k: Bytes): nat {
    (if k in db.store.Keys then 1 else 0) + (if k in db.lists.Keys then 1 else 0)
    + (if k in db.sets.Keys then 1 else 0) + (if k in db.hashes.Keys then 1 else 0)
  }

  lemma DeleteFirst(ks: seq<Bytes>, db: DB, now: int)
    requires ks != [] && AllLive(db, ks, now)
    ensures AllLive(WithoutKeys(db, {ks[0]}), ks[1..], now)
    ensures DeleteKeys(ks, db, now) ==
            var (db', n) := DeleteKeys(ks[1..], WithoutKeys(db, {ks[0]}), now); (db', Held(db, ks[0]) + n)
  {
    assert Live(db, ks[0], now);
    LiveIsKept(db, ks[0], now);
    assert With(db, ks[0], VACANT) == WithoutKeys(db, {ks[0]});
    forall i | 0 <= i < |ks[1..]|
      ensures Live(WithoutKeys(db, {ks[0]}), ks[1..][i], now)
    {
      assert Live(db, ks[i + 1], now);
    }
    hide EvictKey, With, Evict;
  }

  lemma NoneListed()
    ensures Elements([]) == {}
  {
  }

  lemma FirstListed(ks: seq<Bytes>)
    requires ks != []
    ensures Elements(ks) == {ks[0]} + Elements(ks[1..])
  {
    assert ks == [ks[0]] + ks[1..];
  }

  lemma NoEntries(db: DB)
    ensures Entries(db, {}) == 0 && WithoutKeys(db, {}) == db
  {
    MinusNothing(db.store);
    MinusNothing(db.lists);
    MinusNothing(db.sets);
    MinusNothing(db.hashes);
    MinusNothing(db.expires);
  }

  lemma MinusNothing<V>(m: map<Bytes, V>)
    ensures m - {} == m && |m.Keys * {}| == 0
  {
    assert m.Keys * {} == {};
  }

  lemma {:induction false} Deletes(ks: seq<Bytes>, db: DB, now: int)
    requires AllLive(db, ks, now)
    ensures DeleteKeys(ks, db, now) == (WithoutKeys(db, Elements(ks)), Entries(db, Elements(ks)))
    decreases ks
  {
    if ks == [] {
      NoEntries(db);
      NoneListed();
      hide Elements, WithoutKeys, Entries;
    } else {
      hide *;
      DeleteFirst(ks, db, now);
      FirstListed(ks);
      EntriesStep(db, ks[0], Elements(ks[1..]));
      Deletes(ks[1..], WithoutKeys(db, {ks[0]}), now);
      TwiceWithout(db, {ks[0]}, Elements(ks[1..]));
    }
  }

  lemma TwiceWithout(db: DB, a: set<Bytes>, b: set<Bytes>)
    ensures WithoutKeys(WithoutKeys(db, a), b) == WithoutKeys(db, a + b)
  {
  }

  lemma WithoutIs(db: DB, gone: set<Bytes>)
    ensures WithoutKeys(db, gone) ==
            DB(db.store - gone, db.lists - gone, db.sets - gone, db.hashes - gone, db.expires - gone)
    ensures Entries(db, gone) ==
            |db.store.Keys * gone| + |db.lists.Keys * gone| + |db.sets.Keys * gone| + |db.hashes.Keys * gone|
  {
  }

  lemma DeletingIs(ks: seq<Bytes>, db: DB, e: Env)
    requires ks != [] && AllLive(db, ks, e.now)
    ensures Ask(["DEL"] + ks, db, e) == (WithoutKeys(db, Elements(ks)), Int(Entries(db, Elements(ks))))
  {
    hide *;
    Deletes(ks, db, e.now);
    KeysNames();
    ManyAre(ks, db, e);
    AsksMany("DEL", DEL, ks, db, e);
  }

  /** DEL takes its keys out of all five maps and answers how many entries of the four data maps went. */
  lemma Deleting(ks: seq<Bytes>, db: DB, e: Env) returns (gone: set<Bytes>, after: DB, n: nat)
    requires ks != [] && AllLive(db, ks, e.now)
    ensures Ask(["DEL"] + ks, db, e) == (after, Int(n))
    ensures forall k :: k in gone <==> k in ks
    ensures after == DB(db.store - gone, db.lists - gone, db.sets - gone, db.hashes - gone, db.expires - gone)
    ensures n == |db.store.Keys * gone| + |db.lists.Keys * gone| + |db.sets.Keys * gone| + |db.hashes.Keys * gone|
  {
    gone := Elements(ks);
    hide *;
    after, n := WithoutKeys(db, gone), Entries(db, gone);
    DeletingIs(ks, db, e);
    WithoutIs(db, gone);
  }

  lemma ExistsIs(ks: seq<Bytes>, db: DB, e: Env)
    requires ks != []
    ensures Ask(["EXISTS"] + ks, db, e) ==
            (CountExisting(ks, db, e.now).0, Int(CountExisting(ks, db, e.now).1))
  {
    hide *;
    KeysNames();
    ManyAre(ks, db, e);
    AsksMany("EXISTS", EXISTS, ks, db, e);
  }

  lemma {:induction false} CountsEach(ks: seq<Bytes>, more: seq<Bytes>, db: DB, now: int)
    requires AllLive(db, ks, now)
    ensures CountExisting(ks, db, now).0 == db
    ensures CountExisting(ks + more, db, now) ==
            (CountExisting(more, db, now).0, CountExisting(ks, db, now).1 + CountExisting(more, db, now).1)
    decreases ks
  {
    if ks == [] {
      assert ks + more == more;
    } else {
      assert Live(db, ks[0], now);
      LiveIsKept(db, ks[0], now);
      assert (ks + more)[1..] == ks[1..] + more;
      CountsEach(ks[1..], more, db, now);
      hide Live, EvictKey, Exists, At, Evict;
    }
  }

  lemma CountsBoth(k: Bytes, ks: seq<Bytes>, db: DB, now: int)
    requires Live(db, k, now) && AllLive(db, ks, now)
    ensures CountExisting([k], db, now) == (db, if Has(db, k) then 1 else 0)
    ensures CountExisting(ks, db, now).0 == db
    ensures CountExisting([k] + ks, db, now) == (db, (if Has(db, k) then 1 else 0) + CountExisting(ks, db, now).1)
  {
    assert AllLive(db, [k], now);
    hide *;
    CountsOne(k, db, now);
    CountsEach(ks, [], db, now);
    CountsEach([k], ks, db, now);
  }

  /** EXISTS answers 1 for a key that is there and 0 for one that is not, and adds up over its keys. */
  lemma Existing(k: Bytes, ks: seq<Bytes>, db: DB, e: Env) returns (n: nat)
    requires ks != [] && Live(db, k, e.now) && AllLive(db, ks, e.now)
    ensures Ask(["EXISTS", k], db, e) == (db, Int(if Has(db, k) then 1 else 0))
    ensures Ask(["EXISTS"] + ks, db, e) == (db, Int(n))
    ensures Ask(["EXISTS"] + ([k] + ks), db, e) == (db, Int((if Has(db, k) then 1 else 0) + n))
  {
    hide *;
    n := CountExisting(ks, db, e.now).1;
    CountsBoth(k, ks, db, e.now);
    ExistsIs([k], db, e);
    ExistsIs(ks, db, e);
    ExistsIs([k] + ks, db, e);
    assert ["EXISTS", k] == ["EXISTS"] + [k];
  }

  lemma CountsOne(k: Bytes, db: DB, now: int)
    requires Live(db, k, now)
    ensures CountExisting([k], db, now) == (db, if Has(db, k) then 1 else 0)
  {
    LiveIsKept(db, k, now);
    hide EvictKey, Evict;
    assert CountExisting([k][1..], db, now) == (db, 0);
  }

  // ------------------------------------------------------------ the whole keyspace

  /** The keys strictly past their deadline. */
  function Past(db: DB, now: int): set<Bytes> {
    set k | k in db.expires && db.expires[k] < now
  }

  lemma AsksAll(name: Bytes, op: KeyspaceOp, a: seq<Bytes>, db: DB, e: Env)
    requires Says(name, OnKeyspace(op))
    ensures Ask([name] + a, db, e) == DoKeyspace(op, a, db, e)
  {
    ExecAll(op, a, db, e);
    hide *;
    Asks(name, a, OnKeyspace(op), db, e);
  }

  lemma ExecAll(op: KeyspaceOp, a: seq<Bytes>, db: DB, e: Env)
    ensures Exec(OnKeyspace(op), a, db, e) == DoKeyspace(op, a, db, e)
  {
    hide DoKeyspace;
  }

  lemma KeyspaceIs(pattern: Bytes, db: DB, e: Env)
    ensures Ask(["KEYS", pattern], db, e) == DoKeyspace(KEYS, [pattern], db, e)
    ensures Ask(["DBSIZE"], db, e) == DoKeyspace(DBSIZE, [], db, e)
  {
    hide *;
    KeyspaceNames();
    assert ["KEYS", pattern] == ["KEYS"] + [pattern] && ["DBSIZE"] == ["DBSIZE"] + [];
    AsksAll("KEYS", KEYS, [pattern], db, e);
    AsksAll("DBSIZE", DBSIZE, [], db, e);
  }

  lemma Swept(pattern: Bytes, db: DB, e: Env, left: DB)
    requires left == Sweep(db, e.now)
    ensures DoKeyspace(KEYS, [pattern], db, e) ==
            (left, KeysLike(pattern, left.store.Keys, left.lists.Keys, left.sets.Keys, left.hashes.Keys))
    ensures DoKeyspace(DBSIZE, [], db, e) ==
            (left, Int(|left.store| + |left.lists| + |left.sets| + |left.hashes|))
  {
    hide *;
    SweepsFirst(pattern, db, e);
    NamesOf(left, pattern);
  }

  lemma SweepsFirst(pattern: Bytes, db: DB, e: Env)
    ensures var left := Sweep(db, e.now);
            && DoKeyspace(KEYS, [pattern], db, e) == (left, KeysReply(left, pattern))
            && DoKeyspace(DBSIZE, [], db, e) == (left, Int(TotalKeys(left)))
  {
    hide Sweep, KeysReply, TotalKeys, MatchPattern;
  }

  lemma NamesOf(left: DB, pattern: Bytes)
    ensures KeysReply(left, pattern) ==
            KeysLike(pattern, left.store.Keys, left.lists.Keys, left.sets.Keys, left.hashes.Keys)
    ensures TotalKeys(left) == |left.store| + |left.lists| + |left.sets| + |left.hashes|
  {
  }

  lemma SweptIs(db: DB, now: int)
    ensures var gone := Past(db, now);
            Sweep(db, now) ==
            DB(db.store - gone, db.lists - gone, db.sets - gone, db.hashes - gone, db.expires - gone)
  {
    assert Past(db, now) == Overdue(db, now);
  }

  /** KEYS and DBSIZE first take out every key past its deadline, then name or count what each map holds. */
  lemma Enumerating(pattern: Bytes, db: DB, e: Env) returns (left: DB)
    ensures var gone := Past(db, e.now);
            left == DB(db.store - gone, db.lists - gone, db.sets - gone, db.hashes - gone, db.expires - gone)
    ensures Ask(["KEYS", pattern], db, e) ==
            (left, KeysLike(pattern, left.store.Keys, left.lists.Keys, left.sets.Keys, left.hashes.Keys))
    ensures Ask(["DBSIZE"], db, e) == (left, Int(|left.store| + |left.lists| + |left.sets| + |left.hashes|))
  {
    hide *;
    left := Sweep(db, e.now);
    KeyspaceIs(pattern, db, e);
    Swept(pattern, db, e, left);
    SweptIs(db, e.now);
  }

  lemma ScanSweeps(a: seq<Bytes>, pattern: Bytes, db: DB, e: Env)
    requires a != [] && Atoi(a[0]).Some? && MatchPattern(a, 1, "*") == pattern
    ensures DoKeyspace(SCAN, a, db, e) ==
            (DoKeyspace(KEYS, [pattern], db, e).0, Many([Bulk("0"), DoKeyspace(KEYS, [pattern], db, e).1]))
  {
    hide Sweep, KeysReply, MatchPattern, Atoi;
  }

  lemma ScansAs(a: seq<Bytes>, pattern: Bytes, db: DB, e: Env)
    requires a != [] && Atoi(a[0]).Some? && MatchPattern(a, 1, "*") == pattern
    ensures Ask(["SCAN"] + a, db, e) ==
            (Ask(["KEYS", pattern], db, e).0, Many([Bulk("0"), Ask(["KEYS", pattern], db, e).1]))
  {
    hide *;
    KeyspaceNames();
    KeyspaceIs(pattern, db, e);
    ScanSweeps(a, pattern, db, e);
    AsksAll("SCAN", SCAN, a, db, e);
  }

  /** SCAN answers everything at once, with cursor 0, for the pattern it is given, or any. */
  lemma Scanning(cursor: Bytes, pattern: Bytes, db: DB, e: Env)
    requires Atoi(cursor).Some?
    ensures var keys := Ask(["KEYS", pattern], db, e);
            && Ask(["SCAN", cursor, "MATCH", pattern], db, e) == (keys.0, Many([Bulk("0"), keys.1]))
            && Ask(["SCAN", cursor, "match", pattern], db, e) == (keys.0, Many([Bulk("0"), keys.1]))
    ensures var keys := Ask(["KEYS", "*"], db, e);
            Ask(["SCAN", cursor], db, e) == (keys.0, Many([Bulk("0"), keys.1]))
  {
    hide *;
    Patterns(cursor, pattern);
    ScansAs([cursor, "MATCH", pattern], pattern, db, e);
    ScansAs([cursor, "match", pattern], pattern, db, e);
    ScansAs([cursor], "*", db, e);
    assert ["SCAN", cursor] == ["SCAN"] + [cursor];
    assert ["SCAN", cursor, "MATCH", pattern] == ["SCAN"] + [cursor, "MATCH", pattern];
    assert ["SCAN", cursor, "match", pattern] == ["SCAN"] + [cursor, "match", pattern];
  }

  lemma Patterns(cursor: Bytes, pattern: Bytes)
    ensures MatchPattern([cursor, "MATCH", pattern], 1, "*") == pattern
    ensures MatchPattern([cursor, "match", pattern], 1, "*") == pattern
    ensures MatchPattern([cursor], 1, "*") == "*"
  {
    PatternAt([cursor, "MATCH", pattern]);
    PatternAt([cursor, "match", pattern]);
  }

  lemma PatternAt(a: seq<Bytes>)
    requires |a| == 3 && (a[1] == "MATCH" || a[1] == "match")
    ensures MatchPattern(a, 1, "*") == a[2]
  {
    assert MatchPattern(a, 2, a[2]) == a[2];
  }

  lemma ScanRefuses(cursor: Bytes, db: DB, e: Env)
    requires Atoi(cursor).None?
    ensures DoKeyspace(SCAN, [cursor], db, e) == (db, Fail(InvalidCursor))
  {
    hide Sweep, KeysReply, MatchPattern, Atoi;
  }

  /** A cursor that is no integer is refused. */
  lemma ScanningRefused(cursor: Bytes, db: DB, e: Env)
    requires Atoi(cursor).None?
    ensures Ask(["SCAN", cursor], db, e) == (db, Fail(InvalidCursor))
  {
    hide *;
    KeyspaceNames();
    ScanRefuses(cursor, db, e);
    assert ["SCAN", cursor] == ["SCAN"] + [cursor];
    AsksAll("SCAN", SCAN, [cursor], db, e);
  }
}
