/**
 One logical database as a value: the five maps of `commands.Database`, and the view of them one key at a
 time. The source never checks that a key has one type, so a slot may hold a string, a list, a set and a
 hash at once, and it may carry a deadline while holding none of them.
 */
module Keyspace {
  import opened Wrappers
  import opened GoText

  /** What the five maps say about one key. */
  datatype Slot = Slot(
    text: Option<Bytes>,
    list: Option<seq<Bytes>>,
    members: Option<set<Bytes>>,
    fields: Option<map<Bytes, Bytes>>,
    deadline: Option<int>)

  const VACANT := Slot(None, None, None, None, None)

  datatype DB = DB(
    store: map<Bytes, Bytes>,
    lists: map<Bytes, seq<Bytes>>,
    sets: map<Bytes, set<Bytes>>,
    hashes: map<Bytes, map<Bytes, Bytes>>,
    expires: map<Bytes, int>)

  const EMPTY_DB := DB(map[], map[], map[], map[], map[])

  /** SELECT takes the indices below this one. */
  const NUM_DATABASES := 16

  function FreshDBs(n: nat): seq<DB> {
    seq(n, _ => EMPTY_DB)
  }

  function Find<V>(m: map<Bytes, V>, key: Bytes): Option<V> {
    if key in m then Some(m[key]) else None
  }

  function Assign<V>(m: map<Bytes, V>, key: Bytes, value: Option<V>): map<Bytes, V> {
    match value
    case Some(v) => m[key := v]
    case None => m - {key}
  }

  function At(db: DB, key: Bytes): Slot {
    Slot(Find(db.store, key), Find(db.lists, key), Find(db.sets, key), Find(db.hashes, key),
         Find(db.expires, key))
  }

  function With(db: DB, key: Bytes, s: Slot): DB {
    DB(Assign(db.store, key, s.text), Assign(db.lists, key, s.list), Assign(db.sets, key, s.members),
       Assign(db.hashes, key, s.fields), Assign(db.expires, key, s.deadline))
  }

  lemma FindAssign<V>(m: map<Bytes, V>, key: Bytes, value: Option<V>, other: Bytes)
    ensures Find(Assign(m, key, value), other) == if other == key then value else Find(m, other)
  {
  }

  lemma AtWith(db: DB, key: Bytes, s: Slot, other: Bytes)
    ensures At(With(db, key, s), other) == if other == key then s else At(db, other)
  {
    FindAssign(db.store, key, s.text, other);
    FindAssign(db.lists, key, s.list, other);
    FindAssign(db.sets, key, s.members, other);
    FindAssign(db.hashes, key, s.fields, other);
    FindAssign(db.expires, key, s.deadline, other);
  }

  /** Writing back what is there changes nothing. */
  lemma SelfWith(db: DB, key: Bytes)
    ensures With(db, key, At(db, key)) == db
  {
  }

  lemma SameMap<V>(m: map<Bytes, V>, n: map<Bytes, V>)
    requires forall k :: Find(m, k) == Find(n, k)
    ensures m == n
  {
    forall k
      ensures k in m <==> k in n
      ensures k in m ==> m[k] == n[k]
    {
      assert Find(m, k) == Find(n, k);
    }
  }

  /** Databases that agree on every key are equal. */
  lemma SameDB(a: DB, b: DB)
    requires forall k :: At(a, k) == At(b, k)
    ensures a == b
  {
    forall k
      ensures Find(a.store, k) == Find(b.store, k) && Find(a.lists, k) == Find(b.lists, k)
      ensures Find(a.sets, k) == Find(b.sets, k) && Find(a.hashes, k) == Find(b.hashes, k)
      ensures Find(a.expires, k) == Find(b.expires, k)
    {
      assert At(a, k) == At(b, k);
    }
    SameMap(a.store, b.store);
    SameMap(a.lists, b.lists);
    SameMap(a.sets, b.sets);
    SameMap(a.hashes, b.hashes);
    SameMap(a.expires, b.expires);
  }

  // ---------------------------------------------------------------- deadlines

  predicate Expired(s: Slot, now: int) {
    s.deadline.Some? && s.deadline.value <= now
  }

  /** `expireIfNeeded`: a key is gone from the moment its deadline is reached. */
  function Evict(s: Slot, now: int): Slot {
    if Expired(s, now) then VACANT else s
  }

  function EvictKey(db: DB, key: Bytes, now: int): DB {
    With(db, key, Evict(At(db, key), now))
  }

  /** The keys `SweepExpired` collects: strictly past their deadline. */
  function Overdue(db: DB, now: int): set<Bytes> {
    set k | k in db.expires && db.expires[k] < now
  }

  function WithoutKeys(db: DB, gone: set<Bytes>): DB {
    DB(db.store - gone, db.lists - gone, db.sets - gone, db.hashes - gone, db.expires - gone)
  }

  function Sweep(db: DB, now: int): DB {
    WithoutKeys(db, Overdue(db, now))
  }

  /** The keys of the four data maps, a key with several types counted once for each. */
  function TotalKeys(db: DB): nat {
    |db.store| + |db.lists| + |db.sets| + |db.hashes|
  }

  lemma AtSweep(db: DB, now: int, key: Bytes)
    ensures At(Sweep(db, now), key) ==
            var s := At(db, key); if s.deadline.Some? && s.deadline.value < now then VACANT else s
  {
  }

  // --------------------------------------------------------- the four data maps

  /** A slot without its deadline: what both persistence paths are about. */
  function Payload(s: Slot): Slot {
    s.(deadline := None)
  }

  /** The four maps that are logged and snapshotted. */
  function Data(db: DB): DB {
    db.(expires := map[])
  }

  lemma AtData(db: DB, key: Bytes)
    ensures At(Data(db), key) == Payload(At(db, key))
  {
  }

  lemma DataWith(db: DB, key: Bytes, s: Slot)
    ensures Data(With(db, key, s)) == With(Data(db), key, Payload(s))
  {
  }

  /** Nothing stored is past its deadline; one left behind by an emptied container may be. */
  predicate QuietSlot(s: Slot, now: int) {
    Expired(s, now) ==> Payload(s) == VACANT
  }

  predicate Filled(s: Slot) {
    && s.list != Some([])
    && s.members != Some({})
    && s.fields != Some(map[])
  }

  /** Every stored list, set and hash has something in it. */
  ghost predicate NoEmptyContainer(db: DB) {
    forall k :: Filled(At(db, k))
  }
}
