/** Loading a snapshot as the source runs it: one reader consumed item by item, applied to the database objects. */
module RdbLoader {
  import opened Wrappers
  import opened GoText
  import opened Sequences
  import opened Containers
  import opened Keyspace
  import opened RdbCodec
  import opened RdbFile
  import opened Database
  import opened MultiDB
  import opened RdbRoundTrip
  import RdbStore
  import L = ListCommands
  import S = SetCommands
  import H = HashCommands

  /** A buffered reader over the bytes still to come. After a failed read its position does not matter. */
  class Reader {
    var rest: Bytes

    constructor (file: Bytes)
      ensures rest == file
    {
      rest := file;
    }

    method ReadByte() returns (b: Option<char>)
      modifies this
      ensures if old(rest) == "" then b == None else b == Some(old(rest)[0]) && rest == old(rest)[1..]
    {
      if rest == "" {
        return None;
      }
      b := Some(rest[0]);
      rest := rest[1..];
    }

    method ReadFull(n: nat) returns (s: Option<Bytes>)
      modifies this
      ensures if |old(rest)| < n then s == None else s == Some(old(rest)[..n]) && rest == old(rest)[n..]
    {
      if |rest| < n {
        return None;
      }
      s := Some(rest[..n]);
      rest := rest[n..];
    }

    method GetLength() returns (n: Option<nat>)
      modifies this
      ensures match ReadLength(old(rest))
              case NoLength => n == None
              case Length(k, r) => n == Some(k) && rest == r
    {
      ghost var start := rest;
      var b := ReadByte();
      if b.None? {
        return None;
      }
      var top := b.value as int;
      if top < 64 {
        return Some(top);
      }
      if top < 128 {
        var b2 := ReadByte();
        if b2.None? {
          return None;
        }
        assert start[2..] == start[1..][1..];
        return Some((top - 64) * 0x100 + (b2.value as int));
      }
      var wide := ReadFull(4);
      if wide.None? {
        return None;
      }
      assert start[5..] == start[1..][4..];
      assert FromU32(wide.value) == FromU32(start[1..]);
      return Some(FromU32(wide.value));
    }

    method GetText() returns (s: Option<Bytes>)
      modifies this
      ensures match ReadText(old(rest))
              case NoText => s == None
              case Text(t, r) => s == Some(t) && rest == r
    {
      var n := GetLength();
      if n.None? {
        return None;
      }
      s := ReadFull(n.value);
    }

    method GetTexts(n: nat) returns (all: Option<seq<Bytes>>)
      modifies this
      ensures match ReadTexts(n, old(rest))
              case NoTexts => all == None
              case Texts(ts, r) => all == Some(ts) && rest == r
    {
      hide ReadTexts, AfterTexts, ReadText;
      var read: seq<Bytes> := [];
      AfterNone(ReadTexts(n, rest));
      var i := 0;
      while i < n
        invariant 0 <= i <= n
        invariant ReadTexts(n, old(rest)) == AfterTexts(read, ReadTexts(n - i, rest))
      {
        AfterOne(read, n - i, rest);
        var s := GetText();
        if s.None? {
          return None;
        }
        read := read + [s.value];
        i := i + 1;
      }
      AfterAll(read, rest);
      return Some(read);
    }

    /** A key, a count and as many strings, or twice as many for a hash. */
    method GetGroup(paired: bool) returns (key: Bytes, all: Option<seq<Bytes>>)
      modifies this
      ensures match ReadGroup(old(rest), paired)
              case NoGroup => all == None
              case Group(k, ts, r) => key == k && all == Some(ts) && rest == r
    {
      var k := GetText();
      if k.None? {
        return "", None;
      }
      var n := GetLength();
      if n.None? {
        return "", None;
      }
      key := k.value;
      all := GetTexts(Strings(n.value, paired));
    }
  }

  function AfterTexts(read: seq<Bytes>, r: Texts): Texts {
    match r
    case NoTexts => NoTexts
    case Texts(all, rest) => Texts(read + all, rest)
  }

  lemma AfterNone(r: Texts)
    ensures AfterTexts([], r) == r
  {
    if r.Texts? {
      assert [] + r.all == r.all;
    }
  }

  lemma AfterAll(read: seq<Bytes>, s: Bytes)
    ensures AfterTexts(read, ReadTexts(0, s)) == Texts(read, s)
  {
    assert read + [] == read;
  }

  lemma AfterOne(read: seq<Bytes>, n: nat, s: Bytes)
    requires n > 0
    ensures AfterTexts(read, ReadTexts(n, s)) ==
            match ReadText(s)
            case NoText => NoTexts
            case Text(t, rest) => AfterTexts(read + [t], ReadTexts(n - 1, rest))
  {
    if ReadText(s).Text? && ReadTexts(n - 1, ReadText(s).rest).Texts? {
      var t, all := ReadText(s).s, ReadTexts(n - 1, ReadText(s).rest).all;
      assert read + ([t] + all) == read + [t] + all;
    }
  }

  // -------------------------------------------------------------------- one item

  datatype Fetched = Fetched(item: Item) | Failed(error: LoadError)

  ghost predicate Matches(r: ReadItem, f: Fetched, rest: Bytes) {
    match r
    case Gone(e) => f == Failed(e)
    case Got(it, left) => f == Fetched(it) && rest == left
  }

  method FetchMarker(rd: Reader, op: int) returns (f: Fetched)
    requires op == OP_EOF || op == OP_SELECT_DB || op == OP_RESIZE_DB
    modifies rd
    ensures Matches(ReadBody(op, old(rd.rest)), f, rd.rest)
  {
    if op == OP_EOF {
      var checksum := rd.ReadFull(8);
      return if checksum.None? then Failed(CutShort) else Fetched(End);
    }
    var n := rd.GetLength();
    if n.None? {
      return Failed(CutShort);
    }
    if op == OP_SELECT_DB {
      return Fetched(SelectDB(n.value));
    }
    var expires := rd.GetLength();
    return if expires.None? then Failed(CutShort) else Fetched(Resize(n.value, expires.value));
  }

  method FetchText(rd: Reader) returns (f: Fetched)
    modifies rd
    ensures Matches(ReadPair(old(rd.rest)), f, rd.rest)
  {
    var key := rd.GetText();
    if key.None? {
      return Failed(CutShort);
    }
    var value := rd.GetText();
    return if value.None? then Failed(CutShort) else Fetched(TextRecord(key.value, value.value));
  }

  method FetchGroup(rd: Reader, op: int) returns (f: Fetched)
    requires op == TYPE_LIST || op == TYPE_SET || op == TYPE_HASH
    modifies rd
    ensures Matches(ReadBody(op, old(rd.rest)), f, rd.rest)
  {
    var key, all := rd.GetGroup(op == TYPE_HASH);
    if all.None? {
      return Failed(CutShort);
    }
    return Fetched(if op == TYPE_LIST then ListRecord(key, all.value)
                   else if op == TYPE_SET then SetRecord(key, all.value)
                   else HashRecord(key, all.value));
  }

  /** One turn of the loop, up to the point where it touches a database. */
  method Fetch(rd: Reader) returns (f: Fetched)
    modifies rd
    ensures Matches(NextItem(old(rd.rest)), f, rd.rest)
  {
    var b := rd.ReadByte();
    if b.None? {
      return Failed(CutShort);
    }
    var op := b.value as int;
    if op == OP_EOF || op == OP_SELECT_DB || op == OP_RESIZE_DB {
      f := FetchMarker(rd, op);
    } else if op == TYPE_STRING {
      f := FetchText(rd);
    } else if op == TYPE_LIST || op == TYPE_SET || op == TYPE_HASH {
      f := FetchGroup(rd, op);
    } else {
      f := Failed(BadOpcode);
    }
  }

  // ------------------------------------------------------------------ one database

  lemma ListApplied(m: DB, key: Bytes, items: seq<Bytes>, now: int, created: DB)
    requires var s := Evict(At(m, key), now); created == With(m, key, s.(list := Some(s.list.GetOr([]))))
    requires key in created.lists
    ensures ApplyRecord(m, ListRecord(key, items), now) ==
            created.(lists := created.lists[key := created.lists[key] + items])
  {
    var s := Evict(At(m, key), now);
    var all := s.list.GetOr([]) + items;
    CreatedList(m, key, now, created, all);
    FoundList(m, key, now, Some(all));
    hide With, At, Evict;
  }

  lemma SetApplied(m: DB, key: Bytes, members: seq<Bytes>, now: int, created: DB)
    requires var s := Evict(At(m, key), now); created == With(m, key, s.(members := Some(s.members.GetOr({}))))
    requires key in created.sets
    ensures ApplyRecord(m, SetRecord(key, members), now) ==
            created.(sets := created.sets[key := created.sets[key] + Elements(members)])
  {
    var s := Evict(At(m, key), now);
    var all := s.members.GetOr({}) + Elements(members);
    CreatedSet(m, key, now, created, all);
    FoundSet(m, key, now, Some(all));
    hide With, At, Evict;
  }

  lemma HashApplied(m: DB, key: Bytes, pairs: seq<Bytes>, now: int, created: DB)
    requires var s := Evict(At(m, key), now); created == With(m, key, s.(fields := Some(s.fields.GetOr(map[]))))
    requires key in created.hashes
    ensures ApplyRecord(m, HashRecord(key, pairs), now) ==
            created.(hashes := created.hashes[key := created.hashes[key] + Pairs(pairs)])
  {
    var s := Evict(At(m, key), now);
    var all := s.fields.GetOr(map[]) + Pairs(pairs);
    CreatedHash(m, key, now, created, all);
    FoundHash(m, key, now, Some(all));
    hide With, At, Evict, Pairs;
  }

  lemma TextApplied(m: DB, key: Bytes, value: Bytes, now: int)
    ensures ApplyRecord(m, TextRecord(key, value), now) == m.(store := m.store[key := value])
  {
  }

  predicate IsRecord(it: Item) {
    it.TextRecord? || it.ListRecord? || it.SetRecord? || (it.HashRecord? && |it.pairs| % 2 == 0)
  }

  method ApplyTo(db: Database, it: Item, now: int)
    requires db.Valid() && IsRecord(it)
    modifies db.Repr()
    ensures db.Valid() && fresh(db.Repr() - old(db.Repr()))
    ensures db.Model() == ApplyRecord(old(db.Model()), it, now)
  {
    assert IsRecord(it);
    hide *;
    db.ModelIs();
    if it.TextRecord? {
      TextApplied(db.Model(), it.key, it.value, now);
      db.PutText(it.key, it.value);
    } else if it.ListRecord? {
      var list := db.GetOrCreateList(it.key, now);
      db.ModelIs();
      ListKeys(db.lists);
      ListApplied(old(db.Model()), it.key, it.items, now, db.Model());
      var _ := L.PushInto(list, it.key, it.items, false, db);
    } else if it.SetRecord? {
      var obj := db.GetOrCreateSet(it.key, now);
      db.ModelIs();
      SetKeys(db.sets);
      SetApplied(old(db.Model()), it.key, it.members, now, db.Model());
      var _ := S.AddTo(obj, it.key, it.members, db);
    } else {
      ApplyHash(db, it.key, it.pairs, now);
    }
  }

  method ApplyHash(db: Database, key: Bytes, pairs: seq<Bytes>, now: int)
    requires db.Valid() && |pairs| % 2 == 0
    modifies db.Repr()
    ensures db.Valid() && fresh(db.Repr() - old(db.Repr()))
    ensures db.Model() == ApplyRecord(old(db.Model()), HashRecord(key, pairs), now)
  {
    hide *;
    db.ModelIs();
    var fields := H.CollectPairs(pairs);
    db.ModelIs();
    var hash := db.GetOrCreateHash(key, now);
    db.ModelIs();
    HashKeys(db.hashes);
    HashApplied(old(db.Model()), key, pairs, now, db.Model());
    H.PutFields(hash, key, fields, db);
  }

  // ------------------------------------------------------------------ the sixteen

  method ApplyApart(ghost others: seq<Database>, db: Database, it: Item, now: int, ghost seen: Seen,
                    ghost apart: seq<Seen>)
    requires See(db) == seen && seen.valid && SeeAll(others) == apart && AllRepr(others) !! seen.repr && IsRecord(it)
    modifies db.Repr()
    ensures See(db).valid && fresh(See(db).repr - seen.repr)
    ensures SeeAll(others) == apart
    ensures See(db).model == ApplyRecord(seen.model, it, now)
  {
    hide *;
    OwnRepr(others);
    SeeIs(db);
    ghost var kept := AllRepr(others);
    assert forall o :: o in kept ==> o !in db.Repr() && allocated(o);
    ApplyTo(db, it, now);
    assert forall o :: o in kept ==> unchanged(o);
    SeeIs(db);
  }

  /** Applying a record to one database leaves the others as they are. */
  method ApplyAt(dbs: seq<Database>, index: nat, it: Item, now: int, ghost seen: seq<Seen>)
    requires index < |dbs| && seen == SeeAll(dbs) && Separate(seen) && IsRecord(it)
    modifies AllRepr(dbs)
    ensures Separate(SeeAll(dbs))
    ensures forall o :: o in AllRepr(dbs) && o !in old(AllRepr(dbs)) ==> fresh(o)
    ensures SeeAll(dbs) == seen[index := See(dbs[index])]
    ensures See(dbs[index]).model == ApplyRecord(seen[index].model, it, now)
  {
    hide *;
    ghost var world := AllRepr(dbs);
    Apart(dbs, index, seen);
    OwnRepr(dbs);
    WithinRepr(dbs);
    ApplyApart(Others(dbs, index), dbs[index], it, now, seen[index], Others(seen, index));
    Rejoin(dbs, index, seen, world);
    ghost var gained := See(dbs[index]).repr - seen[index].repr;
    forall o | o in AllRepr(dbs) && o !in world
      ensures fresh(o)
    {
      assert o in AllRepr(dbs) - world;
      assert o in gained;
    }
  }

  lemma NotTheReader(dbs: seq<Database>, rd: Reader)
    ensures rd !in AllRepr(dbs)
  {
  }

  method FetchApart(rd: Reader, ghost dbs: seq<Database>) returns (f: Fetched)
    modifies rd
    ensures Matches(NextItem(old(rd.rest)), f, rd.rest)
    ensures SeeAll(dbs) == old(SeeAll(dbs)) && AllRepr(dbs) == old(AllRepr(dbs))
  {
    OwnRepr(dbs);
    NotTheReader(dbs, rd);
    ghost var world := AllRepr(dbs);
    hide *;
    f := Fetch(rd);
    assert forall o :: o in world ==> unchanged(o);
  }

  /** What a fetched item makes of the load; an item that is no record touches no database. */
  lemma LoadTurn(s: Bytes, l: Loading, now: int, f: Fetched, rest: Bytes)
    requires Matches(NextItem(s), f, rest) && l.current < |l.dbs|
    ensures f.Failed? ==> LoadFrom(s, l, now) == Loaded(l.dbs, Some(f.error))
    ensures f.Fetched? ==>
              && |rest| < |s|
              && (f.item.End? ==> LoadFrom(s, l, now) == Loaded(l.dbs, None))
              && (f.item.SelectDB? ==>
                   LoadFrom(s, l, now) == if f.item.db >= |l.dbs| then Loaded(l.dbs, Some(BadIndex))
                                          else LoadFrom(rest, Loading(f.item.db, l.dbs), now))
              && (f.item.Resize? ==> LoadFrom(s, l, now) == LoadFrom(rest, l, now))
              && (!f.item.End? && !f.item.SelectDB? && !f.item.Resize? ==>
                   LoadFrom(s, l, now) ==
                   LoadFrom(rest, Loading(l.current, l.dbs[l.current := ApplyRecord(l.dbs[l.current], f.item, now)]),
                            now))
  {
    hide NextItem;
    if f.Fetched? && f.item.Resize? {
      assert l.dbs[l.current := l.dbs[l.current]] == l.dbs;
    }
  }

  lemma FetchedIsRecord(s: Bytes, f: Fetched, rest: Bytes)
    requires Matches(NextItem(s), f, rest) && f.Fetched?
    requires !f.item.End? && !f.item.SelectDB? && !f.item.Resize?
    ensures IsRecord(f.item)
  {
  }

  /** `Load` after the header: records already applied stay applied when an error ends it. */
  method LoadItems(rd: Reader, dbs: seq<Database>, now: int) returns (error: Option<LoadError>)
    requires |dbs| == NUM_DATABASES && Separate(SeeAll(dbs)) && rd !in AllRepr(dbs)
    modifies rd, AllRepr(dbs)
    ensures Separate(SeeAll(dbs))
    ensures Loaded(ModelsOf(SeeAll(dbs)), error) ==
            LoadFrom(old(rd.rest), Loading(0, old(ModelsOf(SeeAll(dbs)))), now)
  {
    hide *;
    assert 0 < |dbs| by {
      SomeDatabases();
    }
    var currentDB: nat := 0;
    ghost var start := LoadFrom(rd.rest, Loading(0, ModelsOf(SeeAll(dbs))), now);
    while true
      invariant currentDB < |dbs|
      invariant Separate(SeeAll(dbs)) && rd !in AllRepr(dbs)
      invariant forall o :: o in AllRepr(dbs) && o !in old(AllRepr(dbs)) ==> fresh(o)
      invariant LoadFrom(rd.rest, Loading(currentDB, ModelsOf(SeeAll(dbs))), now) == start
      decreases |rd.rest|
    {
      ghost var s, seen := rd.rest, SeeAll(dbs);
      var f := FetchApart(rd, dbs);
      LoadTurn(s, Loading(currentDB, ModelsOf(seen)), now, f, rd.rest);
      if f.Failed? {
        return Some(f.error);
      }
      if f.item.End? {
        return None;
      }
      if f.item.SelectDB? {
        if f.item.db >= |dbs| {
          return Some(BadIndex);
        }
        currentDB := f.item.db;
      } else if !f.item.Resize? {
        FetchedIsRecord(s, f, rd.rest);
        ApplyAt(dbs, currentDB, f.item, now, seen);
        ModelsAt(seen, currentDB, See(dbs[currentDB]));
        NotTheReader(dbs, rd);
      }
    }
  }

  lemma SomeDatabases()
    ensures 0 < NUM_DATABASES
  {
  }

  method OpenFile(file: Bytes, ghost dbs: seq<Database>) returns (rd: Reader, header: Option<Bytes>)
    ensures fresh(rd) && rd !in AllRepr(dbs)
    ensures if |file| < |HEADER| then header == None
            else header == Some(file[..|HEADER|]) && rd.rest == file[|HEADER|..]
    ensures SeeAll(dbs) == old(SeeAll(dbs)) && AllRepr(dbs) == old(AllRepr(dbs))
  {
    OwnRepr(dbs);
    ghost var world := AllRepr(dbs);
    hide AllRepr, SeeAll;
    rd := new Reader(file);
    header := rd.ReadFull(|HEADER|);
    assert forall o :: o in world ==> unchanged(o);
    NotTheReader(dbs, rd);
  }

  lemma LoadFileIs(s: Bytes, dbs: seq<DB>, now: int)
    ensures LoadFile(s, dbs, now) ==
            if |s| < |HEADER| then Loaded(dbs, Some(CutShort))
            else if s[..|HEADER|][..8] != HEADER[..8] then Loaded(dbs, Some(BadHeader))
            else LoadFrom(s[|HEADER|..], Loading(0, dbs), now)
  {
    if |s| >= |HEADER| {
      assert s[..|HEADER|][..8] == s[..8];
    }
    hide LoadFrom;
  }

  /** `Load`: the whole header is read, and its first eight bytes are checked. */
  method Load(file: Bytes, dbs: seq<Database>, now: int) returns (error: Option<LoadError>)
    requires |dbs| == NUM_DATABASES && Separate(SeeAll(dbs))
    modifies AllRepr(dbs)
    ensures Separate(SeeAll(dbs))
    ensures Loaded(ModelsOf(SeeAll(dbs)), error) == LoadFile(file, old(ModelsOf(SeeAll(dbs))), now)
  {
    LoadFileIs(file, ModelsOf(SeeAll(dbs)), now);
    assert |HEADER| >= 8;
    hide SeeAll, ModelsOf, AllRepr, Separate, LoadFile, LoadFrom;
    var rd, header := OpenFile(file, dbs);
    if header.None? {
      return Some(CutShort);
    }
    if header.value[..8] != HEADER[..8] {
      return Some(BadHeader);
    }
    error := LoadItems(rd, dbs, now);
  }

  /** Starting on an existing snapshot: the same sixteen databases, loaded. */
  method NewFromSnapshot(file: Bytes, now: int) returns (dbs: seq<Database>, error: Option<LoadError>)
    ensures |dbs| == NUM_DATABASES && Separate(SeeAll(dbs))
    ensures Loaded(ModelsOf(SeeAll(dbs)), error) == LoadFile(file, FreshDBs(NUM_DATABASES), now)
  {
    hide *;
    dbs := NewMultiDB();
    error := Load(file, dbs, now);
  }

  /**
   The whole way round on the objects: what one server saves, if its disk takes it, another that starts on the
   file holds, but for containers that were empty.
   */
  method Reloaded(models: seq<DB>, capacity: nat, now: int) returns (dbs: Option<seq<Database>>)
    requires |models| == NUM_DATABASES && AllFit(models)
    ensures dbs.Some? ==>
              && |dbs.value| == NUM_DATABASES && |SeeAll(dbs.value)| == NUM_DATABASES
              && forall i :: 0 <= i < NUM_DATABASES ==> SeeAll(dbs.value)[i].model == Pruned(models[i])
  {
    var file, orders := RdbStore.Save(models, capacity);
    if file.None? {
      return None;
    }
    SnapshotRoundTrip(models, orders, now);
    hide ValidOrders, SavedFile, AllFit, LoadFile, SeeAll, AllRepr, Separate, Pruned;
    var loaded, error := NewFromSnapshot(file.value, now);
    return Some(loaded);
  }
}
