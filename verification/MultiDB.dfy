/**
 The sixteen databases of a server, as objects that share nothing: a step on one leaves the others as they are.
 */
module MultiDB {
  import opened Wrappers
  import opened GoText
  import opened Containers
  import opened Keyspace
  import opened Database

  /** What there is to see of a database object. */
  datatype Seen = Seen(valid: bool, repr: set<object>, model: DB)

  ghost function AllRepr(dbs: seq<Database>): set<object>
    reads dbs
  {
    set i, o | 0 <= i < |dbs| && o in dbs[i].Repr() :: o
  }

  ghost function See(db: Database): Seen
    reads db, db.Repr()
  {
    Seen(db.Valid(), db.Repr(), db.Model())
  }

  ghost function SeeAll(dbs: seq<Database>): (r: seq<Seen>)
    reads dbs, AllRepr(dbs)
    ensures |r| == |dbs|
  {
    if dbs == [] then []
    else
      ReprParts(dbs);
      SeeAll(dbs[..|dbs| - 1]) + [See(dbs[|dbs| - 1])]
  }

  lemma {:induction false} SeeAllIs(dbs: seq<Database>)
    ensures |SeeAll(dbs)| == |dbs| && forall i :: 0 <= i < |dbs| ==> SeeAll(dbs)[i] == See(dbs[i])
  {
    hide See;
    if dbs != [] {
      SeeAllIs(dbs[..|dbs| - 1]);
    }
  }

  lemma ReprParts(dbs: seq<Database>)
    requires dbs != []
    ensures AllRepr(dbs[..|dbs| - 1]) <= AllRepr(dbs)
    ensures dbs[|dbs| - 1].Repr() <= AllRepr(dbs)
  {
    var n := |dbs| - 1;
    forall o | o in AllRepr(dbs[..n])
      ensures o in AllRepr(dbs)
    {
      var i :| 0 <= i < n && o in dbs[..n][i].Repr();
      assert o in dbs[i].Repr();
    }
  }

  lemma OwnRepr(dbs: seq<Database>)
    ensures forall d :: d in dbs ==> d in AllRepr(dbs)
    ensures forall o :: o in AllRepr(dbs) ==> allocated(o)
  {
    forall d | d in dbs
      ensures d in AllRepr(dbs)
    {
      var i :| 0 <= i < |dbs| && dbs[i] == d;
      assert d in dbs[i].Repr();
    }
  }

  /** Valid objects that share nothing. */
  ghost predicate Separate(seen: seq<Seen>) {
    && (forall i :: 0 <= i < |seen| ==> seen[i].valid)
    && (forall i, j :: 0 <= i < j < |seen| ==> seen[i].repr !! seen[j].repr)
  }

  ghost function ModelsOf(seen: seq<Seen>): (r: seq<DB>)
    ensures |r| == |seen| && forall i :: 0 <= i < |seen| ==> r[i] == seen[i].model
  {
    seq(|seen|, i requires 0 <= i < |seen| => seen[i].model)
  }

  function Others<T>(s: seq<T>, index: nat): seq<T>
    requires index < |s|
  {
    s[..index] + s[index + 1..]
  }

  lemma OthersAt<T>(s: seq<T>, index: nat)
    requires index < |s|
    ensures |Others(s, index)| == |s| - 1
    ensures forall k :: 0 <= k < |s| - 1 ==> Others(s, index)[k] == s[if k < index then k else k + 1]
  {
  }

  lemma SeeOthers(dbs: seq<Database>, index: nat)
    requires index < |dbs|
    ensures SeeAll(Others(dbs, index)) == Others(SeeAll(dbs), index)
  {
    hide *;
    SeeAllIs(dbs);
    SeeAllIs(Others(dbs, index));
    OthersAt(dbs, index);
    OthersAt(SeeAll(dbs), index);
  }

  lemma InRepr(dbs: seq<Database>, o: object) returns (i: nat)
    requires o in AllRepr(dbs)
    ensures i < |dbs| && o in SeeAll(dbs)[i].repr
  {
    SeeAllIs(dbs);
    i :| 0 <= i < |dbs| && o in dbs[i].Repr();
  }

  lemma NotOfOthers(seen: seq<Seen>, index: nat, k: nat, o: object)
    requires index < |seen| && Separate(seen) && k < |seen| - 1 && o in Others(seen, index)[k].repr
    ensures o !in seen[index].repr
  {
    OthersAt(seen, index);
  }

  /** Before a step on one database: what it may touch belongs to none of the others. */
  lemma Apart(dbs: seq<Database>, index: nat, seen: seq<Seen>)
    requires index < |dbs| && seen == SeeAll(dbs) && Separate(seen)
    ensures See(dbs[index]) == seen[index] && seen[index].valid
    ensures AllRepr(Others(dbs, index)) !! seen[index].repr
    ensures SeeAll(Others(dbs, index)) == Others(seen, index)
    ensures dbs[index].Repr() == seen[index].repr <= AllRepr(dbs)
  {
    SeeAllIs(dbs);
    SeeIs(dbs[index]);
    WithinRepr(dbs);
    assert seen[index].valid;
    hide *;
    SeeOthers(dbs, index);
    forall o | o in AllRepr(Others(dbs, index))
      ensures o !in seen[index].repr
    {
      var k := InRepr(Others(dbs, index), o);
      NotOfOthers(seen, index, k, o);
    }
  }

  lemma WithinRepr(dbs: seq<Database>)
    ensures forall i :: 0 <= i < |dbs| ==> SeeAll(dbs)[i].repr <= AllRepr(dbs)
  {
    SeeAllIs(dbs);
  }

  /** After it: the others look the same, and what the one has gained is new. */
  lemma Rejoin(dbs: seq<Database>, index: nat, seen: seq<Seen>, world: set<object>)
    requires index < |dbs| == |seen| && Separate(seen)
    requires forall i :: 0 <= i < |seen| ==> seen[i].repr <= world
    requires SeeAll(Others(dbs, index)) == Others(seen, index)
    requires See(dbs[index]).valid && (See(dbs[index]).repr - seen[index].repr) !! world
    ensures SeeAll(dbs) == seen[index := See(dbs[index])]
    ensures Separate(SeeAll(dbs))
    ensures AllRepr(dbs) - world <= See(dbs[index]).repr - seen[index].repr
  {
    SeeAllIs(dbs);
    SeeOthers(dbs, index);
    hide See, SeeAll, AllRepr, Separate;
    SameOthers(SeeAll(dbs), seen, index);
    StillSeparate(seen, index, See(dbs[index]), world);
    forall o | o in AllRepr(dbs) - world
      ensures o in See(dbs[index]).repr - seen[index].repr
    {
      var k := InRepr(dbs, o);
    }
  }

  lemma SameOthers(now: seq<Seen>, before: seq<Seen>, index: nat)
    requires index < |now| == |before| && Others(now, index) == Others(before, index)
    ensures now == before[index := now[index]]
  {
    forall i | 0 <= i < |now| && i != index
      ensures now[i] == before[i]
    {
      var k := if i < index then i else i - 1;
      assert Others(now, index)[k] == now[i] && Others(before, index)[k] == before[i];
    }
  }

  lemma StillSeparate(seen: seq<Seen>, index: nat, one: Seen, world: set<object>)
    requires index < |seen| && Separate(seen) && one.valid
    requires forall i :: 0 <= i < |seen| ==> seen[i].repr <= world
    requires (one.repr - seen[index].repr) !! world
    ensures Separate(seen[index := one])
  {
    forall i | 0 <= i < |seen| && i != index
      ensures seen[i].repr !! one.repr && one.repr !! seen[i].repr
    {
      assert seen[i].repr !! seen[index].repr;
      assert forall o :: o in one.repr ==> o in seen[index].repr || o in one.repr - seen[index].repr;
    }
  }

  lemma SeeIs(db: Database)
    ensures See(db) == Seen(db.Valid(), db.Repr(), db.Model()) && db in db.Repr()
  {
  }

  lemma ModelsAt(seen: seq<Seen>, index: nat, one: Seen)
    requires index < |seen|
    ensures ModelsOf(seen[index := one]) == ModelsOf(seen)[index := one.model]
    ensures ModelsOf(seen)[index] == seen[index].model
  {
  }

  method SweepApart(ghost others: seq<Database>, db: Database, now: int, ghost seen: Seen, ghost apart: seq<Seen>)
    requires See(db) == seen && seen.valid && SeeAll(others) == apart && AllRepr(others) !! seen.repr
    modifies db.Repr()
    ensures See(db).valid && See(db).repr <= seen.repr
    ensures SeeAll(others) == apart
    ensures See(db).model == Sweep(seen.model, now)
  {
    hide *;
    OwnRepr(others);
    SeeIs(db);
    ghost var kept := AllRepr(others);
    assert forall o :: o in kept ==> o !in db.Repr() && allocated(o);
    db.SweepExpired(now);
    assert forall o :: o in kept ==> unchanged(o);
    SeeIs(db);
  }

  /** And sweeping one, which takes on no objects. */
  method SweepAt(dbs: seq<Database>, index: nat, now: int, ghost seen: seq<Seen>)
    requires index < |dbs| && seen == SeeAll(dbs) && Separate(seen)
    modifies AllRepr(dbs)
    ensures Separate(SeeAll(dbs)) && AllRepr(dbs) <= old(AllRepr(dbs))
    ensures SeeAll(dbs) == seen[index := See(dbs[index])]
    ensures See(dbs[index]).model == Sweep(seen[index].model, now)
  {
    hide *;
    ghost var world := AllRepr(dbs);
    Apart(dbs, index, seen);
    WithinRepr(dbs);
    dbs[index].ModelIs();
    SweepApart(Others(dbs, index), dbs[index], now, seen[index], Others(seen, index));
    Rejoin(dbs, index, seen, world);
  }

  ghost function SweptUpTo(models: seq<DB>, i: nat, now: int): (r: seq<DB>)
    ensures |r| == |models|
  {
    seq(|models|, k requires 0 <= k < |models| => if k < i then Sweep(models[k], now) else models[k])
  }

  lemma NoneSwept(models: seq<DB>, now: int)
    ensures SweptUpTo(models, 0, now) == models
  {
  }

  lemma SweptStep(models: seq<DB>, i: nat, now: int)
    requires i < |models|
    ensures SweptUpTo(models, i + 1, now) == SweptUpTo(models, i, now)[i := Sweep(SweptUpTo(models, i, now)[i], now)]
  {
    hide Sweep;
  }

  lemma AppendOne(dbs: seq<Database>, db: Database)
    requires Separate(SeeAll(dbs)) && db.Valid() && AllRepr(dbs) !! db.Repr()
    ensures SeeAll(dbs + [db]) == SeeAll(dbs) + [See(db)]
    ensures Separate(SeeAll(dbs + [db]))
    ensures AllRepr(dbs + [db]) <= AllRepr(dbs) + db.Repr()
  {
    var longer := dbs + [db];
    assert longer[..|longer| - 1] == dbs;
    forall i | 0 <= i < |dbs|
      ensures SeeAll(dbs)[i].repr !! db.Repr()
    {
      WithinRepr(dbs);
    }
    forall o | o in AllRepr(longer)
      ensures o in AllRepr(dbs) + db.Repr()
    {
      var i :| 0 <= i < |longer| && o in longer[i].Repr();
      assert i < |dbs| ==> o in dbs[i].Repr();
    }
  }

  lemma EmptySight()
    ensures SeeAll([]) == [] && Separate([]) && AllRepr([]) == {} && ModelsOf([]) == []
  {
  }

  method AddDatabase(dbs: seq<Database>) returns (db: Database)
    requires Separate(SeeAll(dbs)) && forall o :: o in AllRepr(dbs) ==> allocated(o)
    ensures fresh(db.Repr()) && db.Valid()
    ensures SeeAll(dbs + [db]) == old(SeeAll(dbs)) + [See(db)] && See(db).model == EMPTY_DB
    ensures Separate(SeeAll(dbs + [db]))
    ensures AllRepr(dbs + [db]) <= old(AllRepr(dbs)) + db.Repr()
  {
    hide *;
    OwnRepr(dbs);
    ghost var world := AllRepr(dbs);
    db := new Database();
    assert forall o :: o in world ==> unchanged(o);
    AppendOne(dbs, db);
    SeeIs(db);
  }

  /** Sixteen empty databases. */
  method NewMultiDB() returns (dbs: seq<Database>)
    ensures |dbs| == NUM_DATABASES && Separate(SeeAll(dbs))
    ensures ModelsOf(SeeAll(dbs)) == FreshDBs(NUM_DATABASES)
    ensures forall o :: o in AllRepr(dbs) ==> fresh(o)
  {
    dbs := [];
    EmptySight();
    hide SeeAll, Separate, AllRepr, ModelsOf, See;
    while |dbs| < NUM_DATABASES
      invariant |dbs| <= NUM_DATABASES
      invariant Separate(SeeAll(dbs))
      invariant ModelsOf(SeeAll(dbs)) == FreshDBs(|dbs|)
      invariant forall o :: o in AllRepr(dbs) ==> fresh(o)
      decreases NUM_DATABASES - |dbs|
    {
      OwnRepr(dbs);
      var db := AddDatabase(dbs);
      dbs := dbs + [db];
    }
  }
}
