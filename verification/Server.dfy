/**
 The server: sixteen database objects and the open log. Its methods are the steps of the machine in `Recovery`:
 `ProcessCommand` executes and then logs, `SweepExpired` sweeps every database, and `New` rebuilds the
 databases from the bytes of the log.
 */
module Server {
  import opened Wrappers
  import opened GoText
  import opened Resp
  import opened Containers
  import opened Keyspace
  import opened Commands
  import opened Database
  import opened AofLog
  import opened Recovery
  import opened Handlers
  import opened MultiDB

  method ExecuteApart(ghost others: seq<Database>, db: Database, c: Cmd, args: seq<Bytes>, e: Env, ghost seen: Seen,
                      ghost apart: seq<Seen>)
    returns (reply: Reply, ghost pick: Bytes)
    requires See(db) == seen && seen.valid && SeeAll(others) == apart && AllRepr(others) !! seen.repr
    modifies db.Repr()
    ensures See(db).valid && fresh(See(db).repr - seen.repr)
    ensures SeeAll(others) == apart
    ensures (See(db).model, reply) == Exec(c, args, seen.model, e.(pick := pick))
  {
    hide *;
    OwnRepr(others);
    SeeIs(db);
    ghost var kept := AllRepr(others);
    assert forall o :: o in kept ==> o !in db.Repr() && allocated(o);
    reply, pick := Execute(c, args, db, e);
    assert forall o :: o in kept ==> unchanged(o);
    SeeIs(db);
  }

  /** Running a command on one database leaves the others as they are. */
  method ExecuteAt(dbs: seq<Database>, index: nat, c: Cmd, args: seq<Bytes>, e: Env, ghost seen: seq<Seen>)
    returns (reply: Reply, ghost pick: Bytes)
    requires index < |dbs| && seen == SeeAll(dbs) && Separate(seen)
    modifies AllRepr(dbs)
    ensures Separate(SeeAll(dbs))
    ensures forall o :: o in AllRepr(dbs) && o !in old(AllRepr(dbs)) ==> fresh(o)
    ensures SeeAll(dbs) == seen[index := See(dbs[index])]
    ensures (See(dbs[index]).model, reply) == Exec(c, args, seen[index].model, e.(pick := pick))
  {
    hide *;
    ghost var world := AllRepr(dbs);
    Apart(dbs, index, seen);
    OwnRepr(dbs);
    WithinRepr(dbs);
    reply, pick := ExecuteApart(Others(dbs, index), dbs[index], c, args, e, seen[index], Others(seen, index));
    Rejoin(dbs, index, seen, world);
    ghost var gained := See(dbs[index]).repr - seen[index].repr;
    forall o | o in AllRepr(dbs) && o !in world
      ensures fresh(o)
    {
      assert o in AllRepr(dbs) - world;
      assert o in gained;
    }
  }

  method ReplayApart(ghost others: seq<Database>, db: Database, value: Value, now: int, ghost seen: Seen,
                     ghost apart: seq<Seen>)
    returns (ghost pick: Bytes)
    requires See(db) == seen && seen.valid && SeeAll(others) == apart && AllRepr(others) !! seen.repr
    modifies db.Repr()
    ensures See(db).valid && fresh(See(db).repr - seen.repr)
    ensures SeeAll(others) == apart
    ensures See(db).model == ReplayValue(value, seen.model, now, pick)
  {
    hide *;
    OwnRepr(others);
    SeeIs(db);
    ghost var kept := AllRepr(others);
    assert forall o :: o in kept ==> o !in db.Repr() && allocated(o);
    pick := ReplayCommand(value, db, now);
    assert forall o :: o in kept ==> unchanged(o);
    SeeIs(db);
  }

  /** So does replaying one. */
  method ReplayAt(dbs: seq<Database>, index: nat, value: Value, now: int, ghost seen: seq<Seen>)
    returns (ghost pick: Bytes)
    requires index < |dbs| && seen == SeeAll(dbs) && Separate(seen)
    modifies AllRepr(dbs)
    ensures Separate(SeeAll(dbs))
    ensures forall o :: o in AllRepr(dbs) && o !in old(AllRepr(dbs)) ==> fresh(o)
    ensures SeeAll(dbs) == seen[index := See(dbs[index])]
    ensures See(dbs[index]).model == ReplayValue(value, seen[index].model, now, pick)
  {
    hide *;
    ghost var world := AllRepr(dbs);
    Apart(dbs, index, seen);
    OwnRepr(dbs);
    WithinRepr(dbs);
    pick := ReplayApart(Others(dbs, index), dbs[index], value, now, seen[index], Others(seen, index));
    Rejoin(dbs, index, seen, world);
    ghost var gained := See(dbs[index]).repr - seen[index].repr;
    forall o | o in AllRepr(dbs) && o !in world
      ensures fresh(o)
    {
      assert o in AllRepr(dbs) - world;
      assert o in gained;
    }
  }

  // ------------------------------------------------------------------- the server

  lemma StepOfRequest(s: Recovery.Server, i: nat, v: Value, e: Env)
    requires |s.dbs| == NUM_DATABASES && i < NUM_DATABASES && WellFormed(v)
    ensures v.Array? && v.items != []
    ensures var r := Recovery.Step(s, Request(i, v, e));
            if CommandOf(v).None? then r == s && Process(s.dbs[i], v, e).1 == Fail(UnknownCommand)
            else
              var (m, reply) := Exec(CommandOf(v).value, ArgsOf(v), s.dbs[i], e);
              && Process(s.dbs[i], v, e).1 == reply
              && r == if Persisted(CommandOf(v).value) && !reply.Fail?
                      then Recovery.Server(s.dbs[i := m], s.file + EntryBytes(s.lastDB, Entry(i, v)), i)
                      else s.(dbs := s.dbs[i := m])
  {
    hide Exec, EntryBytes, Persisted, FindCommand;
    if CommandOf(v).None? {
      assert s.dbs[i := s.dbs[i]] == s.dbs;
    }
  }

  lemma StepOfSweep(s: Recovery.Server, now: int)
    requires |s.dbs| == NUM_DATABASES
    ensures Recovery.Step(s, SweepAll(now)) == s.(dbs := SweptUpTo(s.dbs, |s.dbs|, now))
  {
    hide Sweep;
    assert Recovery.Step(s, SweepAll(now)).dbs == SweptUpTo(s.dbs, |s.dbs|, now);
  }

  lemma NotTheLog(dbs: seq<Database>, aof: Aof)
    ensures aof !in AllRepr(dbs)
  {
  }

  class Server {
    const dbs: seq<Database>
    const aof: Aof

    constructor (dbs: seq<Database>, aof: Aof)
      ensures this.dbs == dbs && this.aof == aof
    {
      this.dbs, this.aof := dbs, aof;
    }

    ghost predicate Valid()
      reads this, dbs, AllRepr(dbs)
    {
      |dbs| == NUM_DATABASES && Separate(SeeAll(dbs))
    }

    /** The state of the machine in `Recovery` that this server is in. */
    ghost function View(): (r: Recovery.Server)
      reads this, dbs, AllRepr(dbs), aof
      ensures |r.dbs| == |dbs|
    {
      Recovery.Server(ModelsOf(SeeAll(dbs)), aof.file, aof.lastDB)
    }

    lemma ViewIs()
      ensures View() == Recovery.Server(ModelsOf(SeeAll(dbs)), aof.file, aof.lastDB)
      ensures Valid() <==> |dbs| == NUM_DATABASES && Separate(SeeAll(dbs))
    {
    }

    /** Writing to the log touches no database. */
    method Log(dbIndex: int, value: Value)
      modifies aof
      ensures SeeAll(dbs) == old(SeeAll(dbs)) && AllRepr(dbs) == old(AllRepr(dbs))
      ensures aof.file == old(aof.file) + EntryBytes(old(aof.lastDB), Entry(dbIndex, value)) && aof.lastDB == dbIndex
    {
      OwnRepr(dbs);
      NotTheLog(dbs, aof);
      ghost var world := AllRepr(dbs);
      hide *;
      aof.Write(dbIndex, value);
      assert forall o :: o in world ==> unchanged(o);
    }

    /** Executes first and logs second; only a command that did not fail reaches the log. */
    method ProcessCommand(value: Value, dbIndex: nat, e: Env, ghost before: Recovery.Server)
      returns (reply: Reply, ghost pick: Bytes)
      requires Valid() && View() == before && dbIndex < NUM_DATABASES && WellFormed(value)
      modifies AllRepr(dbs), aof
      ensures Valid() && forall o :: o in AllRepr(dbs) && o !in old(AllRepr(dbs)) ==> fresh(o)
      ensures View() == Recovery.Step(before, Request(dbIndex, value, e.(pick := pick)))
      ensures reply == Process(before.dbs[dbIndex], value, e.(pick := pick)).1
    {
      NotTheLog(dbs, aof);
      hide *;
      ViewIs();
      pick := e.pick;
      StepOfRequest(before, dbIndex, value, e.(pick := pick));
      var c := CommandOf(value);
      if c.None? {
        return Fail(UnknownCommand), pick;
      }
      ghost var seen := SeeAll(dbs);
      reply, pick := ExecuteAt(dbs, dbIndex, c.value, ArgsOf(value), e, seen);
      StepOfRequest(before, dbIndex, value, e.(pick := pick));
      ModelsAt(seen, dbIndex, See(dbs[dbIndex]));
      if Persisted(c.value) && !reply.Fail? {
        Log(dbIndex, value);
      }
      ViewIs();
    }

    /** `MultiDB.SweepExpired`, which the expiry loop calls. */
    method SweepExpired(now: int, ghost before: Recovery.Server)
      requires Valid() && View() == before
      modifies AllRepr(dbs)
      ensures Valid() && AllRepr(dbs) <= old(AllRepr(dbs))
      ensures View() == Recovery.Step(before, SweepAll(now))
    {
      NotTheLog(dbs, aof);
      hide *;
      ViewIs();
      StepOfSweep(before, now);
      NoneSwept(before.dbs, now);
      var i := 0;
      while i < |dbs|
        invariant 0 <= i <= |dbs|
        invariant Separate(SeeAll(dbs)) && AllRepr(dbs) <= old(AllRepr(dbs))
        invariant ModelsOf(SeeAll(dbs)) == SweptUpTo(before.dbs, i, now)
        invariant aof.file == before.file && aof.lastDB == before.lastDB
      {
        ghost var seen := SeeAll(dbs);
        SweptStep(before.dbs, i, now);
        SweepAt(dbs, i, now, seen);
        ModelsAt(seen, i, See(dbs[i]));
        i := i + 1;
      }
      ViewIs();
    }
  }

  // ---------------------------------------------------------------------- start-up

  /** The choices SPOP made in a replay, one for each entry. */
  ghost function PicksOf(chosen: seq<Bytes>): Picks {
    (n: nat) => if n < |chosen| then chosen[n] else ""
  }

  lemma {:induction false} LaterPicks(entries: seq<Entry>, now: int, chosen: seq<Bytes>, pick: Bytes)
    requires |entries| <= |chosen|
    ensures ReplayAll(entries, now, PicksOf(chosen + [pick])) == ReplayAll(entries, now, PicksOf(chosen))
  {
    if entries != [] {
      LaterPicks(entries[..|entries| - 1], now, chosen, pick);
      hide ReplayValue;
    }
  }

  /** One more entry replayed, with one more choice. */
  lemma ReplayStep(calls: seq<Entry>, i: nat, now: int, chosen: seq<Bytes>, pick: Bytes)
    requires i < |calls| && |chosen| == i
    ensures ReplayAll(calls[..i + 1], now, PicksOf(chosen + [pick])) ==
            Apply(ReplayAll(calls[..i], now, PicksOf(chosen)), calls[i], now, pick)
  {
    assert calls[..i + 1][..i] == calls[..i];
    LaterPicks(calls[..i], now, chosen, pick);
    hide ReplayValue;
  }

  lemma ReplayStart(calls: seq<Entry>, now: int)
    ensures ReplayAll(calls[..0], now, PicksOf([])) == FreshDBs(NUM_DATABASES)
  {
  }

  lemma ApplyIs(dbs: seq<DB>, e: Entry, now: int, pick: Bytes)
    requires 0 <= e.db < |dbs|
    ensures Apply(dbs, e, now, pick) == dbs[e.db := ReplayValue(e.value, dbs[e.db], now, pick)]
  {
  }

  lemma OutOfRange(calls: seq<Entry>, i: nat)
    requires i < |calls| && !(0 <= calls[i].db < NUM_DATABASES)
    ensures !Startable(calls)
  {
  }

  lemma InRange(calls: seq<Entry>)
    requires forall k :: 0 <= k < |calls| ==> 0 <= calls[k].db < NUM_DATABASES
    ensures Startable(calls)
  {
  }

  /**
   The replay of every recovered entry, each on its database. An index that no database has is an index out of
   range in the source, which ends the process: not `ok`.
   */
  method ReplayLog(dbs: seq<Database>, calls: seq<Entry>, now: int) returns (ok: bool, ghost picks: Picks)
    requires |dbs| == NUM_DATABASES && Separate(SeeAll(dbs)) && ModelsOf(SeeAll(dbs)) == FreshDBs(NUM_DATABASES)
    modifies AllRepr(dbs)
    ensures ok <==> Startable(calls)
    ensures Separate(SeeAll(dbs)) && (ok ==> ModelsOf(SeeAll(dbs)) == ReplayAll(calls, now, picks))
    ensures forall o :: o in AllRepr(dbs) && o !in old(AllRepr(dbs)) ==> fresh(o)
  {
    hide *;
    picks := PicksOf([]);
    ghost var chosen: seq<Bytes> := [];
    ReplayStart(calls, now);
    var i := 0;
    while i < |calls|
      invariant 0 <= i <= |calls| && |chosen| == i
      invariant forall k :: 0 <= k < i ==> 0 <= calls[k].db < |dbs|
      invariant Separate(SeeAll(dbs))
      invariant ModelsOf(SeeAll(dbs)) == ReplayAll(calls[..i], now, PicksOf(chosen))
      invariant forall o :: o in AllRepr(dbs) && o !in old(AllRepr(dbs)) ==> fresh(o)
    {
      if calls[i].db < 0 || |dbs| <= calls[i].db {
        OutOfRange(calls, i);
        return false, picks;
      }
      ghost var seen := SeeAll(dbs);
      ghost var pick := ReplayAt(dbs, calls[i].db, calls[i].value, now, seen);
      ModelsAt(seen, calls[i].db, See(dbs[calls[i].db]));
      ReplayStep(calls, i, now, chosen, pick);
      ApplyIs(ModelsOf(seen), calls[i], now, pick);
      chosen := chosen + [pick];
      i := i + 1;
    }
    assert calls[..i] == calls;
    InRange(calls);
    return true, PicksOf(chosen);
  }

  lemma RecoverIs(file: Bytes, now: int, picks: Picks, calls: seq<Entry>, end: ReadError)
    requires Recovered(calls, end) == ReadLog(file, 0)
    ensures Recover(file, now, picks) == ReplayAll(calls, now, picks)
    ensures calls == ReadLog(file, 0).entries
  {
    hide ReadLog, ReplayAll;
  }

  method OpenLog(file: Bytes, ghost dbs: seq<Database>) returns (aof: Aof, calls: seq<Entry>, end: ReadError)
    ensures fresh(aof) && aof.file == file && aof.lastDB == -1 && aof !in AllRepr(dbs)
    ensures Recovered(calls, end) == ReadLog(file, 0)
    ensures SeeAll(dbs) == old(SeeAll(dbs)) && AllRepr(dbs) == old(AllRepr(dbs))
  {
    OwnRepr(dbs);
    ghost var world := AllRepr(dbs);
    hide *;
    aof := new Aof.Open(file);
    calls, end := aof.Read();
    assert forall o :: o in world ==> unchanged(o);
    NotTheLog(dbs, aof);
  }

  method Assemble(dbs: seq<Database>, aof: Aof) returns (server: Server)
    ensures fresh(server) && server.dbs == dbs && server.aof == aof
    ensures SeeAll(dbs) == old(SeeAll(dbs)) && AllRepr(dbs) == old(AllRepr(dbs))
    ensures aof.file == old(aof.file) && aof.lastDB == old(aof.lastDB)
  {
    hide *;
    OwnRepr(dbs);
    ghost var world := AllRepr(dbs);
    server := new Server(dbs, aof);
    assert forall o :: o in world ==> unchanged(o);
  }

  /**
   Starting on an existing log: what the machine calls a restart. Why the reading ended makes no difference, but
   an entry for a database that does not exist leaves no server.
   */
  method New(file: Bytes, now: int) returns (started: Option<Server>, ghost picks: Picks)
    ensures started.Some? <==> Startable(ReadLog(file, 0).entries)
    ensures started.Some? ==>
              var server := started.value;
              && fresh(server) && server.Valid() && fresh(server.aof)
              && (forall o :: o in AllRepr(server.dbs) ==> fresh(o))
              && server.View() == Recovery.Server(Recover(file, now, picks), file, -1)
  {
    hide *;
    var dbs := NewMultiDB();
    var aof, calls, end := OpenLog(file, dbs);
    var ok;
    ok, picks := ReplayLog(dbs, calls, now);
    RecoverIs(file, now, picks, calls, end);
    if !ok {
      return None, picks;
    }
    var server := Assemble(dbs, aof);
    server.ViewIs();
    return Some(server), picks;
  }

  /**
   The whole way round on the objects: a server starts on the file of a run in which nothing stored was evicted,
   SPOP had no choice and crashes were clean, and holds the strings, lists, sets and hashes the run ended with.
   */
  method Restarted(file: Bytes, now: int, ghost run: seq<Event>) returns (started: Option<Server>)
    requires ValidRun(run) && QuietRun(run) && TameRun(run) && CleanRun(run) && file == Run(run).file
    ensures started.Some? && started.value.Valid()
    ensures started.value.View() == Recovery.Server(AllData(Run(run).dbs), file, -1)
  {
    RecoveryIsExact(run);
    FileReadsBack(run);
    ghost var picks;
    hide Recover, Run, AllData, LogOf, ReadLog, Startable, Server.View, Server.Valid;
    started, picks := New(file, now);
    assert Recover(Run(run).file, now, picks) == AllData(Run(run).dbs);
  }
}
