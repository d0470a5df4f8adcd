/**
 When recovery is not exact. The log holds neither the member SPOP took nor any eviction; these theorems say
 exactly which steps of a run make a difference.
 */
module Exactness {
  import opened Wrappers
  import opened GoText
  import opened Resp
  import opened Containers
  import opened Keyspace
  import opened Commands
  import opened Effects
  import opened Replay
  import opened AofLog
  import opened Recovery

  // ------------------------------------------------------------------------ SPOP

  lemma OtherMember(members: set<Bytes>, m: Bytes) returns (other: Bytes)
    requires |members| >= 2
    ensures other in members && other != m
  {
    var rest := members - {m};
    assert |rest| >= |members| - 1;
    other :| other in rest;
  }

  /** Popping two different members leaves two different sets. */
  lemma DifferentPops(a: seq<Bytes>, db: DB, e: Env, now: int, other: Bytes)
    requires |a| == 1 && QuietSlot(At(db, a[0]), e.now)
    requires At(db, a[0]).members.Some? && |At(db, a[0]).members.value| >= 2
    requires other in At(db, a[0]).members.value && other != Picked(At(db, a[0]).members.value, e.pick)
    ensures !Exec(OnSet(SPOP), a, db, e).1.Fail?
    ensures Replay.Replay(OnSet(SPOP), a, Data(db), now, other) != Data(Exec(OnSet(SPOP), a, db, e).0)
  {
    var key, s := a[0], At(db, a[0]);
    var live := OnKey(OnSet(SPOP), a, s, e).0;
    var again := ReplayKey(OnSet(SPOP), a, Payload(s), now, other);
    assert Picked(s.members.value, e.pick) in s.members.value - {other};
    assert again.members == Some(s.members.value - {other});
    assert other !in s.members.value - {other};
    assert again != Payload(live);
    AtData(db, key);
    DataWith(db, key, live);
    AtWith(Data(db), key, Payload(live), key);
    AtWith(Data(db), key, again, key);
  }

  lemma UntameDiverges(s: Server, i: nat, v: Value, e: Env, entries: seq<Entry>)
    requires |s.dbs| == NUM_DATABASES && i < NUM_DATABASES && WellFormed(v)
    requires QuietEvent(s, Request(i, v, e)) && !TameRequest(s.dbs[i], v) && ReplaysTo(entries, s.dbs)
    ensures IsLogged(s.dbs[i], v, e)
    ensures !ReplaysTo(entries + [Entry(i, v)], s.dbs[i := Process(s.dbs[i], v, e).0])
  {
    var db, a := s.dbs[i], ArgsOf(v);
    var members := At(db, a[0]).members.value;
    assert a[0] in Looked(OnSet(SPOP), a, db, e);
    var other := OtherMember(members, Picked(members, e.pick));
    DifferentPops(a, db, e, 0, other);
    var picks: Picks := _ => other;
    ReplaySnoc(entries, Entry(i, v), 0, picks);
    assert ReplayAll(entries, 0, picks) == AllData(s.dbs);
    var dbs' := s.dbs[i := Process(db, v, e).0];
    assert ReplayAll(entries + [Entry(i, v)], 0, picks)[i] != AllData(dbs')[i];
  }

  lemma ExactIsReplayed(run: seq<Event>)
    requires ValidRun(run) && CleanRun(run)
    ensures Exact(run) <==> ReplaysTo(Entries(LogOf(run)), Run(run).dbs)
  {
    FileReadsBack(run);
    if Exact(run) {
      forall now: int, picks: Picks
        ensures ReplayAll(Entries(LogOf(run)), now, picks) == AllData(Run(run).dbs)
      {
        assert Recover(Run(run).file, now, picks) == AllData(Run(run).dbs);
      }
    }
  }

  lemma UntameStep(run: seq<Event>, n: nat)
    requires ValidRun(run) && QuietRun(run) && CleanRun(run)
    requires n < |run| && !TameEvent(Run(run[..n]), run[n])
    ensures Exact(run[..n]) ==> !Exact(run[..n + 1])
  {
    var before, after, ev := run[..n], run[..n + 1], run[n];
    assert after[..n] == before && after[n] == ev;
    RunPrefix(run, n);
    RunPrefix(run, n + 1);
    var s, log := Run(before), LogOf(before);
    assert QuietEvent(s, ev);
    ExactIsReplayed(before);
    ExactIsReplayed(after);
    if Exact(before) {
      UntameDiverges(s, ev.db, ev.value, ev.env, Entries(log));
      WrittenAppend(-1, log, Logged(Entry(ev.db, ev.value)));
    }
  }

  /** A restart would rebuild the data whenever in the run it came. */
  ghost predicate ExactThroughout(run: seq<Event>)
    requires ValidRun(run)
  {
    forall n :: 0 <= n <= |run| ==> Exact(run[..n])
  }

  lemma TameIsExact(run: seq<Event>)
    requires ValidRun(run) && QuietRun(run) && CleanRun(run) && TameRun(run)
    ensures ExactThroughout(run)
  {
    forall n | 0 <= n <= |run|
      ensures Exact(run[..n])
    {
      RunPrefix(run, n);
      RecoveryIsExact(run[..n]);
    }
  }

  /**
   SPOP does not log the member it took. In a run in which nothing stored is evicted and every crash is clean,
   recovery is exact at every point if and only if every SPOP hit a set of at most one member.
   */
  lemma ExactIffTame(run: seq<Event>)
    requires ValidRun(run) && QuietRun(run) && CleanRun(run)
    ensures ExactThroughout(run) <==> TameRun(run)
  {
    if TameRun(run) {
      TameIsExact(run);
    } else {
      var n :| 0 <= n < |run| && !TameEvent(Run(run[..n]), run[n]);
      UntameStep(run, n);
    }
  }

  // ------------------------------------------------------------------- evictions

  /** A step that writes nothing to the file: a sweep, or a request that is not logged. */
  ghost predicate Silent(s: Server, ev: Event)
    requires |s.dbs| == NUM_DATABASES && ValidEvent(ev)
  {
    match ev
    case Request(i, v, e) => !IsLogged(s.dbs[i], v, e)
    case SweepAll(_) => true
    case _ => false
  }

  lemma SilentKeepsDataIff(s: Server, ev: Event)
    requires |s.dbs| == NUM_DATABASES && ValidEvent(ev) && Silent(s, ev)
    ensures Step(s, ev).file == s.file
    ensures AllData(Step(s, ev).dbs) == AllData(s.dbs) <==> QuietEvent(s, ev)
  {
    match ev {
      case Request(i, v, e) =>
        UnloggedKeepsDataIff(s, i, v, e);
        var db' := Process(s.dbs[i], v, e).0;
        hide Process, QuietEvent, IsLogged, Data;
        assert AllData(s.dbs[i := db']) == AllData(s.dbs)[i := Data(db')];
      case SweepAll(now) =>
        SweepKeepsDataIff(s.dbs, now);
        hide Sweep;
        assert Step(s, ev).dbs == SweptDatabases(s.dbs, now);
    }
  }

  /**
   Evictions are not logged. Where recovery was exact, a sweep or an unlogged request, be it a read, an error or
   a deadline command, keeps it so if and only if it evicts nothing that is stored.
   */
  lemma SilentKeepsExactIff(run: seq<Event>, ev: Event)
    requires ValidRun(run) && Exact(run) && ValidEvent(ev) && Silent(Run(run), ev)
    ensures ValidRun(run + [ev])
    ensures Exact(run + [ev]) <==> QuietEvent(Run(run), ev)
  {
    var longer := run + [ev];
    assert longer[..|longer| - 1] == run;
    SilentKeepsDataIff(Run(run), ev);
    var picks: Picks := _ => "";
    assert Recover(Run(run).file, 0, picks) == AllData(Run(run).dbs);
    hide AllData, QuietEvent, Recover, Step;
    if AllData(Run(longer).dbs) == AllData(Run(run).dbs) {
      forall now: int, picks: Picks
        ensures Recover(Run(longer).file, now, picks) == AllData(Run(longer).dbs)
      {
        assert Recover(Run(run).file, now, picks) == AllData(Run(run).dbs);
      }
    }
  }

  // --------------------------------------------------------- runs that show it

  /** A client's command on database 0, at some time. */
  function Ask(words: seq<Bytes>, now: int): Event {
    Request(0, Array(seq(|words|, i requires 0 <= i < |words| => BulkString(words[i]))), Env(now, "", true))
  }

  /** The event is the client's command `c` with these arguments, on database 0. */
  ghost predicate Asks(ev: Event, c: Cmd, args: seq<Bytes>) {
    ev.Request? && ev.db == 0 && ValidEvent(ev) && CommandOf(ev.value) == Some(c) && ArgsOf(ev.value) == args
  }

  lemma Asked(words: seq<Bytes>, now: int, name: Bytes, args: seq<Bytes>, c: Cmd)
    requires words == [name] + args && |words| <= MAX64 && forall i :: 0 <= i < |words| ==> |words[i]| <= MAX64
    requires FindCommand(ToUpper(name)) == Some(c)
    ensures Asks(Ask(words, now), c, args)
  {
    var items := Ask(words, now).value.items;
    assert forall i :: 0 <= i < |items| ==> Sendable(items[i]);
    hide FindCommand, ToUpper;
    assert Strs(items[1..]) == args;
  }

  lemma AskedSadd(now: int)
    ensures Asks(Ask(["SADD", "k", "a", "b"], now), OnSet(SADD), ["k", "a", "b"])
  {
    assert ToUpper("SADD") == "SADD";
    Asked(["SADD", "k", "a", "b"], now, "SADD", ["k", "a", "b"], OnSet(SADD));
  }

  lemma AskedSpop(now: int)
    ensures Asks(Ask(["SPOP", "k"], now), OnSet(SPOP), ["k"])
  {
    assert ToUpper("SPOP") == "SPOP";
    Asked(["SPOP", "k"], now, "SPOP", ["k"], OnSet(SPOP));
  }

  lemma AskedSet(now: int)
    ensures Asks(Ask(["SET", "k", "v"], now), OnString(SET), ["k", "v"])
  {
    assert ToUpper("SET") == "SET";
    Asked(["SET", "k", "v"], now, "SET", ["k", "v"], OnString(SET));
  }

  lemma AskedExpire(now: int)
    ensures Asks(Ask(["EXPIRE", "k", "0"], now), OnDeadline(EXPIRE), ["k", "0"])
  {
    assert ToUpper("EXPIRE") == "EXPIRE";
    Asked(["EXPIRE", "k", "0"], now, "EXPIRE", ["k", "0"], OnDeadline(EXPIRE));
  }

  lemma AskedGet(now: int)
    ensures Asks(Ask(["GET", "k"], now), OnString(GET), ["k"])
  {
    assert ToUpper("GET") == "GET";
    Asked(["GET", "k"], now, "GET", ["k"], OnString(GET));
  }

  /** What a command does to its database. */
  lemma AskedStep(s: Server, ev: Event, c: Cmd, args: seq<Bytes>)
    requires |s.dbs| == NUM_DATABASES && Asks(ev, c, args)
    ensures Step(s, ev).dbs[0] == Exec(c, args, s.dbs[0], ev.env).0
  {
  }

  lemma TwoEvents(first: Event, second: Event)
    requires ValidEvent(first) && ValidEvent(second)
    ensures ValidRun([]) && ValidRun([first]) && ValidRun([first, second])
    ensures Run([first]).dbs == Step(Run([]), first).dbs
    ensures Run([first, second]).dbs == Step(Run([first]), second).dbs
    ensures Run([]).dbs[0] == EMPTY_DB
  {
    assert [first][..0] == [] && [first, second][..1] == [first];
    hide Step;
  }

  lemma NoDeadlineIsQuiet(db: DB, keys: set<Bytes>, now: int)
    requires db.expires == map[]
    ensures QuietAt(db, keys, now)
  {
  }

  /** Two requests that meet no deadline make a quiet run. */
  lemma TwoQuiet(first: Event, second: Event, c: Cmd, d: Cmd, a: seq<Bytes>, b: seq<Bytes>)
    requires Asks(first, c, a) && Asks(second, d, b)
    requires ValidRun([first]) && Run([first]).dbs[0].expires == map[]
    ensures ValidRun([first, second]) && QuietRun([first, second]) && CleanRun([first, second])
  {
    var run := [first, second];
    TwoEvents(first, second);
    assert run[..0] == [] && run[..1] == [first];
    hide Run, Looked, QuietAt, Process, CommandOf, ArgsOf, LogOf;
    NoDeadlineIsQuiet(EMPTY_DB, Looked(c, a, EMPTY_DB, first.env), first.env.now);
    NoDeadlineIsQuiet(Run([first]).dbs[0], Looked(d, b, Run([first]).dbs[0], second.env), second.env.now);
  }

  lemma SaddStores(e: Env)
    ensures var db := Exec(OnSet(SADD), ["k", "a", "b"], EMPTY_DB, e).0;
            db.expires == map[] && At(db, "k").members == Some({"a", "b"})
  {
    assert ["k", "a", "b"][1..] == ["a", "b"];
    assert Elements(["a", "b"]) == {"a", "b"};
    var s := OnKey(OnSet(SADD), ["k", "a", "b"], VACANT, e).0;
    assert s == VACANT.(members := Some({"a", "b"}));
    AtWith(EMPTY_DB, "k", s, "k");
  }

  /**
   SADD k a b, then SPOP k: nothing is ever evicted, no crash, and yet recovery is not exact at every point,
   since the replay may take the other member.
   */
  lemma UntameRun() returns (run: seq<Event>)
    ensures ValidRun(run) && QuietRun(run) && CleanRun(run) && !TameRun(run) && !ExactThroughout(run)
  {
    hide *;
    var add, pop := Ask(["SADD", "k", "a", "b"], 0), Ask(["SPOP", "k"], 0);
    AskedSadd(0);
    AskedSpop(0);
    run := [add, pop];
    AskedIsValid(add, OnSet(SADD), ["k", "a", "b"]);
    AskedIsValid(pop, OnSet(SPOP), ["k"]);
    TwoEvents(add, pop);
    AskedStep(Run([]), add, OnSet(SADD), ["k", "a", "b"]);
    SaddStores(add.env);
    TwoQuiet(add, pop, OnSet(SADD), OnSet(SPOP), ["k", "a", "b"], ["k"]);
    UntamePop(add, pop);
    ExactIffTame(run);
  }

  lemma AskedIsValid(ev: Event, c: Cmd, args: seq<Bytes>)
    requires Asks(ev, c, args)
    ensures ValidEvent(ev) && ValidRun([ev])
  {
  }

  lemma UntamePop(first: Event, pop: Event)
    requires ValidEvent(first) && ValidRun([first]) && ValidRun([first, pop]) && Asks(pop, OnSet(SPOP), ["k"])
    requires At(Run([first]).dbs[0], "k").members == Some({"a", "b"})
    ensures !TameRun([first, pop])
  {
    var run := [first, pop];
    assert run[..1] == [first];
    assert |{"a", "b"}| == 2;
    hide Run, CommandOf, ArgsOf, At;
    assert !TameEvent(Run(run[..1]), run[1]);
  }

  lemma SetStores(e: Env)
    ensures var db := Exec(OnString(SET), ["k", "v"], EMPTY_DB, e).0;
            db.expires == map[] && At(db, "k") == VACANT.(text := Some("v"))
  {
    AtWith(EMPTY_DB, "k", VACANT.(text := Some("v")), "k");
  }

  lemma ExpireSets(db: DB, e: Env)
    requires At(db, "k") == VACANT.(text := Some("v"))
    ensures At(Exec(OnDeadline(EXPIRE), ["k", "0"], db, e).0, "k") ==
            VACANT.(text := Some("v"), deadline := Some(e.now))
  {
    AtoiOfItoa(0);
    var s := VACANT.(text := Some("v"), deadline := Some(e.now));
    assert OnKey(OnDeadline(EXPIRE), ["k", "0"], At(db, "k"), e).0 == s;
    AtWith(db, "k", s, "k");
  }

  /**
   SET k v, then EXPIRE k 0: recovery is exact, but no longer once k has been swept, or once any client has
   asked for it.
   */
  lemma EvictionIsNotLogged() returns (run: seq<Event>)
    ensures ValidRun(run) && Exact(run)
    ensures ValidRun(run + [SweepAll(1)]) && !Exact(run + [SweepAll(1)])
    ensures ValidRun(run + [Ask(["GET", "k"], 1)]) && !Exact(run + [Ask(["GET", "k"], 1)])
  {
    hide *;
    var put, expire, get := Ask(["SET", "k", "v"], 0), Ask(["EXPIRE", "k", "0"], 0), Ask(["GET", "k"], 1);
    AskedSet(0);
    AskedExpire(0);
    AskedGet(1);
    run := [put, expire];
    AskedIsValid(put, OnString(SET), ["k", "v"]);
    AskedIsValid(expire, OnDeadline(EXPIRE), ["k", "0"]);
    AskedIsValid(get, OnString(GET), ["k"]);
    TwoEvents(put, expire);
    AskedStep(Run([]), put, OnString(SET), ["k", "v"]);
    SetStores(put.env);
    AskedStep(Run([put]), expire, OnDeadline(EXPIRE), ["k", "0"]);
    ExpireSets(Run([put]).dbs[0], expire.env);
    TwoQuiet(put, expire, OnString(SET), OnDeadline(EXPIRE), ["k", "v"], ["k", "0"]);
    NoSpopIsTame(put, expire, OnString(SET), OnDeadline(EXPIRE), ["k", "v"], ["k", "0"]);
    RecoveryIsExact(run);
    AskNow(["SET", "k", "v"], 0);
    AskNow(["EXPIRE", "k", "0"], 0);
    AskNow(["GET", "k"], 1);
    DueIsNotQuiet(Run(run), get);
    SilentKeepsExactIff(run, SweepAll(1));
    SilentKeepsExactIff(run, get);
  }

  lemma AskNow(words: seq<Bytes>, now: int)
    ensures Ask(words, now).env.now == now
  {
  }

  lemma NoSpopIsTame(first: Event, second: Event, c: Cmd, d: Cmd, a: seq<Bytes>, b: seq<Bytes>)
    requires Asks(first, c, a) && Asks(second, d, b) && c != OnSet(SPOP) && d != OnSet(SPOP)
    requires ValidRun([first, second])
    ensures TameRun([first, second])
  {
    hide Run, CommandOf, ArgsOf;
  }

  /** A stored key past its deadline: neither a sweep nor a look at it is quiet, and neither is logged. */
  lemma DueIsNotQuiet(s: Server, get: Event)
    requires |s.dbs| == NUM_DATABASES && Asks(get, OnString(GET), ["k"]) && get.env.now == 1
    requires At(s.dbs[0], "k") == VACANT.(text := Some("v"), deadline := Some(0))
    ensures !QuietEvent(s, SweepAll(1)) && Silent(s, SweepAll(1)) && ValidEvent(SweepAll(1))
    ensures !QuietEvent(s, get) && Silent(s, get)
  {
    var db := s.dbs[0];
    hide CommandOf, ArgsOf, Process, Exec, With, Evict;
    assert !QuietSlot(At(db, "k"), 1);
    assert "k" in Overdue(db, 1);
    assert "k" in Looked(OnString(GET), ["k"], db, get.env);
  }
}
