/**
 A snapshot that mixes moments. LSET needs the database's lock for reading only, so it gets through while the
 database is being walked: the file can hold a pair of lists that was never there at one time.
 */
module SnapshotMix {
  import opened Wrappers
  import opened GoText
  import opened Containers
  import opened Keyspace
  import opened Commands
  import opened RdbCodec
  import opened RdbFile
  import opened RdbRoundTrip
  import opened RdbWalk
  import opened Snapshot
  import opened SnapshotRuns

  /** A database of the two lists "a" and "b", of one item each. */
  function Pair(a: Bytes, b: Bytes): DB {
    DB(map[], map["a" := [a], "b" := [b]], map[], map[], map[])
  }

  /** Sixteen databases, empty but for the first. */
  function Sixteen(first: DB): seq<DB> {
    FreshDBs(NUM_DATABASES)[0 := first]
  }

  function Idle(live: seq<DB>): Machine {
    Machine(live, Disk(None, None), Resting, 0, None)
  }

  lemma PairFits(a: Bytes, b: Bytes)
    requires |a| == |b| == 1
    ensures Fits(Pair(a, b))
  {
  }

  lemma IdleIsInitial(first: DB)
    requires Fits(first)
    ensures Initial(Idle(Sixteen(first)))
  {
    assert Fits(EMPTY_DB);
    hide Fits;
  }

  /** The state of a walk of database 0 that nothing else has been walked before. */
  ghost predicate AtWalk(m: Machine, live: DB, w: OpenWalk, steps: nat) {
    && Inv(m, None) && m.live == Sixteen(live) && m.steps == steps
    && m.phase.Saving? && m.phase.stage == Walking && m.phase.save.walk == Some(w) && m.phase.save.dbs == []
  }

  lemma CreateStep(live: DB) returns (m: Machine)
    requires Fits(live)
    ensures StepOf(Idle(Sixteen(live)), Create(true), m) && Inv(m, None)
    ensures m.live == Sixteen(live) && m.steps == 1 && m.phase == Saving(Walking, Save([], [], 0, [], None))
  {
    IdleIsInitial(live);
    var idle := Idle(Sixteen(live));
    InitialInv(idle);
    m := Next(idle, Create(true));
    StepKeepsInv(idle, Create(true), m, None);
    hide Inv, Sane, SaneSave, Fits, AllFit, Produced;
  }

  lemma BeginStep(m: Machine, live: DB) returns (m': Machine)
    requires Inv(m, None) && m.live == Sixteen(live) && m.steps == 1 && live.store == map[]
    requires m.phase == Saving(Walking, Save([], [], 0, [], None))
    ensures StepOf(m, Walk(Begin([])), m') && AtWalk(m', live, Started(live, [], 1), 2)
  {
    hide SaneSave, Fits, AllFit, Produced;
    assert Enabled(m, Walk(Begin([])));
    m' := Next(m, Walk(Begin([])));
    StepKeepsInv(m, Walk(Begin([])), m', None);
    hide Inv, Sane;
  }

  lemma CanCopy(m: Machine, live: DB, w: OpenWalk, steps: nat, r: Read)
    requires AtWalk(m, live, w, steps) && CanRead(w, live, r)
    ensures Sane(m) && Enabled(m, Walk(Copy(r)))
  {
    hide SaneSave, Fits, AllFit, Produced, CanRead;
  }

  lemma CopyStep(m: Machine, live: DB, w: OpenWalk, steps: nat, key: Bytes) returns (m': Machine)
    requires AtWalk(m, live, w, steps) && CanRead(w, live, ReadList(key))
    ensures key in live.lists && StepOf(m, Walk(Copy(ReadList(key))), m')
    ensures AtWalk(m', live, WalkedList(w, key, live.lists[key], steps), steps + 1)
  {
    var a := Walk(Copy(ReadList(key)));
    CanCopy(m, live, w, steps, ReadList(key));
    m' := Next(m, a);
    StepKeepsInv(m, a, m', None);
    hide Inv, Sane, SaneSave, Fits, AllFit, Produced, WalkedList;
  }

  lemma MutateStep(m: Machine, live: DB, w: OpenWalk, steps: nat, live': DB) returns (m': Machine)
    requires AtWalk(m, live, w, steps) && Fits(live') && Locked(live, live')
    ensures StepOf(m, Mutate(0, live'), m') && AtWalk(m', live', w, steps + 1)
  {
    hide SaneSave, Fits, AllFit, Produced;
    assert Enabled(m, Mutate(0, live'));
    m' := Next(m, Mutate(0, live'));
    StepKeepsInv(m, Mutate(0, live'), m', None);
    hide Inv, Sane;
    assert Sixteen(live)[0 := live'] == Sixteen(live');
  }

  lemma EndStep(m: Machine, live: DB, w: OpenWalk, steps: nat) returns (m': Machine)
    requires AtWalk(m, live, w, steps) && AllDone(w)
    ensures StepOf(m, Walk(EndWalk), m')
    ensures m'.live == m.live && m'.phase.Saving? && m'.phase.save.dbs == [w.read]
  {
    hide SaneSave, Fits, AllFit, Produced, AllDone;
    assert Enabled(m, Walk(EndWalk));
    m' := Next(m, Walk(EndWalk));
  }

  // ------------------------------------------------------------------- the run

  const BEFORE := Pair("1", "1")
  const BETWEEN := Pair("2", "1")
  const AFTER := Pair("2", "2")

  lemma WalkStarts()
    ensures var w := Started(BEFORE, [], 1); CanRead(w, BEFORE, ReadList("a")) && w.base == BEFORE
  {
  }

  /** What the walk holds once it has read "a" before the two commands and "b" after them. */
  lemma WalkEnds()
    ensures "a" in BEFORE.lists && BEFORE.lists["a"] == ["1"] && "b" in AFTER.lists && AFTER.lists["b"] == ["2"]
    ensures var w := WalkedList(Started(BEFORE, [], 1), "a", ["1"], 2);
            && CanRead(w, AFTER, ReadList("b"))
            && AllDone(WalkedList(w, "b", ["2"], 5))
            && WalkedList(w, "b", ["2"], 5).read == Pair("1", "2")
  {
    assert BEFORE.lists.Keys == {"a", "b"};
    assert map["a" := ["1"]].Keys == {"a"} && map["a" := ["1"], "b" := ["2"]].Keys == {"a", "b"};
  }

  lemma PairsLocked(a: Bytes, b: Bytes, c: Bytes, d: Bytes)
    ensures Locked(Pair(a, b), Pair(c, d))
  {
    assert Pair(a, b).lists.Keys == {"a", "b"} == Pair(c, d).lists.Keys;
  }

  lemma PairsDiffer()
    ensures Locked(BEFORE, BETWEEN) && Locked(BETWEEN, AFTER)
    ensures BEFORE != Pair("1", "2") && BETWEEN != Pair("1", "2") && AFTER != Pair("1", "2")
    ensures Fits(BEFORE) && Fits(BETWEEN) && Fits(AFTER) && BEFORE.store == map[]
  {
    hide Fits;
    PairFits("1", "1");
    PairFits("2", "1");
    PairFits("2", "2");
    PairsLocked("1", "1", "2", "1");
    PairsLocked("2", "1", "2", "2");
    hide Locked;
    assert BEFORE.lists["b"] == ["1"] != Pair("1", "2").lists["b"];
    assert BETWEEN.lists["b"] == ["1"];
    assert AFTER.lists["a"] == ["2"] != Pair("1", "2").lists["a"];
  }

  lemma FirstOfSixteen(db: DB)
    ensures |Sixteen(db)| == NUM_DATABASES && Sixteen(db)[0] == db
  {
  }

  /** The first database is not the mixed pair. */
  ghost predicate Apart(m: Machine) {
    |m.live| == NUM_DATABASES && m.live[0] != Pair("1", "2")
  }

  lemma IsApart(m: Machine, live: DB)
    requires m.live == Sixteen(live) && live != Pair("1", "2")
    ensures Apart(m)
  {
    FirstOfSixteen(live);
    hide Pair, Sixteen;
  }

  lemma WalkIsApart(m: Machine, live: DB, w: OpenWalk, steps: nat)
    requires AtWalk(m, live, w, steps) && live != Pair("1", "2")
    ensures Apart(m)
  {
    hide Pair, Sixteen, Inv;
    IsApart(m, live);
  }

  lemma LastOf(m: Machine, m': Machine)
    requires Apart(m) && m'.live == m.live
    ensures Apart(m')
  {
    hide Pair;
  }

  /** Steps and what holds after each, put together. */
  ghost predicate Path(states: seq<Machine>, actions: seq<Action>) {
    && |states| == |actions| + 1 && Initial(states[0])
    && (forall i :: 0 <= i < |actions| ==> StepOf(states[i], actions[i], states[i + 1]))
    && (forall i :: 0 <= i < |states| ==> Apart(states[i]))
  }

  lemma PathStarts(m: Machine)
    requires Initial(m) && Apart(m)
    ensures Path([m], [])
  {
  }

  lemma PathGrows(states: seq<Machine>, actions: seq<Action>, a: Action, m': Machine)
    requires Path(states, actions) && StepOf(states[|states| - 1], a, m') && Apart(m')
    ensures Path(states + [m'], actions + [a]) && (states + [m'])[|states|] == m'
    ensures |(states + [m'])| == |states| + 1
  {
    hide StepOf, Apart, Initial;
  }

  /** Up to the second of the two commands. */
  lemma HalfWay() returns (states: seq<Machine>, actions: seq<Action>, m: Machine)
    ensures Path(states, actions) && m == states[|states| - 1]
    ensures AtWalk(m, AFTER, WalkedList(Started(BEFORE, [], 1), "a", ["1"], 2), 5)
  {
    PairsDiffer();
    IdleIsInitial(BEFORE);
    WalkStarts();
    WalkEnds();
    IdleLive(Sixteen(BEFORE));
    hide *;
    var idle, w, w' := Idle(Sixteen(BEFORE)), Started(BEFORE, [], 1), WalkedList(Started(BEFORE, [], 1), "a", ["1"], 2);
    IsApart(idle, BEFORE);
    PathStarts(idle);
    states, actions := [idle], [];
    var m1 := CreateStep(BEFORE);
    IsApart(m1, BEFORE);
    PathGrows(states, actions, Create(true), m1);
    states, actions := states + [m1], actions + [Create(true)];
    var m2 := BeginStep(m1, BEFORE);
    WalkIsApart(m2, BEFORE, w, 2);
    PathGrows(states, actions, Walk(Begin([])), m2);
    states, actions := states + [m2], actions + [Walk(Begin([]))];
    var m3 := CopyStep(m2, BEFORE, w, 2, "a");
    WalkIsApart(m3, BEFORE, w', 3);
    PathGrows(states, actions, Walk(Copy(ReadList("a"))), m3);
    states, actions := states + [m3], actions + [Walk(Copy(ReadList("a")))];
    states, actions, m := TwoCommands(states, actions, m3, w');
  }

  lemma TwoCommands(states: seq<Machine>, actions: seq<Action>, m: Machine, w: OpenWalk)
    returns (states': seq<Machine>, actions': seq<Action>, m': Machine)
    requires Path(states, actions) && m == states[|states| - 1] && AtWalk(m, BEFORE, w, 3)
    ensures Path(states', actions') && m' == states'[|states'| - 1] && AtWalk(m', AFTER, w, 5)
  {
    PairsDiffer();
    hide *;
    var m4 := MutateStep(m, BEFORE, w, 3, BETWEEN);
    WalkIsApart(m4, BETWEEN, w, 4);
    PathGrows(states, actions, Mutate(0, BETWEEN), m4);
    states', actions' := states + [m4], actions + [Mutate(0, BETWEEN)];
    m' := MutateStep(m4, BETWEEN, w, 4, AFTER);
    WalkIsApart(m', AFTER, w, 5);
    PathGrows(states', actions', Mutate(0, AFTER), m');
    states', actions' := states' + [m'], actions' + [Mutate(0, AFTER)];
  }

  lemma PathIsRun(states: seq<Machine>, actions: seq<Action>)
    requires Path(states, actions)
    ensures IsRun(states, actions)
    ensures forall t :: 0 <= t < |states| ==> |states[t].live| == NUM_DATABASES && states[t].live[0] != Pair("1", "2")
  {
    hide StepOf, Initial, Pair;
    assert forall t :: 0 <= t < |states| ==> Apart(states[t]);
  }

  /**
   The walk copies list "a"; one client sets an item of "a" and then one of "b"; the walk copies "b". What it
   writes for the database was live at no step of the run.
   */
  lemma WalkCanMix() returns (states: seq<Machine>, actions: seq<Action>)
    ensures IsRun(states, actions)
    ensures var m := states[|states| - 1]; m.phase.Saving? && m.phase.save.dbs == [Pair("1", "2")]
    ensures forall t :: 0 <= t < |states| ==> |states[t].live| == NUM_DATABASES && states[t].live[0] != Pair("1", "2")
  {
    PairsDiffer();
    WalkEnds();
    hide *;
    var m;
    states, actions, m := HalfWay();
    var w := WalkedList(Started(BEFORE, [], 1), "a", ["1"], 2);
    var w' := WalkedList(w, "b", ["2"], 5);
    var m6 := CopyStep(m, AFTER, w, 5, "b");
    WalkIsApart(m6, AFTER, w', 6);
    PathGrows(states, actions, Walk(Copy(ReadList("b"))), m6);
    states, actions := states + [m6], actions + [Walk(Copy(ReadList("b")))];
    var m7 := EndStep(m6, AFTER, w', 6);
    LastOf(m6, m7);
    PathGrows(states, actions, Walk(EndWalk), m7);
    states, actions := states + [m7], actions + [Walk(EndWalk)];
    PathIsRun(states, actions);
  }

  lemma IdleLive(live: seq<DB>)
    ensures Idle(live).live == live
  {
  }

  /** The two changes are what LSET a 0 2 and LSET b 0 2 do. */
  lemma LsetMakesThem(e: Env)
    ensures Exec(OnList(LSET), ["a", "0", "2"], BEFORE, e) == (BETWEEN, OK)
    ensures Exec(OnList(LSET), ["b", "0", "2"], BETWEEN, e) == (AFTER, OK)
  {
    AtoiOfItoa(0);
    assert Itoa(0) == "0";
    SetOne("a", BEFORE, BETWEEN, e);
    SetOne("b", BETWEEN, AFTER, e);
  }

  lemma SetOne(key: Bytes, db: DB, db': DB, e: Env)
    requires Atoi("0") == Some(0) && db.expires == map[] && db' == WithList(db, key, ["2"])
    requires key in db.lists && |db.lists[key]| == 1
    ensures Exec(OnList(LSET), [key, "0", "2"], db, e) == (db', OK)
  {
    var s := Keyspace.At(db, key);
    assert s.list.value[0 := "2"] == ["2"];
    assert OnKey(OnList(LSET), [key, "0", "2"], s, e) == (s.(list := Some(["2"])), OK);
    SelfWith(db, key);
    assert With(db, key, s.(list := Some(["2"]))) == db';
  }
}
