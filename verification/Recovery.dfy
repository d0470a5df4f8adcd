/**
 The server as a machine: sixteen databases and the append-only file. A run is any sequence of requests on
 any databases, expiry sweeps, restarts, and crashes that leave only the front of the file; the theorems say what
 a restart finds.
 */
module Recovery {
  import opened Wrappers
  import opened GoText
  import opened Resp
  import opened Keyspace
  import opened Commands
  import opened Effects
  import opened Replay
  import opened AofLog

  datatype Server = Server(dbs: seq<DB>, file: Bytes, lastDB: int)

  /** The order in which map iteration yields SPOP its members is not logged: one choice per replayed entry. */
  type Picks = nat -> Bytes

  datatype Event =
    | Request(db: nat, value: Value, env: Env)
    | SweepAll(now: int)
    | Restart(now: int, picks: Picks)
    | Crash(keep: nat, now: int, picks: Picks)

  // ------------------------------------------------------------------ requests

  /** `handleSelect`: the connection's database index after SELECT. */
  function SelectIndex(args: seq<Bytes>, current: int): (index: int)
    ensures 0 <= current < NUM_DATABASES ==> 0 <= index < NUM_DATABASES
  {
    if |args| != 1 then current
    else
      match Atoi(args[0])
      case None => current
      case Some(i) => if 0 <= i < NUM_DATABASES then i else current
  }

  function CommandOf(v: Value): Option<Cmd>
    requires v.Array? && v.items != []
  {
    FindCommand(ToUpper(Str(v.items[0])))
  }

  function ArgsOf(v: Value): seq<Bytes>
    requires v.Array? && v.items != []
  {
    Strs(v.items[1..])
  }

  /** A request `handleConnection` passes on: a non-empty array that came off the wire. */
  predicate WellFormed(v: Value) {
    v.Array? && v.items != [] && Sendable(v)
  }

  /** `processCommand`, up to the log: run the handler on the connection's database. */
  ghost function Process(db: DB, v: Value, e: Env): (DB, Reply)
    requires v.Array? && v.items != []
  {
    match CommandOf(v)
    case None => (db, Fail(UnknownCommand))
    case Some(c) => Exec(c, ArgsOf(v), db, e)
  }

  /** Execute first, log second: only a logged command that did not fail reaches the file. */
  ghost predicate IsLogged(db: DB, v: Value, e: Env)
    requires v.Array? && v.items != []
  {
    CommandOf(v).Some? && Persisted(CommandOf(v).value) && !Process(db, v, e).1.Fail?
  }

  // -------------------------------------------------------------------- replay

  /** `replayCommand` on one logged value. */
  ghost function ReplayValue(v: Value, db: DB, now: int, pick: Bytes): DB {
    if !v.Array? || v.items == [] || CommandOf(v).None? then db
    else Replay.Replay(CommandOf(v).value, ArgsOf(v), db, now, pick)
  }

  /** Every entry is for a database there is; any other index ends the source's start-up with a panic. */
  ghost predicate Startable(entries: seq<Entry>) {
    forall i :: 0 <= i < |entries| ==> 0 <= entries[i].db < NUM_DATABASES
  }

  ghost function Apply(dbs: seq<DB>, e: Entry, now: int, pick: Bytes): (r: seq<DB>)
    ensures |r| == |dbs|
  {
    if 0 <= e.db < |dbs| then dbs[e.db := ReplayValue(e.value, dbs[e.db], now, pick)] else dbs
  }

  ghost function ReplayAll(entries: seq<Entry>, now: int, picks: Picks): (dbs: seq<DB>)
    ensures |dbs| == NUM_DATABASES
  {
    if entries == [] then FreshDBs(NUM_DATABASES)
    else
      var n := |entries| - 1;
      Apply(ReplayAll(entries[..n], now, picks), entries[n], now, picks(n))
  }

  /** What `New` rebuilds from the file: a fresh MultiDB and every recovered entry replayed on it. */
  ghost function Recover(file: Bytes, now: int, picks: Picks): (dbs: seq<DB>)
    ensures |dbs| == NUM_DATABASES
  {
    ReplayAll(ReadLog(file, 0).entries, now, picks)
  }

  // ---------------------------------------------------------------------- runs

  ghost predicate ValidEvent(ev: Event) {
    ev.Request? ==> ev.db < NUM_DATABASES && WellFormed(ev.value)
  }

  ghost predicate ValidRun(run: seq<Event>) {
    forall n :: 0 <= n < |run| ==> ValidEvent(run[n])
  }

  /** How much of the file is left when at most its first `keep` bytes reached the disk. */
  function Left(file: Bytes, keep: nat): nat {
    if keep < |file| then keep else |file|
  }

  ghost function Step(s: Server, ev: Event): (r: Server)
    requires |s.dbs| == NUM_DATABASES && ValidEvent(ev)
    ensures |r.dbs| == NUM_DATABASES
  {
    match ev
    case Request(i, v, e) =>
      var dbs := s.dbs[i := Process(s.dbs[i], v, e).0];
      if IsLogged(s.dbs[i], v, e)
      then Server(dbs, s.file + EntryBytes(s.lastDB, Entry(i, v)), i)
      else s.(dbs := dbs)
    case SweepAll(now) => s.(dbs := seq(NUM_DATABASES, i requires 0 <= i < NUM_DATABASES => Sweep(s.dbs[i], now)))
    case Restart(now, picks) => Server(Recover(s.file, now, picks), s.file, -1)
    case Crash(keep, now, picks) =>
      var file := s.file[..Left(s.file, keep)];
      Server(Recover(file, now, picks), file, -1)
  }

  ghost function Run(run: seq<Event>): (s: Server)
    requires ValidRun(run)
    ensures |s.dbs| == NUM_DATABASES
  {
    if run == [] then Server(FreshDBs(NUM_DATABASES), "", -1)
    else Step(Run(run[..|run| - 1]), run[|run| - 1])
  }

  /** What the file stands for after one more event: a crash keeps only some of it. */
  ghost function LogAfter(log: seq<LogEvent>, s: Server, ev: Event): seq<LogEvent>
    requires |s.dbs| == NUM_DATABASES && ValidEvent(ev)
  {
    match ev
    case Request(i, v, e) => if IsLogged(s.dbs[i], v, e) then log + [Logged(Entry(i, v))] else log
    case SweepAll(_) => log
    case Restart(_, _) => log + [Opened]
    case Crash(keep, _, _) => Kept(-1, log, Left(s.file, keep)) + [Opened]
  }

  /** What the whole run did to the file. */
  ghost function LogOf(run: seq<Event>): seq<LogEvent>
    requires ValidRun(run)
  {
    if run == [] then []
    else LogAfter(LogOf(run[..|run| - 1]), Run(run[..|run| - 1]), run[|run| - 1])
  }

  /** A crash cuts between two entries or right behind a marker: the cuts that `TailIsSafeIff` calls harmless. */
  ghost predicate CleanEvent(s: Server, log: seq<LogEvent>, ev: Event) {
    ev.Crash? ==> CleanCut(-1, log, Left(s.file, ev.keep))
  }

  ghost predicate CleanRun(run: seq<Event>)
    requires ValidRun(run)
  {
    forall n :: 0 <= n < |run| ==> CleanEvent(Run(run[..n]), LogOf(run[..n]), run[n])
  }

  /** A logged command is never mistaken for a marker. */
  lemma LoggedIsNoMarker(v: Value)
    requires v.Array? && v.items != [] && CommandOf(v).Some?
    ensures !IsSelect(v)
  {
    assert FindCommand("SELECT").None?;
  }

  ghost predicate ForDatabases(log: seq<LogEvent>) {
    forall i :: 0 <= i < |log| && log[i].Logged? ==> 0 <= log[i].entry.db < NUM_DATABASES
  }

  ghost predicate HoldsLog(s: Server, log: seq<LogEvent>) {
    s.file == Written(-1, log) && s.lastDB == LastDB(-1, log) && AllLoggable(log) && ForDatabases(log)
  }

  /** One more entry, or one more opening. */
  lemma LogAppended(s: Server, log: seq<LogEvent>, x: LogEvent, s': Server)
    requires HoldsLog(s, log) && LoggableEvent(x) && (x.Logged? ==> 0 <= x.entry.db < NUM_DATABASES)
    requires s'.file == s.file + BytesOf(s.lastDB, x) && s'.lastDB == NextDB(x)
    ensures HoldsLog(s', log + [x])
  {
    WrittenAppend(-1, log, x);
    hide BytesOf, LoggableEvent, Written;
  }

  /** What is kept of a log, and the next opening. */
  lemma KeptHolds(log: seq<LogEvent>, n: nat)
    requires AllLoggable(log) && ForDatabases(log)
    ensures AllLoggable(Kept(-1, log, n)) && ForDatabases(Kept(-1, log, n))
  {
    hide Kept, AllLoggable, WhollyInside, WithStub;
    KeptLoggable(-1, log, n);
    var m := KeptIsInside(-1, log, n);
    StubbedForDatabases(log, Kept(-1, log, n), m);
  }

  lemma StubbedForDatabases(log: seq<LogEvent>, kept: seq<LogEvent>, m: nat)
    requires ForDatabases(log) && WithStub(kept, log, m)
    ensures ForDatabases(kept)
  {
    forall i | 0 <= i < |kept| && kept[i].Logged?
      ensures 0 <= kept[i].entry.db < NUM_DATABASES
    {
      assert kept[..m][i] == log[i];
    }
  }

  lemma LogCut(s: Server, log: seq<LogEvent>, n: nat, s': Server)
    requires HoldsLog(s, log) && n <= |s.file| && CleanCut(-1, log, n)
    requires s'.file == s.file[..n] && s'.lastDB == -1
    ensures HoldsLog(s', Kept(-1, log, n) + [Opened])
  {
    var t := TornAt(-1, log, n);
    var kept := Kept(-1, log, n);
    KeptHolds(log, n);
    hide Written, Kept, AllLoggable, ForDatabases, CleanCut, LastDB, Decode;
    assert s'.file == Written(-1, kept) + "" == Written(-1, kept);
    var cut := Server(s'.dbs, s'.file, LastDB(-1, kept));
    LogAppended(cut, kept, Opened, s');
  }

  lemma RequestGrows(s: Server, i: nat, v: Value, e: Env, log: seq<LogEvent>)
    requires |s.dbs| == NUM_DATABASES && i < NUM_DATABASES && WellFormed(v) && HoldsLog(s, log)
    ensures HoldsLog(Step(s, Request(i, v, e)), LogAfter(log, s, Request(i, v, e)))
  {
    if IsLogged(s.dbs[i], v, e) {
      LoggedIsNoMarker(v);
      hide Process, HoldsLog, CommandOf, Sendable, IsSelect, EntryBytes;
      LogAppended(s, log, Logged(Entry(i, v)), Step(s, Request(i, v, e)));
    }
  }

  lemma LogGrows(s: Server, ev: Event, log: seq<LogEvent>)
    requires |s.dbs| == NUM_DATABASES && ValidEvent(ev) && HoldsLog(s, log) && CleanEvent(s, log, ev)
    ensures HoldsLog(Step(s, ev), LogAfter(log, s, ev))
  {
    hide HoldsLog, Recover, IsLogged, Process, CleanCut, Kept;
    match ev {
      case Request(i, v, e) => RequestGrows(s, i, v, e, log);
      case SweepAll(_) => SameFile(s, Step(s, ev), log);
      case Restart(_, _) =>
        assert s.file + "" == s.file;
        LogAppended(s, log, Opened, Step(s, ev));
      case Crash(keep, _, _) => LogCut(s, log, Left(s.file, keep), Step(s, ev));
    }
  }

  lemma SameFile(s: Server, s': Server, log: seq<LogEvent>)
    requires HoldsLog(s, log) && s'.file == s.file && s'.lastDB == s.lastDB
    ensures HoldsLog(s', log)
  {
  }

  lemma RunPrefix(run: seq<Event>, n: nat)
    requires ValidRun(run) && n <= |run|
    ensures ValidRun(run[..n])
    ensures QuietRun(run) ==> QuietRun(run[..n])
    ensures TameRun(run) ==> TameRun(run[..n])
    ensures CleanRun(run) ==> CleanRun(run[..n])
  {
    forall k | 0 <= k < n
      ensures run[..n][..k] == run[..k] && run[..n][k] == run[k]
    {
    }
  }

  /** The file always holds exactly the run's log, every entry of it readable and for a database there is. */
  lemma {:induction false} FileIsLog(run: seq<Event>)
    requires ValidRun(run) && CleanRun(run)
    ensures HoldsLog(Run(run), LogOf(run))
  {
    if run != [] {
      var n := |run| - 1;
      RunPrefix(run, n);
      FileIsLog(run[..n]);
      LogGrows(Run(run[..n]), run[n], LogOf(run[..n]));
    }
  }

  lemma {:induction false} EntriesStartable(log: seq<LogEvent>)
    requires ForDatabases(log)
    ensures Startable(Entries(log))
  {
    if log != [] {
      EntriesStartable(log[1..]);
    }
  }

  /** Reading the file back gives the run's entries. */
  lemma FileReadsBack(run: seq<Event>)
    requires ValidRun(run) && CleanRun(run)
    ensures ReadLog(Run(run).file, 0) == Recovered(Entries(LogOf(run)), EOF)
    ensures Startable(Entries(LogOf(run)))
  {
    FileIsLog(run);
    ReadWritten(-1, LogOf(run), 0);
    EntriesStartable(LogOf(run));
  }

  // ------------------------------------------------------------- recovery is exact

  ghost function AllData(dbs: seq<DB>): (r: seq<DB>)
    ensures |r| == |dbs|
    ensures forall i :: 0 <= i < |dbs| ==> r[i] == Data(dbs[i])
  {
    seq(|dbs|, i requires 0 <= i < |dbs| => Data(dbs[i]))
  }

  ghost predicate AllFilled(dbs: seq<DB>) {
    forall i :: 0 <= i < |dbs| ==> NoEmptyContainer(dbs[i])
  }

  /** Nothing stored is past its deadline under the keys whose eviction the event can be told by. */
  ghost predicate QuietEvent(s: Server, ev: Event)
    requires |s.dbs| == NUM_DATABASES && ValidEvent(ev)
  {
    match ev
    case Request(i, v, e) =>
      CommandOf(v).Some? ==> QuietAt(s.dbs[i], Looked(CommandOf(v).value, ArgsOf(v), s.dbs[i], e), e.now)
    case SweepAll(now) => forall i :: 0 <= i < NUM_DATABASES ==> QuietAt(s.dbs[i], Overdue(s.dbs[i], now), now)
    case _ => true
  }

  ghost predicate QuietRun(run: seq<Event>)
    requires ValidRun(run)
  {
    forall n :: 0 <= n < |run| ==> QuietEvent(Run(run[..n]), run[n])
  }

  /** SPOP has no choice to make: the set under its key has at most one member. */
  ghost predicate TameRequest(db: DB, v: Value)
    requires v.Array? && v.items != []
  {
    CommandOf(v) == Some(OnSet(SPOP)) && |ArgsOf(v)| == 1 ==>
      |At(db, ArgsOf(v)[0]).members.GetOr({})| <= 1
  }

  ghost predicate TameEvent(s: Server, ev: Event)
    requires |s.dbs| == NUM_DATABASES && ValidEvent(ev)
  {
    ev.Request? ==> TameRequest(s.dbs[ev.db], ev.value)
  }

  ghost predicate TameRun(run: seq<Event>)
    requires ValidRun(run)
  {
    forall n :: 0 <= n < |run| ==> TameEvent(Run(run[..n]), run[n])
  }

  /** Whatever the replay's own SPOP choices and clock, recovery rebuilds the four maps of every database. */
  ghost predicate Exact(run: seq<Event>)
    requires ValidRun(run)
  {
    forall now: int, picks: Picks :: Recover(Run(run).file, now, picks) == AllData(Run(run).dbs)
  }

  lemma FreshFilled()
    ensures AllFilled(FreshDBs(NUM_DATABASES)) && AllData(FreshDBs(NUM_DATABASES)) == FreshDBs(NUM_DATABASES)
  {
  }

  lemma ApplyFilled(dbs: seq<DB>, e: Entry, now: int, pick: Bytes)
    requires AllFilled(dbs)
    ensures AllFilled(Apply(dbs, e, now, pick))
  {
    if 0 <= e.db < |dbs| && e.value.Array? && e.value.items != [] && CommandOf(e.value).Some? {
      ReplayFilled(CommandOf(e.value).value, ArgsOf(e.value), dbs[e.db], now, pick);
    }
  }

  lemma {:induction false} ReplayAllFilled(entries: seq<Entry>, now: int, picks: Picks)
    ensures AllFilled(ReplayAll(entries, now, picks))
  {
    if entries == [] {
      FreshFilled();
    } else {
      var n := |entries| - 1;
      ReplayAllFilled(entries[..n], now, picks);
      ApplyFilled(ReplayAll(entries[..n], now, picks), entries[n], now, picks(n));
    }
  }

  lemma SweepFilled(dbs: seq<DB>, now: int)
    requires |dbs| == NUM_DATABASES && AllFilled(dbs)
    ensures AllFilled(seq(NUM_DATABASES, i requires 0 <= i < NUM_DATABASES => Sweep(dbs[i], now)))
  {
    forall i | 0 <= i < NUM_DATABASES
      ensures NoEmptyContainer(Sweep(dbs[i], now))
    {
      SweepEvicts(dbs[i], now);
      EvictingFills(dbs[i], Sweep(dbs[i], now), Overdue(dbs[i], now), now);
    }
  }

  /** No run, with any commands, sweeps, restarts and crashes whatever, ever stores an empty list, set or hash. */
  lemma {:induction false} NothingEmptyIsStored(run: seq<Event>)
    requires ValidRun(run)
    ensures AllFilled(Run(run).dbs)
  {
    if run == [] {
      FreshFilled();
    } else {
      var before, ev := run[..|run| - 1], run[|run| - 1];
      var s := Run(before);
      NothingEmptyIsStored(before);
      match ev {
        case Request(i, v, e) =>
          if CommandOf(v).Some? {
            CommandEffect(CommandOf(v).value, ArgsOf(v), s.dbs[i], e);
          }
        case SweepAll(now) => SweepFilled(s.dbs, now);
        case Restart(now, picks) => ReplayAllFilled(ReadLog(s.file, 0).entries, now, picks);
        case Crash(keep, now, picks) =>
          ReplayAllFilled(ReadLog(s.file[..Left(s.file, keep)], 0).entries, now, picks);
      }
    }
  }

  ghost function SweptDatabases(dbs: seq<DB>, now: int): (r: seq<DB>)
    requires |dbs| == NUM_DATABASES
    ensures |r| == |dbs| && forall i :: 0 <= i < |dbs| ==> r[i] == Sweep(dbs[i], now)
  {
    seq(NUM_DATABASES, i requires 0 <= i < NUM_DATABASES => Sweep(dbs[i], now))
  }

  /** A sweep changes no data if and only if what it takes holds none. */
  lemma SweepKeepsDataIff(dbs: seq<DB>, now: int)
    requires |dbs| == NUM_DATABASES
    ensures AllData(SweptDatabases(dbs, now)) == AllData(dbs) <==>
            forall i :: 0 <= i < NUM_DATABASES ==> QuietAt(dbs[i], Overdue(dbs[i], now), now)
  {
    forall i | 0 <= i < NUM_DATABASES
      ensures AllData(SweptDatabases(dbs, now))[i] == AllData(dbs)[i] <==> QuietAt(dbs[i], Overdue(dbs[i], now), now)
    {
      SweepEvicts(dbs[i], now);
      EvictingFills(dbs[i], Sweep(dbs[i], now), Overdue(dbs[i], now), now);
      UnchangedIffQuiet(dbs[i], Sweep(dbs[i], now), Overdue(dbs[i], now), now);
    }
    hide Sweep, Overdue, QuietAt, Data;
  }

  /** So does a request that is not logged: an error reply, a read, or a deadline command. */
  lemma UnloggedKeepsDataIff(s: Server, i: nat, v: Value, e: Env)
    requires |s.dbs| == NUM_DATABASES && i < NUM_DATABASES && WellFormed(v) && !IsLogged(s.dbs[i], v, e)
    ensures Data(Process(s.dbs[i], v, e).0) == Data(s.dbs[i]) <==> QuietEvent(s, Request(i, v, e))
  {
    if CommandOf(v).Some? {
      InertIffQuiet(CommandOf(v).value, ArgsOf(v), s.dbs[i], e);
    }
  }

  lemma TamePick(db: DB, v: Value, pick: Bytes, pick': Bytes)
    requires v.Array? && v.items != [] && CommandOf(v).Some? && TameRequest(db, v)
    requires |ArgsOf(v)| == 1
    ensures PickAgrees(CommandOf(v).value, ArgsOf(v), db, pick, pick')
  {
    if CommandOf(v).value == OnSet(SPOP) {
      var members := At(db, ArgsOf(v)[0]).members.GetOr({});
      if members != {} {
        Only(members, Picked(members, pick), Picked(members, pick'));
      }
    }
  }

  lemma Only(members: set<Bytes>, x: Bytes, y: Bytes)
    requires |members| <= 1 && x in members && y in members
    ensures x == y
  {
    var rest := members - {x};
    assert |rest| == |members| - 1;
    assert rest == {};
  }

  lemma SpopArity(a: seq<Bytes>, db: DB, e: Env)
    requires !Exec(OnSet(SPOP), a, db, e).1.Fail?
    ensures |a| == 1
  {
  }

  /** Replaying a logged request on the data it started from gives the data it left. */
  lemma LoggedReplays(db: DB, v: Value, e: Env, now: int, pick: Bytes)
    requires v.Array? && v.items != [] && IsLogged(db, v, e)
    requires QuietAt(db, Looked(CommandOf(v).value, ArgsOf(v), db, e), e.now)
    requires NoEmptyContainer(db) && TameRequest(db, v)
    ensures ReplayValue(v, Data(db), now, pick) == Data(Process(db, v, e).0)
  {
    var c, a := CommandOf(v).value, ArgsOf(v);
    if c == OnSet(SPOP) {
      SpopArity(a, db, e);
      TamePick(db, v, e.pick, pick);
    }
    ReplayMatches(c, a, db, e, now, pick);
  }

  ghost predicate ReplaysTo(entries: seq<Entry>, dbs: seq<DB>) {
    forall now: int, picks: Picks :: ReplayAll(entries, now, picks) == AllData(dbs)
  }

  lemma ReplaySnoc(entries: seq<Entry>, e: Entry, now: int, picks: Picks)
    ensures ReplayAll(entries + [e], now, picks) ==
            Apply(ReplayAll(entries, now, picks), e, now, picks(|entries|))
  {
    var all := entries + [e];
    assert all[..|all| - 1] == entries;
  }

  lemma LoggedExact(s: Server, i: nat, v: Value, e: Env, entries: seq<Entry>)
    requires |s.dbs| == NUM_DATABASES && i < NUM_DATABASES && WellFormed(v) && IsLogged(s.dbs[i], v, e)
    requires AllFilled(s.dbs) && QuietEvent(s, Request(i, v, e)) && TameRequest(s.dbs[i], v)
    requires ReplaysTo(entries, s.dbs)
    ensures ReplaysTo(entries + [Entry(i, v)], s.dbs[i := Process(s.dbs[i], v, e).0])
  {
    var db := s.dbs[i];
    var dbs' := s.dbs[i := Process(db, v, e).0];
    forall now: int, picks: Picks
      ensures ReplayAll(entries + [Entry(i, v)], now, picks) == AllData(dbs')
    {
      ReplaySnoc(entries, Entry(i, v), now, picks);
      LoggedReplays(db, v, e, now, picks(|entries|));
      assert ReplayAll(entries, now, picks) == AllData(s.dbs);
      assert AllData(dbs') == AllData(s.dbs)[i := Data(dbs'[i])];
    }
  }

  lemma AllDataTwice(entries: seq<Entry>, dbs: seq<DB>, now: int, picks: Picks)
    requires ReplaysTo(entries, dbs)
    ensures ReplaysTo(entries, ReplayAll(entries, now, picks))
  {
    assert ReplayAll(entries, now, picks) == AllData(dbs);
    assert AllData(AllData(dbs)) == AllData(dbs);
  }

  lemma SameData(entries: seq<Entry>, dbs: seq<DB>, dbs': seq<DB>)
    requires ReplaysTo(entries, dbs) && AllData(dbs') == AllData(dbs)
    ensures ReplaysTo(entries, dbs')
  {
    forall now: int, picks: Picks
      ensures ReplayAll(entries, now, picks) == AllData(dbs')
    {
      assert ReplayAll(entries, now, picks) == AllData(dbs);
    }
  }

  lemma RequestExact(s: Server, i: nat, v: Value, e: Env, log: seq<LogEvent>)
    requires |s.dbs| == NUM_DATABASES && i < NUM_DATABASES && WellFormed(v)
    requires AllFilled(s.dbs) && QuietEvent(s, Request(i, v, e)) && TameRequest(s.dbs[i], v)
    requires ReplaysTo(Entries(log), s.dbs)
    ensures ReplaysTo(Entries(LogAfter(log, s, Request(i, v, e))), Step(s, Request(i, v, e)).dbs)
  {
    if IsLogged(s.dbs[i], v, e) {
      WrittenAppend(-1, log, Logged(Entry(i, v)));
      LoggedExact(s, i, v, e, Entries(log));
    } else {
      UnloggedKeepsDataIff(s, i, v, e);
      var dbs' := s.dbs[i := Process(s.dbs[i], v, e).0];
      assert AllData(dbs') == AllData(s.dbs);
      SameData(Entries(log), s.dbs, dbs');
    }
  }

  lemma SweepExact(s: Server, now: int, entries: seq<Entry>)
    requires |s.dbs| == NUM_DATABASES && QuietEvent(s, SweepAll(now)) && ReplaysTo(entries, s.dbs)
    ensures ReplaysTo(entries, Step(s, SweepAll(now)).dbs)
  {
    SweepKeepsDataIff(s.dbs, now);
    assert Step(s, SweepAll(now)).dbs == SweptDatabases(s.dbs, now);
    SameData(entries, s.dbs, SweptDatabases(s.dbs, now));
  }

  /** Every prefix of the run's log holds the entries of the log of a prefix of the run. */
  lemma {:induction false} LogPrefix(run: seq<Event>, k: nat) returns (m: nat)
    requires ValidRun(run) && k <= |LogOf(run)|
    ensures m <= |run| && Entries(LogOf(run[..m])) == Entries(LogOf(run)[..k])
    ensures k < |LogOf(run)| ==> m < |run|
  {
    if k == |LogOf(run)| {
      m := |run|;
      assert run[..m] == run && LogOf(run)[..k] == LogOf(run);
    } else {
      var n := |run| - 1;
      var log := LogOf(run[..n]);
      var j := ShorterLog(log, Run(run[..n]), run[n], k);
      m := LogPrefix(run[..n], j);
      assert run[..n][..m] == run[..m];
    }
  }

  lemma ShorterLog(log: seq<LogEvent>, s: Server, ev: Event, k: nat) returns (j: nat)
    requires |s.dbs| == NUM_DATABASES && ValidEvent(ev) && k < |LogAfter(log, s, ev)|
    ensures j <= |log| && Entries(LogAfter(log, s, ev)[..k]) == Entries(log[..j])
  {
    hide Entries, Kept, IsLogged, WithStub;
    j := k;
    if ev.Crash? {
      var kept := Kept(-1, log, Left(s.file, ev.keep));
      assert (kept + [Opened])[..k] == kept[..k];
      var m := KeptIsInside(-1, log, Left(s.file, ev.keep));
      j := KeptPrefix(log, kept, m, k);
    } else {
      assert forall x: LogEvent :: k <= |log| ==> (log + [x])[..k] == log[..k];
    }
  }

  lemma KeptPrefix(log: seq<LogEvent>, kept: seq<LogEvent>, m: nat, k: nat) returns (j: nat)
    requires WithStub(kept, log, m) && k <= |kept|
    ensures j <= |log| && Entries(kept[..k]) == Entries(log[..j])
  {
    if k <= m {
      j := k;
      assert kept[..k] == kept[..m][..k] == log[..k];
    } else {
      j := m;
      assert kept[..k] == kept;
      KeptEntries(log, kept, m);
    }
  }

  /** What a crash keeps are the entries of the log at an earlier point of the run. */
  lemma CrashIsEarlier(run: seq<Event>, keep: nat) returns (m: nat)
    requires ValidRun(run)
    ensures m <= |run| && Entries(LogOf(run[..m])) == Entries(Kept(-1, LogOf(run), keep))
  {
    var log, kept := LogOf(run), Kept(-1, LogOf(run), keep);
    var k := KeptIsInside(-1, log, keep);
    KeptEntries(log, kept, k);
    m := LogPrefix(run, k);
  }

  lemma ReadHeld(s: Server, kept: seq<LogEvent>)
    requires HoldsLog(s, kept + [Opened])
    ensures Entries(kept + [Opened]) == Entries(kept) == ReadLog(s.file, 0).entries
  {
    ReadWritten(-1, kept + [Opened], 0);
    WrittenAppend(-1, kept, Opened);
  }

  lemma CrashExact(s: Server, log: seq<LogEvent>, ev: Event, live: seq<DB>)
    requires |s.dbs| == NUM_DATABASES && ev.Crash? && HoldsLog(s, log) && CleanEvent(s, log, ev)
    requires ReplaysTo(Entries(Kept(-1, log, Left(s.file, ev.keep))), live)
    ensures ReplaysTo(Entries(LogAfter(log, s, ev)), Step(s, ev).dbs)
  {
    var kept, s' := Kept(-1, log, Left(s.file, ev.keep)), Step(s, ev);
    LogGrows(s, ev, log);
    assert LogAfter(log, s, ev) == kept + [Opened];
    assert s'.dbs == ReplayAll(ReadLog(s'.file, 0).entries, ev.now, ev.picks);
    hide *;
    ReadHeld(s', kept);
    AllDataTwice(Entries(kept), live, ev.now, ev.picks);
  }

  lemma RestartExact(s: Server, log: seq<LogEvent>, ev: Event)
    requires |s.dbs| == NUM_DATABASES && ev.Restart? && HoldsLog(s, log)
    requires ReplaysTo(Entries(log), s.dbs)
    ensures ReplaysTo(Entries(LogAfter(log, s, ev)), Step(s, ev).dbs)
  {
    var s' := Step(s, ev);
    LogGrows(s, ev, log);
    assert LogAfter(log, s, ev) == log + [Opened];
    assert s'.dbs == ReplayAll(ReadLog(s'.file, 0).entries, ev.now, ev.picks);
    hide *;
    ReadHeld(s', log);
    AllDataTwice(Entries(log), s.dbs, ev.now, ev.picks);
  }

  /** The simulation: every replay of the run's log, with whatever choices, gives the data of the live state. */
  lemma {:induction false} LiveIsReplayed(run: seq<Event>)
    requires ValidRun(run) && QuietRun(run) && TameRun(run) && CleanRun(run)
    ensures ReplaysTo(Entries(LogOf(run)), Run(run).dbs)
    decreases |run|
  {
    if run == [] {
      FreshFilled();
    } else {
      var n := |run| - 1;
      var before, s, ev := run[..n], Run(run[..n]), run[n];
      RunPrefix(run, n);
      LiveIsReplayed(before);
      NothingEmptyIsStored(before);
      FileIsLog(before);
      assert QuietEvent(s, ev) && TameEvent(s, ev) && CleanEvent(s, LogOf(before), ev);
      match ev {
        case Request(i, v, e) => RequestExact(s, i, v, e, LogOf(before));
        case SweepAll(now) => SweepExact(s, now, Entries(LogOf(before)));
        case Restart(_, _) => RestartExact(s, LogOf(before), ev);
        case Crash(keep, _, _) =>
          var m := CrashIsEarlier(before, Left(s.file, keep));
          RunPrefix(before, m);
          LiveIsReplayed(before[..m]);
          CrashExact(s, LogOf(before), ev, Run(before[..m]).dbs);
      }
    }
  }

  /**
   Recovery is exact: after any run of requests, sweeps, restarts and clean crashes over the sixteen databases in
   which no event evicts anything stored and SPOP has no choice to make, reading the bytes of the log and
   replaying them into a fresh MultiDB rebuilds the strings, lists, sets and hashes of every database.
   */
  lemma RecoveryIsExact(run: seq<Event>)
    requires ValidRun(run) && QuietRun(run) && TameRun(run) && CleanRun(run)
    ensures Exact(run)
  {
    LiveIsReplayed(run);
    FileReadsBack(run);
  }

  // ------------------------------------------------------------------ torn files

  /**
   Torn-log recovery: however many bytes of the log survive, the reader hands over exactly the commands wholly
   inside them, its error only says that the file ended, and the recovered state is the live state after some
   prefix of the run.
   */
  lemma TornRecovery(run: seq<Event>, n: nat, now: int, picks: Picks) returns (k: nat, m: nat)
    requires ValidRun(run) && QuietRun(run) && TameRun(run) && CleanRun(run) && n <= |Run(run).file|
    ensures WhollyInside(-1, LogOf(run), n, k)
    ensures m <= |run| && Entries(LogOf(run[..m])) == Entries(LogOf(run)[..k])
    ensures Truncated(ReadLog(Run(run).file[..n], 0).end)
    ensures Recover(Run(run).file[..n], now, picks) == AllData(Run(run[..m]).dbs)
  {
    FileIsLog(run);
    k := ReadTorn(-1, LogOf(run), 0, n);
    m := LogPrefix(run, k);
    RunPrefix(run, m);
    LiveIsReplayed(run[..m]);
  }
}
