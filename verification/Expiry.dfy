/**
 Lazy expiry agrees with eager expiry. A key past its deadline stays in the maps until a command touches it or
 a sweep finds it, yet no per-key command can tell when that happened, with one exception: SET and MSET.
 */
module Expiry {
  import opened Wrappers
  import opened GoText
  import opened Containers
  import opened Keyspace
  import opened Commands
  import opened Effects

  /** The same slot, as far as a command that evicts first can see. */
  predicate AlikeSlots(s: Slot, t: Slot, now: int) {
    Evict(s, now) == Evict(t, now)
  }

  /** Equal once everything past its deadline is hidden. */
  ghost predicate Alike(x: DB, y: DB, now: int) {
    forall k :: AlikeSlots(At(x, k), At(y, k), now)
  }

  // ------------------------------------------------------------------ one slot

  predicate SameOutcome(p: (Slot, Reply), q: (Slot, Reply), now: int) {
    p.1 == q.1 && AlikeSlots(p.0, q.0, now)
  }

  lemma StringAlike(op: StringOp, a: seq<Bytes>, s: Slot, t: Slot, e: Env)
    requires |a| > 0 && op != SET && AlikeSlots(s, t, e.now)
    ensures SameOutcome(DoString(op, a, s, e), DoString(op, a, t, e), e.now)
  {
  }

  lemma ListAlike(op: ListOp, a: seq<Bytes>, s: Slot, t: Slot, e: Env)
    requires |a| > 0 && AlikeSlots(s, t, e.now)
    ensures SameOutcome(DoList(op, a, s, e), DoList(op, a, t, e), e.now)
  {
  }

  lemma SetAlike(op: SetOp, a: seq<Bytes>, s: Slot, t: Slot, e: Env)
    requires |a| > 0 && AlikeSlots(s, t, e.now)
    ensures SameOutcome(DoSet(op, a, s, e), DoSet(op, a, t, e), e.now)
  {
  }

  lemma HashAlike(op: HashOp, a: seq<Bytes>, s: Slot, t: Slot, e: Env)
    requires |a| > 0 && AlikeSlots(s, t, e.now)
    ensures SameOutcome(DoHash(op, a, s, e), DoHash(op, a, t, e), e.now)
  {
  }

  lemma DeadlineAlike(op: DeadlineOp, a: seq<Bytes>, s: Slot, t: Slot, e: Env)
    requires |a| > 0 && AlikeSlots(s, t, e.now)
    ensures SameOutcome(DoDeadline(op, a, s, e), DoDeadline(op, a, t, e), e.now)
  {
  }

  /** SET does not evict: it clears the deadline of whatever else is still stored under the key. */
  predicate Resurrects(s: Slot, now: int) {
    Expired(s, now) && (s.list.Some? || s.members.Some? || s.fields.Some?)
  }

  function Stored(s: Slot, value: Bytes): Slot {
    s.(text := Some(value), deadline := None)
  }

  lemma StoredAlike(s: Slot, t: Slot, value: Bytes, now: int)
    requires AlikeSlots(s, t, now) && !Resurrects(s, now) && !Resurrects(t, now)
    ensures Stored(s, value) == Stored(t, value)
  {
  }

  /** What a caller must avoid: storing a string over an expired list, set or hash. */
  ghost predicate StoresSafely(c: Cmd, a: seq<Bytes>, db: DB, now: int) {
    && (c == OnString(SET) && |a| == 2 ==> !Resurrects(At(db, a[0]), now))
    && (c == OnKeys(MSET) && |a| >= 2 && |a| % 2 == 0 ==> PairsSafe(a, db, now))
  }

  ghost predicate PairsSafe(args: seq<Bytes>, db: DB, now: int) {
    forall i :: 0 <= i < |args| && i % 2 == 0 ==> !Resurrects(At(db, args[i]), now)
  }

  lemma OnKeyAlike(c: Cmd, a: seq<Bytes>, s: Slot, t: Slot, e: Env)
    requires |a| > 0 && SingleKey(c) && AlikeSlots(s, t, e.now)
    requires c == OnString(SET) && |a| == 2 ==> !Resurrects(s, e.now) && !Resurrects(t, e.now)
    ensures SameOutcome(OnKey(c, a, s, e), OnKey(c, a, t, e), e.now)
  {
    match c {
      case OnString(op) =>
        if op != SET {
          StringAlike(op, a, s, t, e);
        } else if |a| == 2 {
          StoredAlike(s, t, a[1], e.now);
        }
      case OnList(op) => ListAlike(op, a, s, t, e);
      case OnSet(op) => SetAlike(op, a, s, t, e);
      case OnHash(op) => HashAlike(op, a, s, t, e);
      case OnDeadline(op) => DeadlineAlike(op, a, s, t, e);
    }
  }

  // -------------------------------------------------------------- one database

  lemma AlikeWith(x: DB, y: DB, key: Bytes, s: Slot, t: Slot, now: int)
    requires Alike(x, y, now) && AlikeSlots(s, t, now)
    ensures Alike(With(x, key, s), With(y, key, t), now)
  {
    forall k
      ensures AlikeSlots(At(With(x, key, s), k), At(With(y, key, t), k), now)
    {
      AtWith(x, key, s, k);
      AtWith(y, key, t, k);
      assert AlikeSlots(At(x, k), At(y, k), now);
    }
  }

  lemma AlikeAt(x: DB, y: DB, key: Bytes, now: int)
    requires Alike(x, y, now)
    ensures AlikeSlots(At(x, key), At(y, key), now)
  {
  }

  lemma AlikeEvictKey(x: DB, y: DB, key: Bytes, now: int)
    requires Alike(x, y, now)
    ensures Alike(EvictKey(x, key, now), EvictKey(y, key, now), now)
  {
    AlikeAt(x, y, key, now);
    AlikeWith(x, y, key, Evict(At(x, key), now), Evict(At(y, key), now), now);
  }

  lemma {:induction false} DeleteAlike(keys: seq<Bytes>, x: DB, y: DB, now: int)
    requires Alike(x, y, now)
    ensures DeleteKeys(keys, x, now).1 == DeleteKeys(keys, y, now).1
    ensures Alike(DeleteKeys(keys, x, now).0, DeleteKeys(keys, y, now).0, now)
    decreases keys
  {
    if keys != [] {
      AlikeAt(x, y, keys[0], now);
      AlikeWith(x, y, keys[0], VACANT, VACANT, now);
      DeleteAlike(keys[1..], With(x, keys[0], VACANT), With(y, keys[0], VACANT), now);
    }
  }

  lemma {:induction false} CountAlike(keys: seq<Bytes>, x: DB, y: DB, now: int)
    requires Alike(x, y, now)
    ensures CountExisting(keys, x, now).1 == CountExisting(keys, y, now).1
    ensures Alike(CountExisting(keys, x, now).0, CountExisting(keys, y, now).0, now)
    decreases keys
  {
    if keys != [] {
      AlikeAt(x, y, keys[0], now);
      AlikeEvictKey(x, y, keys[0], now);
      CountAlike(keys[1..], EvictKey(x, keys[0], now), EvictKey(y, keys[0], now), now);
    }
  }

  lemma {:induction false} EvictAllAt(keys: seq<Bytes>, db: DB, now: int, k: Bytes)
    ensures At(EvictAll(keys, db, now), k) == if k in keys then Evict(At(db, k), now) else At(db, k)
    decreases keys
  {
    if keys != [] {
      AtWith(db, keys[0], Evict(At(db, keys[0]), now), k);
      EvictAllAt(keys[1..], EvictKey(db, keys[0], now), now, k);
    }
  }

  lemma MgetAlike(keys: seq<Bytes>, x: DB, y: DB, now: int)
    requires Alike(x, y, now)
    ensures Texts(keys, EvictAll(keys, x, now)) == Texts(keys, EvictAll(keys, y, now))
    ensures Alike(EvictAll(keys, x, now), EvictAll(keys, y, now), now)
  {
    var x', y' := EvictAll(keys, x, now), EvictAll(keys, y, now);
    forall k
      ensures AlikeSlots(At(x', k), At(y', k), now)
      ensures k in keys ==> At(x', k) == At(y', k)
    {
      EvictAllAt(keys, x, now, k);
      EvictAllAt(keys, y, now, k);
      AlikeAt(x, y, k, now);
    }
    forall i | 0 <= i < |keys|
      ensures Texts(keys, x')[i] == Texts(keys, y')[i]
    {
      assert keys[i] in keys;
      assert At(x', keys[i]).text == At(y', keys[i]).text;
    }
  }

  lemma PairsSafeStep(args: seq<Bytes>, db: DB, now: int)
    requires |args| >= 2 && PairsSafe(args, db, now)
    ensures PairsSafe(args[2..], With(db, args[0], Stored(At(db, args[0]), args[1])), now)
  {
    var s := Stored(At(db, args[0]), args[1]);
    forall i | 0 <= i < |args[2..]| && i % 2 == 0
      ensures !Resurrects(At(With(db, args[0], s), args[2..][i]), now)
    {
      AtWith(db, args[0], s, args[2..][i]);
      assert !Resurrects(At(db, args[i + 2]), now);
    }
  }

  lemma {:induction false} MsetAlike(args: seq<Bytes>, x: DB, y: DB, now: int)
    requires Alike(x, y, now) && PairsSafe(args, x, now) && PairsSafe(args, y, now)
    ensures Alike(StorePairs(args, x), StorePairs(args, y), now)
    decreases args
  {
    if |args| >= 2 {
      var s, t := At(x, args[0]), At(y, args[0]);
      AlikeAt(x, y, args[0], now);
      StoredAlike(s, t, args[1], now);
      AlikeWith(x, y, args[0], Stored(s, args[1]), Stored(t, args[1]), now);
      PairsSafeStep(args, x, now);
      PairsSafeStep(args, y, now);
      MsetAlike(args[2..], With(x, args[0], Stored(s, args[1])), With(y, args[0], Stored(t, args[1])), now);
    }
  }

  lemma {:induction false} ScanAlike(keys: seq<Bytes>, x: DB, y: DB, left: bool, now: int)
    requires Alike(x, y, now)
    ensures ScanPop(keys, x, left, now).1 == ScanPop(keys, y, left, now).1
    ensures Alike(ScanPop(keys, x, left, now).0, ScanPop(keys, y, left, now).0, now)
    decreases keys
  {
    if keys != [] {
      AlikeAt(x, y, keys[0], now);
      var (s, v) := PopEnd(Evict(At(x, keys[0]), now), left);
      AlikeWith(x, y, keys[0], s, s, now);
      if v.None? {
        ScanAlike(keys[1..], With(x, keys[0], s), With(y, keys[0], s), left, now);
      }
    }
  }

  lemma {:induction false} GatherAlike(keys: seq<Bytes>, x: DB, y: DB, stop: bool, now: int)
    requires Alike(x, y, now)
    ensures Gather(keys, x, stop, now).1 == Gather(keys, y, stop, now).1
    ensures Gather(keys, x, stop, now).2 == Gather(keys, y, stop, now).2
    ensures Alike(Gather(keys, x, stop, now).0, Gather(keys, y, stop, now).0, now)
    decreases keys
  {
    if keys != [] {
      AlikeAt(x, y, keys[0], now);
      AlikeEvictKey(x, y, keys[0], now);
      GatherAlike(keys[1..], EvictKey(x, keys[0], now), EvictKey(y, keys[0], now), stop, now);
    }
  }

  ghost predicate SameResult(p: (DB, Reply), q: (DB, Reply), now: int) {
    p.1 == q.1 && Alike(p.0, q.0, now)
  }

  lemma KeysAlike(op: KeysOp, a: seq<Bytes>, x: DB, y: DB, e: Env)
    requires Alike(x, y, e.now)
    requires StoresSafely(OnKeys(op), a, x, e.now) && StoresSafely(OnKeys(op), a, y, e.now)
    ensures SameResult(DoKeys(op, a, x, e), DoKeys(op, a, y, e), e.now)
  {
    match op {
      case DEL => DeleteAlike(a, x, y, e.now);
      case EXISTS => CountAlike(a, x, y, e.now);
      case MSET => if |a| >= 2 && |a| % 2 == 0 { MsetAlike(a, x, y, e.now); }
      case MGET => MgetAlike(a, x, y, e.now);
      case BLPOP => if |a| >= 2 { ScanAlike(a[..|a| - 1], x, y, true, e.now); }
      case BRPOP => if |a| >= 2 { ScanAlike(a[..|a| - 1], x, y, false, e.now); }
      case SINTER => GatherAlike(a, x, y, true, e.now);
      case SUNION => GatherAlike(a, x, y, false, e.now);
      case SDIFF => DiffAlike(a, x, y, e);
    }
  }

  lemma DiffAlike(a: seq<Bytes>, x: DB, y: DB, e: Env)
    requires Alike(x, y, e.now)
    ensures SameResult(DoKeys(SDIFF, a, x, e), DoKeys(SDIFF, a, y, e), e.now)
  {
    if a != [] {
      AlikeAt(x, y, a[0], e.now);
      AlikeEvictKey(x, y, a[0], e.now);
      GatherAlike(a[1..], EvictKey(x, a[0], e.now), EvictKey(y, a[0], e.now), false, e.now);
    }
  }

  lemma AtKeyAlike(c: Cmd, a: seq<Bytes>, x: DB, y: DB, e: Env)
    requires SingleKey(c) && Alike(x, y, e.now)
    requires StoresSafely(c, a, x, e.now) && StoresSafely(c, a, y, e.now)
    ensures SameResult(AtKey(c, a, x, e), AtKey(c, a, y, e), e.now)
  {
    if a != [] {
      AlikeAt(x, y, a[0], e.now);
      OnKeyAlike(c, a, At(x, a[0]), At(y, a[0]), e);
      AlikeWith(x, y, a[0], OnKey(c, a, At(x, a[0]), e).0, OnKey(c, a, At(y, a[0]), e).0, e.now);
    }
  }

  /**
   Two databases that are equal once expired keys are hidden give equal replies to every per-key command and
   stay equal in that sense, unless the command stores a string over an expired list, set or hash.
   */
  lemma CommandsCannotTell(c: Cmd, a: seq<Bytes>, x: DB, y: DB, e: Env)
    requires !c.OnKeyspace? && Alike(x, y, e.now)
    requires StoresSafely(c, a, x, e.now) && StoresSafely(c, a, y, e.now)
    ensures SameResult(Exec(c, a, x, e), Exec(c, a, y, e), e.now)
  {
    match c {
      case OnKeys(op) => KeysAlike(op, a, x, y, e);
      case OnServer(_) =>
      case _ => AtKeyAlike(c, a, x, y, e);
    }
  }

  /** Time only hides more. */
  lemma AlikeLater(x: DB, y: DB, now: int, later: int)
    requires Alike(x, y, now) && now <= later
    ensures Alike(x, y, later)
  {
    forall k
      ensures AlikeSlots(At(x, k), At(y, k), later)
    {
      assert AlikeSlots(At(x, k), At(y, k), now);
    }
  }

  lemma SweepInvisible(x: DB, y: DB, now: int)
    requires Alike(x, y, now)
    ensures Alike(Sweep(x, now), y, now) && Alike(x, Sweep(y, now), now)
  {
    forall k
      ensures AlikeSlots(At(Sweep(x, now), k), At(y, k), now)
      ensures AlikeSlots(At(x, k), At(Sweep(y, now), k), now)
    {
      AtSweep(x, now, k);
      AtSweep(y, now, k);
      assert AlikeSlots(At(x, k), At(y, k), now);
    }
  }

  // ---------------------------------------------------------------------- runs

  /** A schedule for two databases: both get every command, each is swept whenever it likes. */
  datatype Move =
    | Both(c: Cmd, a: seq<Bytes>, e: Env)
    | SweepFirst(now: int)
    | SweepSecond(now: int)

  function TimeOf(m: Move): int {
    match m
    case Both(_, _, e) => e.now
    case SweepFirst(now) => now
    case SweepSecond(now) => now
  }

  ghost function Played(m: Move, db: DB, first: bool): (DB, seq<Reply>) {
    match m
    case Both(c, a, e) => var (db', r) := Exec(c, a, db, e); (db', [r])
    case SweepFirst(now) => (if first then Sweep(db, now) else db, [])
    case SweepSecond(now) => (if first then db else Sweep(db, now), [])
  }

  ghost function Replies(moves: seq<Move>, db: DB, first: bool): seq<Reply>
    decreases moves
  {
    if moves == [] then []
    else var (db', r) := Played(moves[0], db, first); r + Replies(moves[1..], db', first)
  }

  ghost predicate Safe(moves: seq<Move>, db: DB, first: bool)
    decreases moves
  {
    moves != [] ==>
    && (moves[0].Both? ==> !moves[0].c.OnKeyspace? && StoresSafely(moves[0].c, moves[0].a, db, moves[0].e.now))
    && Safe(moves[1..], Played(moves[0], db, first).0, first)
  }

  predicate InOrder(moves: seq<Move>, clock: int) {
    moves == [] || (clock <= TimeOf(moves[0]) && InOrder(moves[1..], TimeOf(moves[0])))
  }

  lemma OneMove(m: Move, x: DB, y: DB, clock: int)
    requires Alike(x, y, clock) && clock <= TimeOf(m)
    requires m.Both? ==> !m.c.OnKeyspace? && StoresSafely(m.c, m.a, x, m.e.now) && StoresSafely(m.c, m.a, y, m.e.now)
    ensures Alike(Played(m, x, true).0, Played(m, y, false).0, TimeOf(m))
    ensures Played(m, x, true).1 == Played(m, y, false).1
  {
    AlikeLater(x, y, clock, TimeOf(m));
    match m {
      case Both(c, a, e) => CommandsCannotTell(c, a, x, y, e);
      case SweepFirst(now) => SweepInvisible(x, y, now);
      case SweepSecond(now) => SweepInvisible(x, y, now);
    }
  }

  /**
   Over whole runs, as the clock advances: wherever sweeps fall on either side, two databases given the same
   commands give the same replies.
   */
  lemma {:induction false} SweepsAreInvisible(moves: seq<Move>, x: DB, y: DB, clock: int)
    requires Alike(x, y, clock) && InOrder(moves, clock)
    requires Safe(moves, x, true) && Safe(moves, y, false)
    ensures Replies(moves, x, true) == Replies(moves, y, false)
    decreases moves
  {
    if moves != [] {
      var m := moves[0];
      OneMove(m, x, y, clock);
      SweepsAreInvisible(moves[1..], Played(m, x, true).0, Played(m, y, false).0, TimeOf(m));
    }
  }

  // --------------------------------------------------- lazy against eager, exactly

  /** Every key whose deadline has been reached, as lazy eviction judges it. */
  function Due(db: DB, now: int): set<Bytes> {
    set k | k in db.expires && db.expires[k] <= now
  }

  /** The database as it would be if every key had been evicted the moment its deadline was reached. */
  function Purged(db: DB, now: int): DB {
    WithoutKeys(db, Due(db, now))
  }

  lemma AtPurged(db: DB, now: int, k: Bytes)
    ensures At(Purged(db, now), k) == Evict(At(db, k), now)
  {
  }

  lemma PurgedIsAlike(db: DB, now: int)
    ensures Alike(db, Purged(db, now), now)
  {
    forall k
      ensures AlikeSlots(At(db, k), At(Purged(db, now), k), now)
    {
      AtPurged(db, now, k);
    }
  }

  lemma PurgedIsSafe(c: Cmd, a: seq<Bytes>, db: DB, now: int)
    ensures StoresSafely(c, a, Purged(db, now), now)
  {
    forall k
      ensures !Resurrects(At(Purged(db, now), k), now)
    {
      AtPurged(db, now, k);
    }
    hide Resurrects, At, Purged;
  }

  /** The keys MSET stores under. */
  ghost predicate PairKey(args: seq<Bytes>, k: Bytes) {
    exists i :: 0 <= i < |args| - 1 && i % 2 == 0 && args[i] == k
  }

  lemma PairKeyStep(args: seq<Bytes>, k: Bytes)
    requires |args| >= 2
    ensures PairKey(args, k) <==> args[0] == k || PairKey(args[2..], k)
  {
    var rest := args[2..];
    if i :| 0 <= i < |rest| - 1 && i % 2 == 0 && rest[i] == k {
      assert args[i + 2] == k && (i + 2) % 2 == 0;
    }
    if i :| 2 <= i < |args| - 1 && i % 2 == 0 && args[i] == k {
      assert rest[i - 2] == k && (i - 2) % 2 == 0;
    }
  }

  /** MSET leaves lists, sets and hashes alone, and clears the deadlines of the keys it stores under. */
  lemma {:induction false} StorePairsAt(args: seq<Bytes>, db: DB, k: Bytes)
    ensures var s, s' := At(db, k), At(StorePairs(args, db), k);
            && s'.list == s.list && s'.members == s.members && s'.fields == s.fields
            && s'.deadline == if PairKey(args, k) then None else s.deadline
    decreases args
  {
    if |args| >= 2 {
      var next := With(db, args[0], Stored(At(db, args[0]), args[1]));
      PairKeyStep(args, k);
      AtWith(db, args[0], Stored(At(db, args[0]), args[1]), k);
      hide PairKey, At, With;
      StorePairsAt(args[2..], next, k);
    }
  }

  /** Brought back on the lazy side, gone on the eager side. */
  lemma BroughtBack(x: Slot, y: Slot, was: Slot, now: int)
    requires Resurrects(was, now) && x.deadline.None?
    requires x.list == was.list && x.members == was.members && x.fields == was.fields
    requires y.list.None? && y.members.None? && y.fields.None?
    ensures !AlikeSlots(x, y, now)
  {
  }

  lemma SetUnsafe(a: seq<Bytes>, db: DB, e: Env)
    requires |a| == 2 && Resurrects(At(db, a[0]), e.now)
    ensures !SameResult(Exec(OnString(SET), a, db, e), Exec(OnString(SET), a, Purged(db, e.now), e), e.now)
  {
    var key, s, p := a[0], At(db, a[0]), Purged(db, e.now);
    AtPurged(db, e.now, key);
    AtWith(db, key, Stored(s, a[1]), key);
    AtWith(p, key, Stored(At(p, key), a[1]), key);
    BroughtBack(Stored(s, a[1]), Stored(At(p, key), a[1]), s, e.now);
    AlikeFails(With(db, key, Stored(s, a[1])), With(p, key, Stored(At(p, key), a[1])), key, e.now);
  }

  lemma AlikeFails(x: DB, y: DB, k: Bytes, now: int)
    requires !AlikeSlots(At(x, k), At(y, k), now)
    ensures !Alike(x, y, now)
  {
  }

  lemma MsetUnsafe(a: seq<Bytes>, db: DB, e: Env)
    requires |a| >= 2 && |a| % 2 == 0 && !PairsSafe(a, db, e.now)
    ensures !SameResult(Exec(OnKeys(MSET), a, db, e), Exec(OnKeys(MSET), a, Purged(db, e.now), e), e.now)
  {
    var i :| 0 <= i < |a| && i % 2 == 0 && Resurrects(At(db, a[i]), e.now);
    var k, p := a[i], Purged(db, e.now);
    assert PairKey(a, k);
    StorePairsAt(a, db, k);
    StorePairsAt(a, p, k);
    AtPurged(db, e.now, k);
    BroughtBack(At(StorePairs(a, db), k), At(StorePairs(a, p), k), At(db, k), e.now);
    AlikeFails(StorePairs(a, db), StorePairs(a, p), k, e.now);
    hide StorePairs, Alike, At, Purged;
  }

  /**
   The exact condition, for every per-key command and every database: keeping expired keys until they are touched
   makes no difference, in the reply or in what is left, against having evicted them all, if and only if the
   command is no SET or MSET that stores a string over an expired list, set or hash.
   */
  lemma LazyIsEagerIff(c: Cmd, a: seq<Bytes>, db: DB, e: Env)
    requires !c.OnKeyspace?
    ensures SameResult(Exec(c, a, db, e), Exec(c, a, Purged(db, e.now), e), e.now) <==> StoresSafely(c, a, db, e.now)
  {
    if StoresSafely(c, a, db, e.now) {
      PurgedIsAlike(db, e.now);
      PurgedIsSafe(c, a, db, e.now);
      CommandsCannotTell(c, a, db, Purged(db, e.now), e);
    } else if c == OnString(SET) {
      SetUnsafe(a, db, e);
    } else {
      MsetUnsafe(a, db, e);
    }
  }

  // ------------------------------------------------------- the whole-keyspace count

  ghost predicate NothingAtDeadline(db: DB, now: int) {
    forall k :: k in db.expires && db.expires[k] == now ==> !Exists(At(db, k))
  }

  lemma DropMoreKeys<V>(m: map<Bytes, V>, some: set<Bytes>, more: set<Bytes>)
    requires some <= more
    ensures |m - more| <= |m - some|
    ensures |m - more| == |m - some| <==> m.Keys !! (more - some)
  {
    var kept := (m - some).Keys;
    var lost := m.Keys * (more - some);
    assert (m - more).Keys == kept - lost;
    assert |kept - lost| == |kept| - |lost|;
    assert |(m - more).Keys| == |m - more| && |kept| == |m - some|;
    if lost == {} {
      assert m.Keys !! (more - some);
    }
  }

  lemma SweepAfterPurge(db: DB, now: int)
    ensures Sweep(Purged(db, now), now) == Purged(db, now)
  {
    assert Overdue(Purged(db, now), now) == {};
  }

  /** None of the four maps holds a key of `keys`. */
  predicate HoldsNone(db: DB, keys: set<Bytes>) {
    db.store.Keys !! keys && db.lists.Keys !! keys && db.sets.Keys !! keys && db.hashes.Keys !! keys
  }

  lemma SizesAgreeIff(db: DB, now: int)
    ensures TotalKeys(Sweep(db, now)) == TotalKeys(Purged(db, now)) <==> HoldsNone(db, Due(db, now) - Overdue(db, now))
  {
    var strict, due := Overdue(db, now), Due(db, now);
    DropMoreKeys(db.store, strict, due);
    DropMoreKeys(db.lists, strict, due);
    DropMoreKeys(db.sets, strict, due);
    DropMoreKeys(db.hashes, strict, due);
  }

  lemma HoldsNoneIff(db: DB, now: int)
    ensures HoldsNone(db, Due(db, now) - Overdue(db, now)) <==> NothingAtDeadline(db, now)
  {
    var instant := Due(db, now) - Overdue(db, now);
    assert forall k :: k in instant <==> k in db.expires && db.expires[k] == now;
    if HoldsNone(db, instant) {
      forall k | k in instant
        ensures !Exists(At(db, k))
      {
        assert k !in db.store.Keys && k !in db.lists.Keys && k !in db.sets.Keys && k !in db.hashes.Keys;
      }
    } else {
      var k :| k in instant && (k in db.store || k in db.lists || k in db.sets || k in db.hashes);
      assert Exists(At(db, k));
    }
  }

  /**
   DBSIZE sweeps with a strict comparison, so it counts a key whose deadline is this very instant; on the
   eagerly purged database it does not. The replies agree if and only if no stored key is at its deadline.
   */
  lemma DbsizeAgreesIff(db: DB, e: Env)
    ensures DoKeyspace(DBSIZE, [], db, e).1 == DoKeyspace(DBSIZE, [], Purged(db, e.now), e).1
            <==> NothingAtDeadline(db, e.now)
  {
    SweepAfterPurge(db, e.now);
    SizesAgreeIff(db, e.now);
    HoldsNoneIff(db, e.now);
  }
}
