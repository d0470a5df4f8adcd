/**
 Replay of one logged command, and its agreement with the handler that ran when the command was logged.

 `ReplayKey` and `Replay` follow `replayCommand`, which re-implements every mutating command: it checks
 argument counts differently, converts integers with the hand-written parser, and evicts in other places.
 */
module Replay {
  import opened Wrappers
  import opened GoText
  import opened Containers
  import opened Keyspace
  import opened Commands
  import opened Effects

  // ------------------------------------------------------------- replayCommand

  function ReplayIncrement(s: Slot, amount: int64): Slot {
    match LooseInt(s.text.GetOr("0"))
    case None => s
    case Some(n) => s.(text := Some(Itoa(Wrap(n + amount))))
  }

  function ReplayIncrementBy(a: seq<Bytes>, negate: bool, s: Slot): Slot {
    if |a| < 2 || LooseInt(a[1]).None? then s
    else
      var n: int := LooseInt(a[1]).value;
      ReplayIncrement(s, if negate then Wrap(0 - n) else n)
  }

  function ReplayString(op: StringOp, a: seq<Bytes>, s: Slot): Slot
    requires |a| > 0
  {
    match op
    case SET => if |a| >= 2 then s.(text := Some(a[1]), deadline := None) else s
    case INCR => ReplayIncrement(s, 1)
    case DECR => ReplayIncrement(s, -1)
    case INCRBY => ReplayIncrementBy(a, false, s)
    case DECRBY => ReplayIncrementBy(a, true, s)
    case _ => s
  }

  /** The pushes, LSET and LREM; the pops are replayed by a scan of their own. */
  function ReplayList(op: ListOp, a: seq<Bytes>, slot: Slot, now: int): Slot
    requires |a| > 0
  {
    var s := Evict(slot, now);
    match op
    case LPUSH => if |a| >= 2 then s.(list := Some(LPushed(s.list.GetOr([]), a[1..]))) else slot
    case RPUSH => if |a| >= 2 then s.(list := Some(s.list.GetOr([]) + a[1..])) else slot
    case LSET =>
      if |a| < 3 then slot
      else if s.list.None? || LooseInt(a[1]).None? then s
      else
        var p := Position(LooseInt(a[1]).value, |s.list.value|);
        if 0 <= p < |s.list.value| then s.(list := Some(s.list.value[p := a[2]])) else s
    case LREM =>
      if |a| < 3 then slot
      else if s.list.None? || LooseInt(a[1]).None? then s
      else s.(list := ListOrNone(Remaining(s.list.value, LooseInt(a[1]).value, a[2])))
    case _ => slot
  }

  ghost function ReplaySet(op: SetOp, a: seq<Bytes>, slot: Slot, now: int, pick: Bytes): Slot
    requires |a| > 0
  {
    var s := Evict(slot, now);
    match op
    case SADD => if |a| >= 2 then s.(members := Some(s.members.GetOr({}) + Elements(a[1..]))) else slot
    case SREM =>
      if |a| < 2 then slot
      else if s.members.None? then s
      else s.(members := SetOrNone(s.members.value - Elements(a[1..])))
    case SPOP =>
      if s.members.None? then s
      else if s.members.value == {} then s.(members := None)
      else s.(members := SetOrNone(s.members.value - {Picked(s.members.value, pick)}))
    case _ => slot
  }

  function ReplayHash(op: HashOp, a: seq<Bytes>, slot: Slot, now: int): Slot
    requires |a| > 0
  {
    var s := Evict(slot, now);
    var fields := s.fields.GetOr(map[]);
    match op
    case HSET => if |a| >= 3 then s.(fields := Some(fields[a[1] := a[2]])) else slot
    case HDEL =>
      if |a| < 2 then slot
      else if s.fields.None? then s
      else s.(fields := HashOrNone(fields - Elements(a[1..])))
    case HMSET =>
      if |a| >= 3 && |a| % 2 == 1 then s.(fields := Some(fields + Pairs(a[1..]))) else slot
    case HINCRBY =>
      if |a| < 3 || LooseInt(a[2]).None? then slot
      else BumpField(s, a[1], LooseInt(a[2]).value).0
    case _ => slot
  }

  ghost function ReplayKey(c: Cmd, a: seq<Bytes>, s: Slot, now: int, pick: Bytes): Slot
    requires |a| > 0
  {
    match c
    case OnString(op) => ReplayString(op, a, s)
    case OnList(op) => ReplayList(op, a, s, now)
    case OnSet(op) => ReplaySet(op, a, s, now, pick)
    case OnHash(op) => ReplayHash(op, a, s, now)
    case _ => s
  }

  /** `replayListPop`: pop from the first key that has something; the popped value itself was not logged. */
  function ReplayPop(keys: seq<Bytes>, db: DB, left: bool, now: int): DB {
    ScanPop(keys, db, left, now).0
  }

  function ReplayKeys(op: KeysOp, a: seq<Bytes>, db: DB, now: int): DB {
    match op
    case DEL => DeleteKeys(a, db, now).0
    case MSET => if |a| >= 2 && |a| % 2 == 0 then StorePairs(a, db) else db
    case BLPOP => if |a| >= 2 then ReplayPop(a[..|a| - 1], db, true, now) else db
    case BRPOP => if |a| >= 2 then ReplayPop(a[..|a| - 1], db, false, now) else db
    case _ => db
  }

  ghost function Replay(c: Cmd, a: seq<Bytes>, db: DB, now: int, pick: Bytes): DB {
    match c
    case OnKeys(op) => ReplayKeys(op, a, db, now)
    case OnList(LPOP) => ReplayPop(a, db, true, now)
    case OnList(RPOP) => ReplayPop(a, db, false, now)
    case _ => if a == [] then db else With(db, a[0], ReplayKey(c, a, At(db, a[0]), now, pick))
  }

  // -------------------------------------------------- agreement on one slot

  /** Both picks lead SPOP to the same member. */
  ghost predicate SamePick(s: Slot, pick: Bytes, pick': Bytes) {
    s.members.Some? && s.members.value != {} ==>
      Picked(s.members.value, pick) == Picked(s.members.value, pick')
  }

  /**
   The handler succeeded with `after` and evicted nothing stored; replaying on the data of the slot it started
   from gives its data.
   */
  ghost predicate Mirrors(looked: bool, before: Slot, after: (Slot, Reply), replayed: Slot, now: int) {
    !after.1.Fail? && (looked ==> QuietSlot(before, now)) && Filled(before) ==> replayed == Payload(after.0)
  }

  lemma IncrementMirrors(s: Slot, amount: int64, e: Env)
    ensures Mirrors(true, s, Increment(s, amount, e), ReplayIncrement(Payload(s), amount), e.now)
  {
    ParseIntAgreesWithAtoi(Evict(s, e.now).text.GetOr("0"));
  }

  lemma IncrementByMirrors(a: seq<Bytes>, negate: bool, s: Slot, e: Env)
    requires |a| == 2
    ensures Mirrors(IsInteger(a, 1), s, IncrementBy(s, a, negate, e), ReplayIncrementBy(a, negate, Payload(s)), e.now)
  {
    ParseIntAgreesWithAtoi(a[1]);
    hide Increment, ReplayIncrement, Atoi, LooseInt, Wrap;
    if Atoi(a[1]).Some? {
      var n: int := Atoi(a[1]).value;
      IncrementMirrors(s, if negate then Wrap(0 - n) else n, e);
    }
  }

  lemma StringMirrors(op: StringOp, a: seq<Bytes>, s: Slot, e: Env)
    requires |a| > 0 && Persisted(OnString(op))
    ensures Mirrors(StringLooksUp(op, a), s, DoString(op, a, s, e), ReplayString(op, a, Payload(s)), e.now)
  {
    match op {
      case SET =>
      case INCR => IncrementMirrors(s, 1, e);
      case DECR => IncrementMirrors(s, -1, e);
      case INCRBY => if |a| == 2 { IncrementByMirrors(a, false, s, e); }
      case DECRBY => if |a| == 2 { IncrementByMirrors(a, true, s, e); }
    }
  }

  lemma ListMirrors(op: ListOp, a: seq<Bytes>, s: Slot, e: Env, now: int)
    requires |a| > 0 && (op.LPUSH? || op.RPUSH? || op.LSET? || op.LREM?)
    ensures Mirrors(ListLooksUp(op, a), s, DoList(op, a, s, e), ReplayList(op, a, Payload(s), now), e.now)
  {
    if |a| >= 2 {
      ParseIntAgreesWithAtoi(a[1]);
    }
  }

  lemma SetMirrors(op: SetOp, a: seq<Bytes>, s: Slot, e: Env, now: int, pick: Bytes)
    requires |a| > 0 && Persisted(OnSet(op))
    requires op == SPOP ==> SamePick(s, e.pick, pick)
    ensures Mirrors(SetLooksUp(op, a), s, DoSet(op, a, s, e), ReplaySet(op, a, Payload(s), now, pick), e.now)
  {
  }

  lemma HashMirrors(op: HashOp, a: seq<Bytes>, s: Slot, e: Env, now: int)
    requires |a| > 0 && Persisted(OnHash(op))
    ensures Mirrors(HashLooksUp(op, a), s, DoHash(op, a, s, e), ReplayHash(op, a, Payload(s), now), e.now)
  {
    if |a| >= 3 {
      ParseIntAgreesWithAtoi(a[2]);
    }
  }

  predicate IsPop(c: Cmd) {
    c == OnList(LPOP) || c == OnList(RPOP)
  }

  lemma KeyMirrors(c: Cmd, a: seq<Bytes>, s: Slot, e: Env, now: int, pick: Bytes)
    requires |a| > 0 && SingleKey(c) && Persisted(c) && !IsPop(c)
    requires c == OnSet(SPOP) ==> SamePick(s, e.pick, pick)
    ensures Mirrors(LooksUp(c, a), s, OnKey(c, a, s, e), ReplayKey(c, a, Payload(s), now, pick), e.now)
  {
    match c {
      case OnString(op) => StringMirrors(op, a, s, e);
      case OnList(op) => ListMirrors(op, a, s, e, now);
      case OnSet(op) => SetMirrors(op, a, s, e, now, pick);
      case OnHash(op) => HashMirrors(op, a, s, e, now);
    }
  }

  // ---------------------------------------------- agreement on one database

  lemma {:induction false} DeleteKeysData(keys: seq<Bytes>, db: DB, now: int, now': int)
    ensures Data(DeleteKeys(keys, db, now).0) == DeleteKeys(keys, Data(db), now').0
    decreases keys
  {
    if keys != [] {
      DataWith(db, keys[0], VACANT);
      DeleteKeysData(keys[1..], With(db, keys[0], VACANT), now, now');
    }
  }

  lemma {:induction false} StorePairsData(args: seq<Bytes>, db: DB)
    ensures Data(StorePairs(args, db)) == StorePairs(args, Data(db))
    decreases args
  {
    if |args| >= 2 {
      var s := At(db, args[0]).(text := Some(args[1]), deadline := None);
      AtData(db, args[0]);
      DataWith(db, args[0], s);
      StorePairsData(args[2..], With(db, args[0], s));
    }
  }

  lemma QuietTail(keys: seq<Bytes>, db: DB, rest: set<Bytes>, now: int)
    requires keys != [] && QuietAt(db, {keys[0]} + rest, now)
    ensures QuietSlot(At(db, keys[0]), now)
    ensures QuietAt(EvictKey(db, keys[0], now), rest, now)
  {
    EvictKeyEvicts(db, keys[0], now);
    assert QuietSlot(At(db, keys[0]), now);
  }

  lemma {:induction false} ScanPopData(keys: seq<Bytes>, db: DB, left: bool, now: int, now': int)
    requires QuietAt(db, Scanned(keys, db, left, now), now)
    ensures Data(ScanPop(keys, db, left, now).0) == ScanPop(keys, Data(db), left, now').0
    ensures ScanPop(keys, db, left, now).1 == ScanPop(keys, Data(db), left, now').1
    decreases keys
  {
    if keys != [] {
      var s := At(db, keys[0]);
      var (s', v) := PopEnd(Evict(s, now), left);
      assert QuietSlot(s, now);
      AtData(db, keys[0]);
      assert PopEnd(Payload(s), left) == (Payload(s'), v);
      DataWith(db, keys[0], s');
      if v.None? {
        assert With(db, keys[0], s') == EvictKey(db, keys[0], now);
        QuietTail(keys, db, Scanned(keys[1..], EvictKey(db, keys[0], now), left, now), now);
        ScanPopData(keys[1..], EvictKey(db, keys[0], now), left, now, now');
      }
    }
  }

  /** LPOP and RPOP scan the one key they were given. */
  lemma PopIsScan(key: Bytes, db: DB, left: bool, e: Env)
    ensures AtKey(OnList(if left then LPOP else RPOP), [key], db, e).0 == ReplayPop([key], db, left, e.now)
  {
    var (s, v) := PopEnd(Evict(At(db, key), e.now), left);
    assert ScanPop([key][1..], With(db, key, s), left, e.now).0 == With(db, key, s);
  }

  /** SPOP makes the same choice live and on replay. */
  ghost predicate PickAgrees(c: Cmd, a: seq<Bytes>, db: DB, pick: Bytes, pick': Bytes) {
    c == OnSet(SPOP) && a != [] ==> SamePick(At(db, a[0]), pick, pick')
  }

  ghost predicate Replays(after: (DB, Reply), replayed: DB) {
    !after.1.Fail? ==> replayed == Data(after.0)
  }

  lemma MirrorLifts(key: Bytes, db: DB, looked: bool, after: (Slot, Reply), replayed: Slot, now: int)
    requires (looked ==> QuietSlot(At(db, key), now)) && NoEmptyContainer(db)
    requires Mirrors(looked, At(db, key), after, replayed, now)
    ensures Replays((With(db, key, after.0), after.1), With(Data(db), key, replayed))
  {
    assert Filled(At(db, key));
    DataWith(db, key, after.0);
  }

  lemma AtKeyReplays(c: Cmd, a: seq<Bytes>, db: DB, e: Env, now: int, pick: Bytes)
    requires SingleKey(c) && Persisted(c) && !IsPop(c)
    requires QuietAt(db, Looked(c, a, db, e), e.now) && NoEmptyContainer(db)
    requires PickAgrees(c, a, db, e.pick, pick)
    ensures Replays(AtKey(c, a, db, e), Replay(c, a, Data(db), now, pick))
  {
    if a != [] {
      var s := At(db, a[0]);
      assert LooksUp(c, a) ==> a[0] in Looked(c, a, db, e);
      AtData(db, a[0]);
      KeyMirrors(c, a, s, e, now, pick);
      hide OnKey, ReplayKey, LooksUp, Mirrors, NoEmptyContainer, Payload;
      MirrorLifts(a[0], db, LooksUp(c, a), OnKey(c, a, s, e), ReplayKey(c, a, Payload(s), now, pick), e.now);
    }
  }

  lemma PopReplays(a: seq<Bytes>, db: DB, left: bool, e: Env, now: int)
    requires |a| == 1 ==> QuietSlot(At(db, a[0]), e.now)
    ensures Replays(AtKey(OnList(if left then LPOP else RPOP), a, db, e), ReplayPop(a, Data(db), left, now))
  {
    if |a| == 1 {
      assert a == [a[0]];
      PopIsScan(a[0], db, left, e);
      OneScanned(a, db, left, e.now);
      ScanPopData(a, db, left, e.now, now);
    }
  }

  lemma OneScanned(keys: seq<Bytes>, db: DB, left: bool, now: int)
    requires |keys| == 1 && QuietSlot(At(db, keys[0]), now)
    ensures QuietAt(db, Scanned(keys, db, left, now), now)
  {
    assert Scanned(keys[1..], EvictKey(db, keys[0], now), left, now) == {};
  }

  lemma KeysReplay(op: KeysOp, a: seq<Bytes>, db: DB, e: Env, now: int)
    requires Persisted(OnKeys(op)) && QuietAt(db, LookedKeys(op, a, db, e), e.now)
    ensures Replays(DoKeys(op, a, db, e), ReplayKeys(op, a, Data(db), now))
  {
    match op {
      case DEL => DeleteKeysData(a, db, e.now, now);
      case MSET => StorePairsData(a, db);
      case BLPOP => if |a| >= 2 && e.timeoutOk { ScanPopData(a[..|a| - 1], db, true, e.now, now); }
      case BRPOP => if |a| >= 2 && e.timeoutOk { ScanPopData(a[..|a| - 1], db, false, e.now, now); }
    }
  }

  /**
   Whenever a logged command succeeds without evicting anything stored, on a database with nothing empty,
   replaying it on the data of that database gives the data it left, at any later time. SPOP needs the same
   choice again.
   */
  lemma ReplayMatches(c: Cmd, a: seq<Bytes>, db: DB, e: Env, now: int, pick: Bytes)
    requires Persisted(c) && QuietAt(db, Looked(c, a, db, e), e.now) && NoEmptyContainer(db)
    requires PickAgrees(c, a, db, e.pick, pick)
    ensures !Exec(c, a, db, e).1.Fail? ==> Replay(c, a, Data(db), now, pick) == Data(Exec(c, a, db, e).0)
  {
    match c {
      case OnKeys(op) => KeysReplay(op, a, db, e, now);
      case OnList(LPOP) => PopReplays(a, db, true, e, now);
      case OnList(RPOP) => PopReplays(a, db, false, e, now);
      case _ => AtKeyReplays(c, a, db, e, now, pick);
    }
  }

  // ------------------------------------------------------ what replay preserves

  lemma StringReplayFilled(op: StringOp, a: seq<Bytes>, s: Slot)
    requires |a| > 0 && Filled(s)
    ensures Filled(ReplayString(op, a, s))
  {
  }

  lemma ListReplayFilled(op: ListOp, a: seq<Bytes>, s: Slot, now: int)
    requires |a| > 0 && Filled(s)
    ensures Filled(ReplayList(op, a, s, now))
  {
    if op == LPUSH {
      LPushedGrows(Evict(s, now).list.GetOr([]), a[1..]);
    }
  }

  lemma SetReplayFilled(op: SetOp, a: seq<Bytes>, s: Slot, now: int, pick: Bytes)
    requires |a| > 0 && Filled(s)
    ensures Filled(ReplaySet(op, a, s, now, pick))
  {
    if op == SADD && |a| >= 2 {
      assert a[1..][0] in Elements(a[1..]);
    }
  }

  lemma HashReplayFilled(op: HashOp, a: seq<Bytes>, s: Slot, now: int)
    requires |a| > 0 && Filled(s)
    ensures Filled(ReplayHash(op, a, s, now))
  {
    var fields := Evict(s, now).fields.GetOr(map[]);
    if op == HINCRBY && |a| >= 3 && LooseInt(a[2]).Some? {
      BumpFieldEffect(Evict(s, now), a[1], LooseInt(a[2]).value);
    } else if op == HSET && |a| >= 3 {
      assert a[1] in fields[a[1] := a[2]];
    } else if op == HMSET && |a| >= 3 {
      assert a[1..][0] in Pairs(a[1..]);
      assert a[1] in fields + Pairs(a[1..]);
    }
  }

  lemma KeyReplayFilled(c: Cmd, a: seq<Bytes>, s: Slot, now: int, pick: Bytes)
    requires |a| > 0 && Filled(s)
    ensures Filled(ReplayKey(c, a, s, now, pick))
  {
    match c {
      case OnString(op) => StringReplayFilled(op, a, s);
      case OnList(op) => ListReplayFilled(op, a, s, now);
      case OnSet(op) => SetReplayFilled(op, a, s, now, pick);
      case OnHash(op) => HashReplayFilled(op, a, s, now);
      case _ =>
    }
  }

  /** Replaying any command at all, well-formed or not, leaves no empty container. */
  lemma ReplayFilled(c: Cmd, a: seq<Bytes>, db: DB, now: int, pick: Bytes)
    requires NoEmptyContainer(db)
    ensures NoEmptyContainer(Replay(c, a, db, now, pick))
  {
    match c {
      case OnKeys(DEL) => DeleteKeysFilled(a, db, now);
      case OnKeys(MSET) => StorePairsFilled(a, db);
      case OnKeys(BLPOP) => if |a| >= 2 { ScanPopFilled(a[..|a| - 1], db, true, now); }
      case OnKeys(BRPOP) => if |a| >= 2 { ScanPopFilled(a[..|a| - 1], db, false, now); }
      case OnKeys(_) =>
      case OnList(LPOP) => ScanPopFilled(a, db, true, now);
      case OnList(RPOP) => ScanPopFilled(a, db, false, now);
      case _ =>
        if a != [] {
          assert Filled(At(db, a[0]));
          KeyReplayFilled(c, a, At(db, a[0]), now, pick);
          FilledWith(db, a[0], ReplayKey(c, a, At(db, a[0]), now, pick));
        }
    }
  }
}
