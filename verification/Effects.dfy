/**
 What commands do to the four data maps: failed and unlogged commands do nothing to them, and no command
 ever leaves an empty container behind.
 */
module Effects {
  import opened Wrappers
  import opened GoText
  import opened Containers
  import opened Keyspace
  import opened Commands

  // ----------------------------------------------------------- what a handler evicts

  predicate IsInteger(a: seq<Bytes>, i: nat) {
    i < |a| && Atoi(a[i]).Some?
  }

  /** The handler gets as far as looking its key up; before that it refuses bad argument counts and numbers. */
  predicate LooksUp(c: Cmd, a: seq<Bytes>) {
    match c
    case OnString(op) => StringLooksUp(op, a)
    case OnList(op) => ListLooksUp(op, a)
    case OnSet(op) => SetLooksUp(op, a)
    case OnHash(op) => HashLooksUp(op, a)
    case OnDeadline(op) =>
      if op.EXPIRE? || op.PEXPIRE? then |a| == 2 && IsInteger(a, 1) else |a| == 1
    case _ => false
  }

  /** SET stores without looking. */
  predicate StringLooksUp(op: StringOp, a: seq<Bytes>) {
    match op
    case SET => false
    case INCRBY => |a| == 2 && IsInteger(a, 1)
    case DECRBY => |a| == 2 && IsInteger(a, 1)
    case _ => |a| == 1
  }

  predicate ListLooksUp(op: ListOp, a: seq<Bytes>) {
    match op
    case LPUSH => |a| >= 2
    case RPUSH => |a| >= 2
    case LRANGE => |a| == 3 && IsInteger(a, 1) && IsInteger(a, 2)
    case LINDEX => |a| == 2 && IsInteger(a, 1)
    case LSET => |a| == 3 && IsInteger(a, 1)
    case LREM => |a| == 3 && IsInteger(a, 1)
    case _ => |a| == 1
  }

  predicate SetLooksUp(op: SetOp, a: seq<Bytes>) {
    match op
    case SADD => |a| >= 2
    case SREM => |a| >= 2
    case SISMEMBER => |a| == 2
    case _ => |a| == 1
  }

  predicate HashLooksUp(op: HashOp, a: seq<Bytes>) {
    match op
    case HSET => |a| == 3
    case HGET => |a| == 2
    case HEXISTS => |a| == 2
    case HDEL => |a| >= 2
    case HMGET => |a| >= 2
    case HMSET => |a| >= 3 && |a| % 2 == 1
    case HINCRBY => |a| == 3 && IsInteger(a, 2)
    case _ => |a| == 1
  }

  /** The keys a blocking pop scans: up to the first that has an item. */
  function Scanned(keys: seq<Bytes>, db: DB, left: bool, now: int): set<Bytes> {
    if keys == [] then {}
    else if PopEnd(Evict(At(db, keys[0]), now), left).1.Some? then {keys[0]}
    else {keys[0]} + Scanned(keys[1..], EvictKey(db, keys[0], now), left, now)
  }

  /** The keys SINTER looks up: up to the first without a set. */
  function UntilMissing(keys: seq<Bytes>, db: DB, now: int): set<Bytes> {
    if keys == [] then {}
    else if Evict(At(db, keys[0]), now).members.None? then {keys[0]}
    else {keys[0]} + UntilMissing(keys[1..], EvictKey(db, keys[0], now), now)
  }

  /** DEL deletes what it has evicted, and MSET evicts nothing: neither can be told from not evicting. */
  function LookedKeys(op: KeysOp, a: seq<Bytes>, db: DB, e: Env): set<Bytes> {
    match op
    case DEL => {}
    case MSET => {}
    case EXISTS => Elements(a)
    case MGET => Elements(a)
    case SUNION => Elements(a)
    case SINTER => UntilMissing(a, db, e.now)
    case SDIFF =>
      if a == [] then {}
      else if Evict(At(db, a[0]), e.now).members.None? then {a[0]}
      else Elements(a)
    case BLPOP => if |a| >= 2 && e.timeoutOk then Scanned(a[..|a| - 1], db, true, e.now) else {}
    case BRPOP => if |a| >= 2 && e.timeoutOk then Scanned(a[..|a| - 1], db, false, e.now) else {}
  }

  predicate Sweeps(op: KeyspaceOp, a: seq<Bytes>) {
    match op
    case KEYS => |a| == 1
    case SCAN => IsInteger(a, 0)
    case DBSIZE => true
  }

  /** The keys whose eviction a command can be told by: those it looks up, or for a sweep those that are overdue. */
  function Looked(c: Cmd, a: seq<Bytes>, db: DB, e: Env): set<Bytes> {
    match c
    case OnKeys(op) => LookedKeys(op, a, db, e)
    case OnKeyspace(op) => if Sweeps(op, a) then Overdue(db, e.now) else {}
    case OnServer(_) => {}
    case _ => if a != [] && LooksUp(c, a) then {a[0]} else {}
  }

  /** Under these keys nothing stored is past its deadline: evicting them would take nothing. */
  ghost predicate QuietAt(db: DB, keys: set<Bytes>, now: int) {
    forall k :: k in keys ==> QuietSlot(At(db, k), now)
  }

  // ---------------------------------------------------------------- one slot

  /** A step that must not change the data: it failed, or its command is never logged. */
  predicate Inert(c: Cmd, r: Reply) {
    r.Fail? || !Persisted(c)
  }

  /** An inert step leaves the data of its slot as it was or, if it looked the key up, as eviction leaves it. */
  predicate SlotEffect(c: Cmd, a: seq<Bytes>, before: Slot, after: (Slot, Reply), now: int) {
    && (Inert(c, after.1) ==> Payload(after.0) == Payload(if LooksUp(c, a) then Evict(before, now) else before))
    && (Filled(before) ==> Filled(after.0))
  }

  lemma StringEffect(op: StringOp, a: seq<Bytes>, s: Slot, e: Env)
    requires |a| > 0
    ensures SlotEffect(OnString(op), a, s, DoString(op, a, s, e), e.now)
  {
  }

  lemma {:induction false} LPushedGrows(items: seq<Bytes>, values: seq<Bytes>)
    ensures |LPushed(items, values)| == |items| + |values|
  {
    LPushedReverses(items, values);
  }

  lemma ListEffect(op: ListOp, a: seq<Bytes>, s: Slot, e: Env)
    requires |a| > 0
    ensures SlotEffect(OnList(op), a, s, DoList(op, a, s, e), e.now)
  {
    if op == LPUSH {
      LPushedGrows(Evict(s, e.now).list.GetOr([]), a[1..]);
    }
  }

  lemma MembersEffect(op: SetOp, a: seq<Bytes>, s: Slot, e: Env)
    requires |a| > 0 && op != SPOP
    ensures SlotEffect(OnSet(op), a, s, DoMembers(op, a, s, e), e.now)
  {
    if op == SADD && |a| >= 2 {
      assert a[1..][0] in Elements(a[1..]);
    }
  }

  lemma SetEffect(op: SetOp, a: seq<Bytes>, s: Slot, e: Env)
    requires |a| > 0
    ensures SlotEffect(OnSet(op), a, s, DoSet(op, a, s, e), e.now)
  {
    hide DoMembers;
    if op != SPOP {
      MembersEffect(op, a, s, e);
    }
  }

  lemma ZeroText()
    ensures LooseInt("0") == Some(0)
  {
    AtoiOfItoa(0);
    ParseIntAgreesWithAtoi("0");
  }

  /** HINCRBY gets or creates its hash before it can fail, but it can fail only on a hash that was there. */
  lemma BumpFieldEffect(s: Slot, field: Bytes, increment: int64)
    ensures var (s', r) := BumpField(s, field, increment);
            && (r.Fail? ==> s' == s)
            && (Filled(s) ==> Filled(s'))
  {
    ZeroText();
    var fields := s.fields.GetOr(map[]);
    var b := Bumped(fields, field, increment);
    if b.Some? {
      assert field in fields[field := LooseText(b.value)];
    }
  }

  lemma HashWriteEffect(op: HashOp, a: seq<Bytes>, s: Slot, e: Env)
    requires |a| > 0 && (op.HSET? || op.HMSET?)
    ensures SlotEffect(OnHash(op), a, s, DoHash(op, a, s, e), e.now)
  {
    var fields := Evict(s, e.now).fields.GetOr(map[]);
    if op == HSET && |a| == 3 {
      assert a[1] in fields[a[1] := a[2]];
    } else if op == HMSET && |a| >= 3 {
      assert a[1..][0] in Pairs(a[1..]);
      assert a[1] in fields + Pairs(a[1..]);
    }
  }

  lemma HincrbyEffect(a: seq<Bytes>, s: Slot, e: Env)
    requires |a| > 0
    ensures SlotEffect(OnHash(HINCRBY), a, s, DoHash(HINCRBY, a, s, e), e.now)
  {
    if |a| == 3 && Atoi(a[2]).Some? {
      BumpFieldEffect(Evict(s, e.now), a[1], Atoi(a[2]).value);
    }
  }

  lemma HdelEffect(a: seq<Bytes>, s: Slot, e: Env)
    requires |a| > 0
    ensures SlotEffect(OnHash(HDEL), a, s, DoHash(HDEL, a, s, e), e.now)
  {
  }

  lemma HashReadEffect(op: HashOp, a: seq<Bytes>, s: Slot, e: Env)
    requires |a| > 0 && !Persisted(OnHash(op))
    ensures SlotEffect(OnHash(op), a, s, DoHash(op, a, s, e), e.now)
  {
    assert DoHash(op, a, s, e).0 == s || DoHash(op, a, s, e).0 == Evict(s, e.now);
  }

  lemma HashEffect(op: HashOp, a: seq<Bytes>, s: Slot, e: Env)
    requires |a| > 0
    ensures SlotEffect(OnHash(op), a, s, DoHash(op, a, s, e), e.now)
  {
    match op {
      case HSET => HashWriteEffect(op, a, s, e);
      case HMSET => HashWriteEffect(op, a, s, e);
      case HINCRBY => HincrbyEffect(a, s, e);
      case HDEL => HdelEffect(a, s, e);
      case _ => HashReadEffect(op, a, s, e);
    }
  }

  lemma DeadlineEffect(op: DeadlineOp, a: seq<Bytes>, s: Slot, e: Env)
    requires |a| > 0
    ensures SlotEffect(OnDeadline(op), a, s, DoDeadline(op, a, s, e), e.now)
  {
  }

  lemma OnKeyEffect(c: Cmd, a: seq<Bytes>, s: Slot, e: Env)
    requires |a| > 0 && SingleKey(c)
    ensures SlotEffect(c, a, s, OnKey(c, a, s, e), e.now)
  {
    match c {
      case OnString(op) => StringEffect(op, a, s, e);
      case OnList(op) => ListEffect(op, a, s, e);
      case OnSet(op) => SetEffect(op, a, s, e);
      case OnHash(op) => HashEffect(op, a, s, e);
      case OnDeadline(op) => DeadlineEffect(op, a, s, e);
    }
  }

  // ------------------------------------------------------------- one database

  lemma FilledWith(db: DB, key: Bytes, s: Slot)
    requires NoEmptyContainer(db) && Filled(s)
    ensures NoEmptyContainer(With(db, key, s))
  {
    forall k
      ensures Filled(At(With(db, key, s), k))
    {
      AtWith(db, key, s, k);
    }
  }

  /** All data is as it was, but for the eviction of some keys. */
  ghost predicate DataEvicted(before: DB, after: DB, keys: set<Bytes>, now: int) {
    forall k :: Payload(At(after, k)) == Payload(if k in keys then Evict(At(before, k), now) else At(before, k))
  }

  /** Then the four data maps are unchanged if and only if nothing stored under those keys was past its deadline. */
  lemma UnchangedIffQuiet(before: DB, after: DB, keys: set<Bytes>, now: int)
    requires DataEvicted(before, after, keys, now)
    ensures Data(after) == Data(before) <==> QuietAt(before, keys, now)
  {
    forall k
      ensures At(Data(after), k) == Payload(if k in keys then Evict(At(before, k), now) else At(before, k))
      ensures At(Data(before), k) == Payload(At(before, k))
    {
      AtData(after, k);
      AtData(before, k);
    }
    if QuietAt(before, keys, now) {
      SameDB(Data(after), Data(before));
    } else {
      var k :| k in keys && !QuietSlot(At(before, k), now);
      assert At(Data(after), k) != At(Data(before), k);
    }
  }

  /** The whole of some keys has been evicted and nothing else has changed. */
  ghost predicate AfterEvicting(before: DB, after: DB, keys: set<Bytes>, now: int) {
    forall k :: At(after, k) == if k in keys then Evict(At(before, k), now) else At(before, k)
  }

  lemma EvictKeyEvicts(db: DB, key: Bytes, now: int)
    ensures AfterEvicting(db, EvictKey(db, key, now), {key}, now)
  {
    forall k
      ensures At(EvictKey(db, key, now), k) == if k == key then Evict(At(db, k), now) else At(db, k)
    {
      AtWith(db, key, Evict(At(db, key), now), k);
    }
  }

  lemma EvictingTwice(a: DB, b: DB, c: DB, first: set<Bytes>, second: set<Bytes>, now: int)
    requires AfterEvicting(a, b, first, now) && AfterEvicting(b, c, second, now)
    ensures AfterEvicting(a, c, first + second, now)
  {
  }

  lemma EvictingFills(before: DB, after: DB, keys: set<Bytes>, now: int)
    requires AfterEvicting(before, after, keys, now)
    ensures DataEvicted(before, after, keys, now)
    ensures NoEmptyContainer(before) ==> NoEmptyContainer(after)
  {
    if NoEmptyContainer(before) {
      forall k
        ensures Filled(At(after, k))
      {
        assert Filled(At(before, k));
      }
    }
  }

  /** Evicting the first key and then what the rest evicts. */
  lemma EvictFirst(keys: seq<Bytes>, db: DB, rest: set<Bytes>, after: DB, now: int)
    requires keys != [] && AfterEvicting(EvictKey(db, keys[0], now), after, rest, now)
    ensures AfterEvicting(db, after, {keys[0]} + rest, now)
  {
    EvictKeyEvicts(db, keys[0], now);
    EvictingTwice(db, EvictKey(db, keys[0], now), after, {keys[0]}, rest, now);
  }

  lemma HeadAndTail(keys: seq<Bytes>)
    requires keys != []
    ensures Elements(keys) == {keys[0]} + Elements(keys[1..])
  {
    assert keys == [keys[0]] + keys[1..];
  }

  lemma {:induction false} EvictAllEvicts(keys: seq<Bytes>, db: DB, now: int)
    ensures AfterEvicting(db, EvictAll(keys, db, now), Elements(keys), now)
    ensures AfterEvicting(db, CountExisting(keys, db, now).0, Elements(keys), now)
    decreases keys
  {
    if keys != [] {
      var next := EvictKey(db, keys[0], now);
      EvictAllEvicts(keys[1..], next, now);
      HeadAndTail(keys);
      hide EvictKey, AfterEvicting;
      EvictFirst(keys, db, Elements(keys[1..]), EvictAll(keys[1..], next, now), now);
      EvictFirst(keys, db, Elements(keys[1..]), CountExisting(keys[1..], next, now).0, now);
    }
  }

  lemma {:induction false} GatherEvicts(keys: seq<Bytes>, db: DB, stop: bool, now: int)
    ensures AfterEvicting(db, Gather(keys, db, stop, now).0,
                          if stop then UntilMissing(keys, db, now) else Elements(keys), now)
    decreases keys
  {
    if keys != [] {
      var next := EvictKey(db, keys[0], now);
      HeadAndTail(keys);
      if stop && Evict(At(db, keys[0]), now).members.None? {
        EvictKeyEvicts(db, keys[0], now);
      } else {
        GatherEvicts(keys[1..], next, stop, now);
        hide AfterEvicting;
        EvictFirst(keys, db, if stop then UntilMissing(keys[1..], next, now) else Elements(keys[1..]),
                   Gather(keys[1..], next, stop, now).0, now);
      }
    }
  }

  lemma SweepEvicts(db: DB, now: int)
    ensures AfterEvicting(db, Sweep(db, now), Overdue(db, now), now)
  {
    forall k
      ensures At(Sweep(db, now), k) == if k in Overdue(db, now) then Evict(At(db, k), now) else At(db, k)
    {
      AtSweep(db, now, k);
    }
  }

  lemma {:induction false} DeleteKeysFilled(keys: seq<Bytes>, db: DB, now: int)
    requires NoEmptyContainer(db)
    ensures NoEmptyContainer(DeleteKeys(keys, db, now).0)
    decreases keys
  {
    if keys != [] {
      FilledWith(db, keys[0], VACANT);
      DeleteKeysFilled(keys[1..], With(db, keys[0], VACANT), now);
    }
  }

  lemma {:induction false} StorePairsFilled(args: seq<Bytes>, db: DB)
    requires NoEmptyContainer(db)
    ensures NoEmptyContainer(StorePairs(args, db))
    decreases args
  {
    if |args| >= 2 {
      var s := At(db, args[0]).(text := Some(args[1]), deadline := None);
      assert Filled(At(db, args[0]));
      FilledWith(db, args[0], s);
      StorePairsFilled(args[2..], With(db, args[0], s));
    }
  }

  lemma {:induction false} ScanPopFilled(keys: seq<Bytes>, db: DB, left: bool, now: int)
    requires NoEmptyContainer(db)
    ensures NoEmptyContainer(ScanPop(keys, db, left, now).0)
    decreases keys
  {
    if keys != [] {
      assert Filled(At(db, keys[0]));
      var (s, v) := PopEnd(Evict(At(db, keys[0]), now), left);
      FilledWith(db, keys[0], s);
      if v.None? {
        ScanPopFilled(keys[1..], With(db, keys[0], s), left, now);
      }
    }
  }

  /** An inert command evicts the keys it looks up and changes no other data; no command makes an empty container. */
  ghost predicate Effect(c: Cmd, a: seq<Bytes>, before: DB, after: (DB, Reply), e: Env) {
    && (Inert(c, after.1) ==> DataEvicted(before, after.0, Looked(c, a, before, e), e.now))
    && (NoEmptyContainer(before) ==> NoEmptyContainer(after.0))
  }

  lemma LookingEffect(c: Cmd, a: seq<Bytes>, db: DB, after: (DB, Reply), e: Env)
    requires AfterEvicting(db, after.0, Looked(c, a, db, e), e.now)
    ensures Effect(c, a, db, after, e)
  {
    hide Looked, AfterEvicting, DataEvicted, NoEmptyContainer;
    EvictingFills(db, after.0, Looked(c, a, db, e), e.now);
  }

  lemma DiffEvicts(a: seq<Bytes>, db: DB, e: Env)
    ensures AfterEvicting(db, DoKeys(SDIFF, a, db, e).0, LookedKeys(SDIFF, a, db, e), e.now)
  {
    if a != [] {
      var next := EvictKey(db, a[0], e.now);
      EvictKeyEvicts(db, a[0], e.now);
      HeadAndTail(a);
      if Evict(At(db, a[0]), e.now).members.Some? {
        GatherEvicts(a[1..], next, false, e.now);
        EvictFirst(a, db, Elements(a[1..]), Gather(a[1..], next, false, e.now).0, e.now);
      }
    }
  }

  predicate OnlyLooks(op: KeysOp) {
    op.EXISTS? || op.MGET? || op.SINTER? || op.SUNION? || op.SDIFF?
  }

  lemma LookingEvicts(op: KeysOp, a: seq<Bytes>, db: DB, e: Env)
    requires OnlyLooks(op)
    ensures AfterEvicting(db, DoKeys(op, a, db, e).0, LookedKeys(op, a, db, e), e.now)
  {
    match op {
      case EXISTS => EvictAllEvicts(a, db, e.now);
      case MGET => EvictAllEvicts(a, db, e.now);
      case SINTER => GatherEvicts(a, db, true, e.now);
      case SUNION => GatherEvicts(a, db, false, e.now);
      case SDIFF => DiffEvicts(a, db, e);
    }
  }

  lemma PopEffect(op: KeysOp, a: seq<Bytes>, db: DB, e: Env)
    requires op == BLPOP || op == BRPOP
    ensures Effect(OnKeys(op), a, db, DoKeys(op, a, db, e), e)
  {
    if NoEmptyContainer(db) && |a| >= 2 {
      ScanPopFilled(a[..|a| - 1], db, op == BLPOP, e.now);
    }
  }

  lemma KeysEffect(op: KeysOp, a: seq<Bytes>, db: DB, e: Env)
    ensures Effect(OnKeys(op), a, db, DoKeys(op, a, db, e), e)
  {
    if OnlyLooks(op) {
      LookingEvicts(op, a, db, e);
      LookingEffect(OnKeys(op), a, db, DoKeys(op, a, db, e), e);
    } else if op == BLPOP || op == BRPOP {
      PopEffect(op, a, db, e);
    } else if NoEmptyContainer(db) {
      DeleteKeysFilled(a, db, e.now);
      StorePairsFilled(a, db);
    }
  }

  lemma KeyspaceEffect(op: KeyspaceOp, a: seq<Bytes>, db: DB, e: Env)
    ensures Effect(OnKeyspace(op), a, db, DoKeyspace(op, a, db, e), e)
  {
    if Sweeps(op, a) {
      SweepEvicts(db, e.now);
      hide AfterEvicting, Sweep, Overdue, KeysReply, MatchPattern;
      LookingEffect(OnKeyspace(op), a, db, DoKeyspace(op, a, db, e), e);
    } else {
      hide Sweep, Overdue, KeysReply, MatchPattern, NoEmptyContainer;
    }
  }

  lemma SlotEffectLifts(c: Cmd, a: seq<Bytes>, db: DB, after: (Slot, Reply), e: Env)
    requires SingleKey(c) && a != [] && SlotEffect(c, a, At(db, a[0]), after, e.now)
    ensures Effect(c, a, db, (With(db, a[0], after.0), after.1), e)
  {
    var db' := With(db, a[0], after.0);
    forall k
      ensures At(db', k) == if k == a[0] then after.0 else At(db, k)
    {
      AtWith(db, a[0], after.0, k);
    }
    if NoEmptyContainer(db) {
      assert Filled(At(db, a[0]));
      FilledWith(db, a[0], after.0);
    }
    hide With, At, Evict, Payload, NoEmptyContainer, LooksUp;
  }

  lemma AtKeyEffect(c: Cmd, a: seq<Bytes>, db: DB, e: Env)
    requires SingleKey(c)
    ensures Effect(c, a, db, AtKey(c, a, db, e), e)
  {
    if a != [] {
      OnKeyEffect(c, a, At(db, a[0]), e);
      hide OnKey, SlotEffect, Effect;
      SlotEffectLifts(c, a, db, OnKey(c, a, At(db, a[0]), e), e);
    }
  }

  /**
   Every command, on every database: if it fails, or is not one of the logged commands, the data is what it was
   but for the eviction of the keys it looks up; and if no container was empty before, none is afterwards.
   */
  lemma CommandEffect(c: Cmd, a: seq<Bytes>, db: DB, e: Env)
    ensures Effect(c, a, db, Exec(c, a, db, e), e)
  {
    match c {
      case OnKeys(op) => KeysEffect(op, a, db, e);
      case OnKeyspace(op) => KeyspaceEffect(op, a, db, e);
      case OnServer(_) =>
      case _ => AtKeyEffect(c, a, db, e);
    }
  }

  /** So such a command leaves the four data maps alone if and only if it evicts nothing that is stored. */
  lemma InertIffQuiet(c: Cmd, a: seq<Bytes>, db: DB, e: Env)
    requires Inert(c, Exec(c, a, db, e).1)
    ensures Data(Exec(c, a, db, e).0) == Data(db) <==> QuietAt(db, Looked(c, a, db, e), e.now)
  {
    CommandEffect(c, a, db, e);
    hide Exec, Looked, Data, QuietAt, DataEvicted;
    UnchangedIffQuiet(db, Exec(c, a, db, e).0, Looked(c, a, db, e), e.now);
  }
}
