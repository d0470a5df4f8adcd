/**
 COMMAND GETKEYS: the arithmetic on the command table that says which arguments are keys, and the proof that
 what it says is a sound frame for the handlers.
 */
module GetKeys {
  import opened Wrappers
  import opened GoText
  import opened Sequences
  import opened Containers
  import opened Keyspace
  import opened Commands

  method GetKeys(c: Cmd, a: seq<Bytes>) returns (keys: Option<seq<Bytes>>)
    ensures keys == KeysOf(c, a)
  {
    var spec := SpecOf(c);
    if spec.firstKey == 0 {
      return None;
    }
    if spec.firstKey - 1 >= |a| {
      return None;
    }
    var last := spec.lastKey;
    if last < 0 {
      last := |a| + last + 1;
    }
    if last <= spec.firstKey {
      last := spec.firstKey;
    }
    var result: seq<Bytes> := [];
    var i := spec.firstKey - 1;
    while i < last && i < |a|
      invariant spec.firstKey - 1 <= i
      invariant Strided(a, spec.firstKey - 1, last, spec.step) == result + Strided(a, i, last, spec.step)
      decreases |a| - i
    {
      Assoc(result, [a[i]], Strided(a, i + spec.step, last, spec.step));
      result := result + [a[i]];
      i := i + spec.step;
    }
    assert result + [] == result;
    if |result| == 0 {
      return None;
    }
    return Some(result);
  }

  /** COMMAND, whose one reply with arithmetic in it is GETKEYS. */
  method Command(args: seq<Bytes>) returns (reply: Reply)
    ensures reply == CommandReply(args)
  {
    if args == [] {
      return Info;
    }
    var sub := ToUpper(args[0]);
    if sub == "COUNT" || sub == "LIST" || sub == "INFO" || sub == "DOCS" {
      return Info;
    }
    if sub != "GETKEYS" {
      return Fail(UnknownSubcommand);
    }
    if |args| < 2 {
      return Fail(NoCommandName);
    }
    var c := FindCommand(ToUpper(args[1]));
    if c.None? || SpecOf(c.value).firstKey == 0 {
      return Fail(NoKeyArguments);
    }
    if SpecOf(c.value).firstKey - 1 >= |args[2..]| {
      return Fail(InvalidKeyArguments);
    }
    var keys := GetKeys(c.value, args[2..]);
    return if keys.None? then Fail(NoKeyArguments) else Many(Bulks(keys.value));
  }

  lemma {:induction false} StridedHolds(a: seq<Bytes>, i: nat, last: int, step: nat, n: nat)
    requires step > 0 && i + n * step < |a| && i + n * step < last
    ensures a[i + n * step] in Strided(a, i, last, step)
    decreases n
  {
    if n > 0 {
      assert n * step == step + (n - 1) * step;
      assert (n - 1) * step >= 0;
      StridedHolds(a, i + step, last, step, n - 1);
    }
  }

  // --------------------------------------------------------------- the frame

  lemma {:induction false} DeleteFrame(keys: seq<Bytes>, db: DB, now: int, k: Bytes)
    requires k !in keys
    ensures At(DeleteKeys(keys, db, now).0, k) == At(db, k)
    decreases keys
  {
    if keys != [] {
      AtWith(db, keys[0], VACANT, k);
      DeleteFrame(keys[1..], With(db, keys[0], VACANT), now, k);
    }
  }

  lemma {:induction false} EvictFrame(keys: seq<Bytes>, db: DB, now: int, k: Bytes)
    requires k !in keys
    ensures At(EvictAll(keys, db, now), k) == At(db, k)
    ensures At(CountExisting(keys, db, now).0, k) == At(db, k)
    decreases keys
  {
    if keys != [] {
      AtWith(db, keys[0], Evict(At(db, keys[0]), now), k);
      EvictFrame(keys[1..], EvictKey(db, keys[0], now), now, k);
    }
  }

  lemma {:induction false} GatherFrame(keys: seq<Bytes>, db: DB, stop: bool, now: int, k: Bytes)
    requires k !in keys
    ensures At(Gather(keys, db, stop, now).0, k) == At(db, k)
    decreases keys
  {
    if keys != [] {
      AtWith(db, keys[0], Evict(At(db, keys[0]), now), k);
      GatherFrame(keys[1..], EvictKey(db, keys[0], now), stop, now, k);
    }
  }

  lemma {:induction false} ScanFrame(keys: seq<Bytes>, db: DB, left: bool, now: int, k: Bytes)
    requires k !in keys
    ensures At(ScanPop(keys, db, left, now).0, k) == At(db, k)
    decreases keys
  {
    if keys != [] {
      var (s, v) := PopEnd(Evict(At(db, keys[0]), now), left);
      AtWith(db, keys[0], s, k);
      if v.None? {
        ScanFrame(keys[1..], With(db, keys[0], s), left, now, k);
      }
    }
  }

  lemma {:induction false} StoreFrame(args: seq<Bytes>, db: DB, k: Bytes)
    requires forall i :: 0 <= i < |args| && i % 2 == 0 ==> args[i] != k
    ensures At(StorePairs(args, db), k) == At(db, k)
    decreases args
  {
    if |args| >= 2 {
      var s := At(db, args[0]).(text := Some(args[1]), deadline := None);
      AtWith(db, args[0], s, k);
      forall i | 0 <= i < |args[2..]| && i % 2 == 0
        ensures args[2..][i] != k
      {
        assert args[i + 2] != k;
      }
      StoreFrame(args[2..], With(db, args[0], s), k);
    }
  }

  lemma AllArguments(op: KeysOp, a: seq<Bytes>, j: nat)
    requires KeysSpec(op).lastKey == -1 && KeysSpec(op).step == 1 && j < |a|
    ensures KeysOf(OnKeys(op), a).Some? && a[j] in KeysOf(OnKeys(op), a).value
  {
    StridedHolds(a, 0, LastKey(KeysSpec(op), |a|), 1, j);
    assert a[0 + j * 1] == a[j];
  }

  lemma OutsideAll(op: KeysOp, a: seq<Bytes>, k: Bytes)
    requires KeysSpec(op).lastKey == -1 && KeysSpec(op).step == 1
    requires k !in KeysOf(OnKeys(op), a).GetOr([])
    ensures k !in a
  {
    if k in a {
      var j :| 0 <= j < |a| && a[j] == k;
      AllArguments(op, a, j);
    }
  }

  lemma EveryOther(a: seq<Bytes>, i: nat)
    requires i < |a| && i % 2 == 0
    ensures a[i] in KeysOf(OnKeys(MSET), a).GetOr([])
  {
    StridedHolds(a, 0, LastKey(KeysSpec(MSET), |a|), 2, i / 2);
    assert a[0 + i / 2 * 2] == a[i];
  }

  lemma OutsidePairs(a: seq<Bytes>, k: Bytes)
    requires k !in KeysOf(OnKeys(MSET), a).GetOr([])
    ensures forall i :: 0 <= i < |a| && i % 2 == 0 ==> a[i] != k
  {
    forall i | 0 <= i < |a| && i % 2 == 0
      ensures a[i] != k
    {
      EveryOther(a, i);
    }
  }

  lemma AllButTheLast(op: KeysOp, a: seq<Bytes>, j: nat)
    requires op == BLPOP || op == BRPOP
    requires j + 1 < |a|
    ensures a[j] in KeysOf(OnKeys(op), a).GetOr([])
  {
    StridedHolds(a, 0, LastKey(KeysSpec(op), |a|), 1, j);
    assert a[0 + j * 1] == a[j];
  }

  lemma OutsideScan(op: KeysOp, a: seq<Bytes>, k: Bytes)
    requires op == BLPOP || op == BRPOP
    requires |a| >= 2 && k !in KeysOf(OnKeys(op), a).GetOr([])
    ensures k !in a[..|a| - 1]
  {
    if k in a[..|a| - 1] {
      var j :| 0 <= j < |a| - 1 && a[j] == k;
      AllButTheLast(op, a, j);
    }
  }

  lemma KeysFrame(op: KeysOp, a: seq<Bytes>, db: DB, e: Env, k: Bytes)
    requires k !in KeysOf(OnKeys(op), a).GetOr([])
    ensures At(DoKeys(op, a, db, e).0, k) == At(db, k)
  {
    match op {
      case MSET =>
        OutsidePairs(a, k);
        StoreFrame(a, db, k);
      case BLPOP =>
        if |a| >= 2 {
          OutsideScan(op, a, k);
          ScanFrame(a[..|a| - 1], db, true, e.now, k);
        }
      case BRPOP =>
        if |a| >= 2 {
          OutsideScan(op, a, k);
          ScanFrame(a[..|a| - 1], db, false, e.now, k);
        }
      case _ =>
        OutsideAll(op, a, k);
        PlainFrame(op, a, db, e, k);
    }
  }

  lemma PlainFrame(op: KeysOp, a: seq<Bytes>, db: DB, e: Env, k: Bytes)
    requires KeysSpec(op).lastKey == -1 && KeysSpec(op).step == 1 && k !in a
    ensures At(DoKeys(op, a, db, e).0, k) == At(db, k)
  {
    match op {
      case DEL => DeleteFrame(a, db, e.now, k);
      case EXISTS => EvictFrame(a, db, e.now, k);
      case MGET => EvictFrame(a, db, e.now, k);
      case SINTER => GatherFrame(a, db, true, e.now, k);
      case SUNION => GatherFrame(a, db, false, e.now, k);
      case SDIFF =>
        if a != [] {
          AtWith(db, a[0], Evict(At(db, a[0]), e.now), k);
          GatherFrame(a[1..], EvictKey(db, a[0], e.now), false, e.now, k);
        }
    }
  }

  /**
   GETKEYS is a sound frame: for every command with key arguments, whatever the arguments, all five maps,
   deadlines included, are unchanged at every key GETKEYS does not report.
   */
  lemma GetKeysIsAFrame(c: Cmd, a: seq<Bytes>, db: DB, e: Env, k: Bytes)
    requires SpecOf(c).firstKey > 0 && k !in KeysOf(c, a).GetOr([])
    ensures At(Exec(c, a, db, e).0, k) == At(db, k)
  {
    if c.OnKeys? {
      KeysFrame(c.k, a, db, e, k);
    } else if a != [] {
      assert Strided(a, 0, 1, 1)[0] == a[0];
      AtWith(db, a[0], OnKey(c, a, At(db, a[0]), e).0, k);
    }
  }

  // ------------------------------------------------------------ nothing else is read

  /** The databases agree on some keys. */
  ghost predicate Agree(x: DB, y: DB, keys: set<Bytes>) {
    forall k :: k in keys ==> At(x, k) == At(y, k)
  }

  lemma AgreeWith(x: DB, y: DB, keys: set<Bytes>, key: Bytes, s: Slot)
    requires Agree(x, y, keys)
    ensures Agree(With(x, key, s), With(y, key, s), keys)
  {
    forall k | k in keys
      ensures At(With(x, key, s), k) == At(With(y, key, s), k)
    {
      AtWith(x, key, s, k);
      AtWith(y, key, s, k);
    }
  }

  ghost predicate Within(args: seq<Bytes>, keys: set<Bytes>) {
    forall i :: 0 <= i < |args| ==> args[i] in keys
  }

  lemma {:induction false} DeleteLocal(args: seq<Bytes>, x: DB, y: DB, now: int, keys: set<Bytes>)
    requires Within(args, keys) && Agree(x, y, keys)
    ensures DeleteKeys(args, x, now).1 == DeleteKeys(args, y, now).1
    ensures Agree(DeleteKeys(args, x, now).0, DeleteKeys(args, y, now).0, keys)
    decreases args
  {
    if args != [] {
      AgreeWith(x, y, keys, args[0], VACANT);
      DeleteLocal(args[1..], With(x, args[0], VACANT), With(y, args[0], VACANT), now, keys);
    }
  }

  lemma {:induction false} EvictLocal(args: seq<Bytes>, x: DB, y: DB, now: int, keys: set<Bytes>)
    requires Within(args, keys) && Agree(x, y, keys)
    ensures CountExisting(args, x, now).1 == CountExisting(args, y, now).1
    ensures Agree(CountExisting(args, x, now).0, CountExisting(args, y, now).0, keys)
    ensures Agree(EvictAll(args, x, now), EvictAll(args, y, now), keys)
    decreases args
  {
    if args != [] {
      var s := Evict(At(x, args[0]), now);
      AgreeWith(x, y, keys, args[0], s);
      EvictLocal(args[1..], With(x, args[0], s), With(y, args[0], s), now, keys);
    }
  }

  lemma TextsLocal(args: seq<Bytes>, x: DB, y: DB, keys: set<Bytes>)
    requires Within(args, keys) && Agree(x, y, keys)
    ensures Texts(args, x) == Texts(args, y)
  {
    forall i | 0 <= i < |args|
      ensures Texts(args, x)[i] == Texts(args, y)[i]
    {
      assert At(x, args[i]).text == At(y, args[i]).text;
    }
  }

  lemma {:induction false} GatherLocal(args: seq<Bytes>, x: DB, y: DB, stop: bool, now: int, keys: set<Bytes>)
    requires Within(args, keys) && Agree(x, y, keys)
    ensures Gather(args, x, stop, now).1 == Gather(args, y, stop, now).1
    ensures Gather(args, x, stop, now).2 == Gather(args, y, stop, now).2
    ensures Agree(Gather(args, x, stop, now).0, Gather(args, y, stop, now).0, keys)
    decreases args
  {
    if args != [] {
      var s := Evict(At(x, args[0]), now);
      AgreeWith(x, y, keys, args[0], s);
      GatherLocal(args[1..], With(x, args[0], s), With(y, args[0], s), stop, now, keys);
    }
  }

  lemma {:induction false} ScanLocal(args: seq<Bytes>, x: DB, y: DB, left: bool, now: int, keys: set<Bytes>)
    requires Within(args, keys) && Agree(x, y, keys)
    ensures ScanPop(args, x, left, now).1 == ScanPop(args, y, left, now).1
    ensures Agree(ScanPop(args, x, left, now).0, ScanPop(args, y, left, now).0, keys)
    decreases args
  {
    if args != [] {
      var (s, v) := PopEnd(Evict(At(x, args[0]), now), left);
      AgreeWith(x, y, keys, args[0], s);
      if v.None? {
        ScanLocal(args[1..], With(x, args[0], s), With(y, args[0], s), left, now, keys);
      }
    }
  }

  lemma {:induction false} StoreLocal(args: seq<Bytes>, x: DB, y: DB, keys: set<Bytes>)
    requires forall i :: 0 <= i < |args| && i % 2 == 0 ==> args[i] in keys
    requires Agree(x, y, keys)
    ensures Agree(StorePairs(args, x), StorePairs(args, y), keys)
    decreases args
  {
    if |args| >= 2 {
      var s := At(x, args[0]).(text := Some(args[1]), deadline := None);
      AgreeWith(x, y, keys, args[0], s);
      forall i | 0 <= i < |args[2..]| && i % 2 == 0
        ensures args[2..][i] in keys
      {
        assert args[i + 2] in keys;
      }
      StoreLocal(args[2..], With(x, args[0], s), With(y, args[0], s), keys);
    }
  }

  ghost predicate SameSeen(p: (DB, Reply), q: (DB, Reply), keys: set<Bytes>) {
    p.1 == q.1 && Agree(p.0, q.0, keys)
  }

  lemma PlainLocal(op: KeysOp, a: seq<Bytes>, x: DB, y: DB, e: Env, keys: set<Bytes>)
    requires KeysSpec(op).lastKey == -1 && KeysSpec(op).step == 1
    requires Within(a, keys) && Agree(x, y, keys)
    ensures SameSeen(DoKeys(op, a, x, e), DoKeys(op, a, y, e), keys)
  {
    match op {
      case DEL => DeleteLocal(a, x, y, e.now, keys);
      case EXISTS => EvictLocal(a, x, y, e.now, keys);
      case MGET =>
        EvictLocal(a, x, y, e.now, keys);
        TextsLocal(a, EvictAll(a, x, e.now), EvictAll(a, y, e.now), keys);
      case SINTER => GatherLocal(a, x, y, true, e.now, keys);
      case SUNION => GatherLocal(a, x, y, false, e.now, keys);
      case SDIFF => DiffLocal(a, x, y, e, keys);
    }
  }

  lemma DiffLocal(a: seq<Bytes>, x: DB, y: DB, e: Env, keys: set<Bytes>)
    requires Within(a, keys) && Agree(x, y, keys)
    ensures SameSeen(DoKeys(SDIFF, a, x, e), DoKeys(SDIFF, a, y, e), keys)
  {
    if a != [] {
      var s := Evict(At(x, a[0]), e.now);
      AgreeWith(x, y, keys, a[0], s);
      GatherLocal(a[1..], With(x, a[0], s), With(y, a[0], s), false, e.now, keys);
    }
  }

  ghost function Reported(c: Cmd, a: seq<Bytes>): set<Bytes> {
    Elements(KeysOf(c, a).GetOr([]))
  }

  lemma KeysLocal(op: KeysOp, a: seq<Bytes>, x: DB, y: DB, e: Env)
    requires Agree(x, y, Reported(OnKeys(op), a))
    ensures SameSeen(DoKeys(op, a, x, e), DoKeys(op, a, y, e), Reported(OnKeys(op), a))
  {
    var keys := Reported(OnKeys(op), a);
    match op {
      case MSET =>
        forall i | 0 <= i < |a| && i % 2 == 0
          ensures a[i] in keys
        {
          EveryOther(a, i);
        }
        StoreLocal(a, x, y, keys);
      case BLPOP => PopLocal(op, a, x, y, e);
      case BRPOP => PopLocal(op, a, x, y, e);
      case _ =>
        forall i | 0 <= i < |a|
          ensures a[i] in keys
        {
          AllArguments(op, a, i);
        }
        PlainLocal(op, a, x, y, e, keys);
    }
  }

  lemma PopLocal(op: KeysOp, a: seq<Bytes>, x: DB, y: DB, e: Env)
    requires (op == BLPOP || op == BRPOP) && Agree(x, y, Reported(OnKeys(op), a))
    ensures SameSeen(DoKeys(op, a, x, e), DoKeys(op, a, y, e), Reported(OnKeys(op), a))
  {
    if |a| >= 2 {
      var keys, scanned := Reported(OnKeys(op), a), a[..|a| - 1];
      forall i | 0 <= i < |scanned|
        ensures scanned[i] in keys
      {
        AllButTheLast(op, a, i);
      }
      ScanLocal(scanned, x, y, op == BLPOP, e.now, keys);
    }
  }

  /**
   Nor is anything else read: on databases that agree on the reported keys, however they differ elsewhere, the
   command gives the same reply and leaves the same behind under those keys.
   */
  lemma GetKeysIsAllThatIsRead(c: Cmd, a: seq<Bytes>, x: DB, y: DB, e: Env)
    requires SpecOf(c).firstKey > 0 && Agree(x, y, Reported(c, a))
    ensures SameSeen(Exec(c, a, x, e), Exec(c, a, y, e), Reported(c, a))
  {
    if c.OnKeys? {
      KeysLocal(c.k, a, x, y, e);
    } else if a != [] {
      assert Strided(a, 0, 1, 1)[0] == a[0];
      assert a[0] in Reported(c, a);
      AgreeWith(x, y, Reported(c, a), a[0], OnKey(c, a, At(x, a[0]), e).0);
    }
  }

  // ------------------------------------------------------------------- arities

  predicate ArityHolds(arity: int, tokens: nat) {
    if arity < 0 then tokens >= 0 - arity else tokens == arity
  }

  /** What the arity column cannot say: MSET and HMSET want their pairs complete. */
  predicate PairsComplete(c: Cmd, a: seq<Bytes>) {
    && (c == OnKeys(MSET) ==> |a| % 2 == 0)
    && (c == OnHash(HMSET) ==> |a| % 2 == 1)
  }

  lemma SlotArity(c: Cmd, a: seq<Bytes>, s: Slot, e: Env)
    requires |a| > 0 && SingleKey(c)
    ensures OnKey(c, a, s, e).1 == Fail(WrongArity) <==>
            !(ArityHolds(SpecOf(c).arity, |a| + 1) && PairsComplete(c, a))
  {
    match c {
      case OnString(op) => StringArityLemma(op, a, s, e);
      case OnList(op) => ListArityLemma(op, a, s, e);
      case OnSet(op) => SetArityLemma(op, a, s, e);
      case OnHash(op) => HashArityLemma(op, a, s, e);
      case OnDeadline(op) =>
    }
  }

  lemma StringArityLemma(op: StringOp, a: seq<Bytes>, s: Slot, e: Env)
    requires |a| > 0
    ensures DoString(op, a, s, e).1 == Fail(WrongArity) <==> !ArityHolds(StringArity(op), |a| + 1)
  {
  }

  lemma ListArityLemma(op: ListOp, a: seq<Bytes>, s: Slot, e: Env)
    requires |a| > 0
    ensures DoList(op, a, s, e).1 == Fail(WrongArity) <==> !ArityHolds(ListArity(op), |a| + 1)
  {
  }

  lemma SetArityLemma(op: SetOp, a: seq<Bytes>, s: Slot, e: Env)
    requires |a| > 0
    ensures DoSet(op, a, s, e).1 == Fail(WrongArity) <==> !ArityHolds(SetArity(op), |a| + 1)
  {
  }

  lemma HashArityLemma(op: HashOp, a: seq<Bytes>, s: Slot, e: Env)
    requires |a| > 0
    ensures DoHash(op, a, s, e).1 == Fail(WrongArity) <==>
            !(ArityHolds(HashArity(op), |a| + 1) && PairsComplete(OnHash(op), a))
  {
  }

  /**
   The arity column agrees with the handlers: a data command is refused for its argument count exactly when
   the table, and for MSET and HMSET the pairing, says so. DBSIZE and the server commands check less.
   */
  lemma ArityTableIsRight(c: Cmd, a: seq<Bytes>, db: DB, e: Env)
    requires !c.OnServer? && c != OnKeyspace(DBSIZE)
    ensures Exec(c, a, db, e).1 == Fail(WrongArity) <==>
            !(ArityHolds(SpecOf(c).arity, |a| + 1) && PairsComplete(c, a))
  {
    if SingleKey(c) && a != [] {
      SlotArity(c, a, At(db, a[0]), e);
    }
  }
}
