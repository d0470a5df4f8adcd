/**
 The command interpreter. `OnKey` is every command that works on the single key in its first argument, as a
 function of that key's slot; `Exec` is every command, on a whole database. One call is one atomic step: the
 handler runs to its end at one reading of the clock.
 */
module Commands {
  import opened Wrappers
  import opened GoText
  import opened Containers
  import opened Keyspace

  datatype StringOp = SET | GET | TYPE | INCR | DECR | INCRBY | DECRBY
  datatype ListOp = LPUSH | RPUSH | LPOP | RPOP | LRANGE | LLEN | LINDEX | LSET | LREM
  datatype SetOp = SADD | SREM | SISMEMBER | SMEMBERS | SCARD | SPOP
  datatype HashOp = HSET | HGET | HDEL | HEXISTS | HGETALL | HKEYS | HVALS | HLEN | HMSET | HMGET | HINCRBY
  datatype DeadlineOp = EXPIRE | PEXPIRE | TTL | PTTL | PERSIST
  datatype KeysOp = DEL | EXISTS | MSET | MGET | BLPOP | BRPOP | SINTER | SUNION | SDIFF
  datatype KeyspaceOp = KEYS | SCAN | DBSIZE
  datatype ServerOp = PING | HELLO | COMMAND | PUBLISH | SAVE | BGSAVE | LASTSAVE

  /** The commands: five families work on the key in their first argument, the others on more or on none. */
  datatype Cmd =
    | OnString(s: StringOp)
    | OnList(l: ListOp)
    | OnSet(m: SetOp)
    | OnHash(h: HashOp)
    | OnDeadline(d: DeadlineOp)
    | OnKeys(k: KeysOp)
    | OnKeyspace(w: KeyspaceOp)
    | OnServer(o: ServerOp)

  /** Error replies, one constructor for each message the handlers give. */
  datatype Failure =
    | WrongArity | NotAnInteger | NoSuchKey | IndexOutOfRange | BadTimeout | InvalidCursor | NoProto
    | HashValueNotInteger | UnknownCommand
    | NoCommandName | NoKeyArguments | InvalidKeyArguments | UnknownSubcommand

  /**
   Replies. Where a reply lists a Go map, its order is the map iteration's choice, so the reply names the
   collection instead of a sequence.
   */
  datatype Reply =
    | OK
    | Nil
    | Int(n: int)
    | Bulk(text: Bytes)
    | Status(text: Bytes)
    | Many(items: seq<Reply>)
    | Members(members: set<Bytes>)
    | FieldsOf(fields: map<Bytes, Bytes>)
    | Bag(values: multiset<Bytes>)
    | KeysLike(pattern: Bytes, texts: set<Bytes>, lists: set<Bytes>, sets: set<Bytes>, hashes: set<Bytes>)
    | Info
    | Fail(reason: Failure)

  /**
   What a handler takes from outside its arguments: the clock, the member that map iteration yields first to
   SPOP, and whether a blocking pop's timeout text parses as a non-negative float.
   */
  datatype Env = Env(now: int, pick: Bytes, timeoutOk: bool)

  const NANOS_PER_SECOND := 1_000_000_000
  const NANOS_PER_MILLI := 1_000_000

  // ------------------------------------------------------------------- strings

  function Increment(slot: Slot, amount: int64, e: Env): (Slot, Reply) {
    var s := Evict(slot, e.now);
    match Atoi(s.text.GetOr("0"))
    case None => (s, Fail(NotAnInteger))
    case Some(n) =>
      var v := Wrap(n + amount);
      (s.(text := Some(Itoa(v))), Int(v))
  }

  function IncrementBy(slot: Slot, a: seq<Bytes>, negate: bool, e: Env): (Slot, Reply)
    requires |a| == 2
  {
    match Atoi(a[1])
    case None => (slot, Fail(NotAnInteger))
    case Some(n) => Increment(slot, if negate then Wrap(0 - n) else n, e)
  }

  function TypeName(s: Slot): Bytes {
    if s.text.Some? then "string"
    else if s.list.Some? then "list"
    else if s.members.Some? then "set"
    else if s.fields.Some? then "hash"
    else "none"
  }

  function DoString(op: StringOp, a: seq<Bytes>, slot: Slot, e: Env): (Slot, Reply)
    requires |a| > 0
  {
    var s := Evict(slot, e.now);
    match op
    case SET =>
      if |a| != 2 then (slot, Fail(WrongArity))
      else (slot.(text := Some(a[1]), deadline := None), OK)
    case GET =>
      if |a| != 1 then (slot, Fail(WrongArity))
      else (s, if s.text.Some? then Bulk(s.text.value) else Nil)
    case TYPE =>
      if |a| != 1 then (slot, Fail(WrongArity)) else (s, Status(TypeName(s)))
    case INCR => if |a| != 1 then (slot, Fail(WrongArity)) else Increment(slot, 1, e)
    case DECR => if |a| != 1 then (slot, Fail(WrongArity)) else Increment(slot, -1, e)
    case INCRBY => if |a| != 2 then (slot, Fail(WrongArity)) else IncrementBy(slot, a, false, e)
    case DECRBY => if |a| != 2 then (slot, Fail(WrongArity)) else IncrementBy(slot, a, true, e)
  }

  // --------------------------------------------------------------------- lists

  function ListOrNone(items: seq<Bytes>): Option<seq<Bytes>> {
    if items == [] then None else Some(items)
  }

  /** Takes one item off an end; the key goes with the last item. */
  function PopEnd(s: Slot, left: bool): (Slot, Option<Bytes>) {
    match s.list
    case None => (s, None)
    case Some(items) =>
      if items == [] then (s, None)
      else if left then (s.(list := ListOrNone(items[1..])), Some(items[0]))
      else (s.(list := ListOrNone(items[..|items| - 1])), Some(items[|items| - 1]))
  }

  function Bulks(texts: seq<Bytes>): (r: seq<Reply>)
    ensures |r| == |texts| && forall i :: 0 <= i < |r| ==> r[i] == Bulk(texts[i])
  {
    seq(|texts|, i requires 0 <= i < |texts| => Bulk(texts[i]))
  }

  function SetItem(s: Slot, index: int64, value: Bytes): (Slot, Reply) {
    match s.list
    case None => (s, Fail(NoSuchKey))
    case Some(items) =>
      var p := Position(index, |items|);
      if 0 <= p < |items| then (s.(list := Some(items[p := value])), OK) else (s, Fail(IndexOutOfRange))
  }

  function RemoveItems(s: Slot, count: int64, value: Bytes): (Slot, Reply) {
    match s.list
    case None => (s, Int(0))
    case Some(items) =>
      var left := Remaining(items, count, value);
      (s.(list := ListOrNone(left)), Int(|items| - |left|))
  }

  function DoList(op: ListOp, a: seq<Bytes>, slot: Slot, e: Env): (Slot, Reply)
    requires |a| > 0
  {
    var s := Evict(slot, e.now);
    var items := s.list.GetOr([]);
    match op
    case LPUSH =>
      if |a| < 2 then (slot, Fail(WrongArity))
      else var longer := LPushed(items, a[1..]); (s.(list := Some(longer)), Int(|longer|))
    case RPUSH =>
      if |a| < 2 then (slot, Fail(WrongArity))
      else var longer := items + a[1..]; (s.(list := Some(longer)), Int(|longer|))
    case LPOP =>
      if |a| != 1 then (slot, Fail(WrongArity))
      else var (s', v) := PopEnd(s, true); (s', if v.Some? then Bulk(v.value) else Nil)
    case RPOP =>
      if |a| != 1 then (slot, Fail(WrongArity))
      else var (s', v) := PopEnd(s, false); (s', if v.Some? then Bulk(v.value) else Nil)
    case LRANGE =>
      if |a| != 3 then (slot, Fail(WrongArity))
      else
        var start, stop := Atoi(a[1]), Atoi(a[2]);
        if start.None? || stop.None? then (slot, Fail(NotAnInteger))
        else (s, Many(Bulks(RangeOf(items, start.value, stop.value))))
    case LLEN =>
      if |a| != 1 then (slot, Fail(WrongArity)) else (s, Int(|items|))
    case LINDEX =>
      if |a| != 2 then (slot, Fail(WrongArity))
      else
        var index := Atoi(a[1]);
        if index.None? then (slot, Fail(NotAnInteger))
        else
          var p := Position(index.value, |items|);
          (s, if 0 <= p < |items| then Bulk(items[p]) else Nil)
    case LSET =>
      if |a| != 3 then (slot, Fail(WrongArity))
      else
        var index := Atoi(a[1]);
        if index.None? then (slot, Fail(NotAnInteger)) else SetItem(s, index.value, a[2])
    case LREM =>
      if |a| != 3 then (slot, Fail(WrongArity))
      else
        var count := Atoi(a[1]);
        if count.None? then (slot, Fail(NotAnInteger)) else RemoveItems(s, count.value, a[2])
  }

  // ---------------------------------------------------------------------- sets

  function SetOrNone(members: set<Bytes>): Option<set<Bytes>> {
    if members == {} then None else Some(members)
  }

  /** The member SPOP removes: the one map iteration yields first. */
  ghost function Picked(members: set<Bytes>, pick: Bytes): (m: Bytes)
    requires members != {}
    ensures m in members
    ensures pick in members ==> m == pick
  {
    if pick in members then pick else var m :| m in members; m
  }

  /** Every set command but SPOP. */
  function DoMembers(op: SetOp, a: seq<Bytes>, slot: Slot, e: Env): (Slot, Reply)
    requires |a| > 0 && op != SPOP
  {
    var s := Evict(slot, e.now);
    var members := s.members.GetOr({});
    match op
    case SADD =>
      if |a| < 2 then (slot, Fail(WrongArity))
      else
        var larger := members + Elements(a[1..]);
        (s.(members := Some(larger)), Int(|larger| - |members|))
    case SREM =>
      if |a| < 2 then (slot, Fail(WrongArity))
      else if s.members.None? then (s, Int(0))
      else
        var left := members - Elements(a[1..]);
        (s.(members := SetOrNone(left)), Int(|members| - |left|))
    case SISMEMBER =>
      if |a| != 2 then (slot, Fail(WrongArity)) else (s, Int(if a[1] in members then 1 else 0))
    case SMEMBERS =>
      if |a| != 1 then (slot, Fail(WrongArity)) else (s, Members(members))
    case SCARD =>
      if |a| != 1 then (slot, Fail(WrongArity)) else (s, Int(|members|))
  }

  ghost function DoSet(op: SetOp, a: seq<Bytes>, slot: Slot, e: Env): (Slot, Reply)
    requires |a| > 0
  {
    if op != SPOP then DoMembers(op, a, slot, e)
    else
      var s := Evict(slot, e.now);
      var members := s.members.GetOr({});
      if |a| != 1 then (slot, Fail(WrongArity))
      else if members == {} then (s, Nil)
      else
        var m := Picked(members, e.pick);
        (s.(members := SetOrNone(members - {m})), Bulk(m))
  }

  // -------------------------------------------------------------------- hashes

  function HashOrNone(fields: map<Bytes, Bytes>): Option<map<Bytes, Bytes>> {
    if fields == map[] then None else Some(fields)
  }

  function FieldReplies(fields: map<Bytes, Bytes>, names: seq<Bytes>): (r: seq<Reply>)
    ensures |r| == |names|
  {
    seq(|names|, i requires 0 <= i < |names| => if names[i] in fields then Bulk(fields[names[i]]) else Nil)
  }

  function BumpField(s: Slot, field: Bytes, increment: int64): (Slot, Reply) {
    var fields := s.fields.GetOr(map[]);
    match Bumped(fields, field, increment)
    case None => (s.(fields := Some(fields)), Fail(HashValueNotInteger))
    case Some(v) => (s.(fields := Some(fields[field := LooseText(v)])), Int(v))
  }

  ghost function DoHash(op: HashOp, a: seq<Bytes>, slot: Slot, e: Env): (Slot, Reply)
    requires |a| > 0
  {
    var s := Evict(slot, e.now);
    var fields := s.fields.GetOr(map[]);
    match op
    case HSET =>
      if |a| != 3 then (slot, Fail(WrongArity))
      else (s.(fields := Some(fields[a[1] := a[2]])), Int(if a[1] in fields then 0 else 1))
    case HGET =>
      if |a| != 2 then (slot, Fail(WrongArity))
      else (s, if a[1] in fields then Bulk(fields[a[1]]) else Nil)
    case HDEL =>
      if |a| < 2 then (slot, Fail(WrongArity))
      else if s.fields.None? then (s, Int(0))
      else
        var left := fields - Elements(a[1..]);
        (s.(fields := HashOrNone(left)), Int(|fields| - |left|))
    case HEXISTS =>
      if |a| != 2 then (slot, Fail(WrongArity)) else (s, Int(if a[1] in fields then 1 else 0))
    case HGETALL =>
      if |a| != 1 then (slot, Fail(WrongArity)) else (s, FieldsOf(fields))
    case HKEYS =>
      if |a| != 1 then (slot, Fail(WrongArity)) else (s, Members(fields.Keys))
    case HVALS =>
      if |a| != 1 then (slot, Fail(WrongArity)) else (s, Bag(ValueBag(fields)))
    case HLEN =>
      if |a| != 1 then (slot, Fail(WrongArity)) else (s, Int(|fields|))
    case HMSET =>
      if |a| < 3 || |a| % 2 == 0 then (slot, Fail(WrongArity))
      else (s.(fields := Some(fields + Pairs(a[1..]))), OK)
    case HMGET =>
      if |a| < 2 then (slot, Fail(WrongArity)) else (s, Many(FieldReplies(fields, a[1..])))
    case HINCRBY =>
      if |a| != 3 then (slot, Fail(WrongArity))
      else
        var increment := Atoi(a[2]);
        if increment.None? then (slot, Fail(NotAnInteger)) else BumpField(s, a[1], increment.value)
  }

  /** The hash commands that only look. */
  predicate LooksAtHash(op: HashOp) {
    op.HGET? || op.HEXISTS? || op.HGETALL? || op.HKEYS? || op.HVALS? || op.HLEN? || op.HMGET?
  }

  predicate HashArgs(op: HashOp, a: seq<Bytes>) {
    match op
    case HGET => |a| == 2
    case HEXISTS => |a| == 2
    case HMGET => |a| >= 2
    case _ => |a| == 1
  }

  /** What the hash commands that only look reply, given the fields. */
  ghost function HashReply(op: HashOp, a: seq<Bytes>, fields: map<Bytes, Bytes>): Reply
    requires LooksAtHash(op) && HashArgs(op, a)
  {
    match op
    case HGET => if a[1] in fields then Bulk(fields[a[1]]) else Nil
    case HEXISTS => Int(if a[1] in fields then 1 else 0)
    case HGETALL => FieldsOf(fields)
    case HKEYS => Members(fields.Keys)
    case HVALS => Bag(ValueBag(fields))
    case HLEN => Int(|fields|)
    case HMGET => Many(FieldReplies(fields, a[1..]))
  }

  lemma HashLook(op: HashOp, a: seq<Bytes>, slot: Slot, e: Env)
    requires LooksAtHash(op) && HashArgs(op, a)
    ensures var s := Evict(slot, e.now);
            DoHash(op, a, slot, e) == (s, HashReply(op, a, s.fields.GetOr(map[])))
  {
    hide Evict, ValueBag, FieldReplies, BumpField, Pairs;
  }

  // ----------------------------------------------------------------- deadlines

  predicate Exists(s: Slot) {
    s.text.Some? || s.list.Some? || s.members.Some? || s.fields.Some?
  }

  /** The duration is a 64-bit count of nanoseconds, multiplied out with wrap-around. */
  function SetDeadline(slot: Slot, amount: Bytes, unit: nat, e: Env): (Slot, Reply) {
    match Atoi(amount)
    case None => (slot, Fail(NotAnInteger))
    case Some(n) =>
      var s := Evict(slot, e.now);
      if Exists(s) then (s.(deadline := Some(e.now + Wrap(n * unit))), Int(1)) else (s, Int(0))
  }

  function TimeLeft(s: Slot, unit: nat, e: Env): Reply
    requires unit > 0
  {
    if !Exists(s) then Int(-2)
    else
      match s.deadline
      case None => Int(-1)
      case Some(t) => Int((if t < e.now then 0 else t - e.now) / unit)
  }

  function DoDeadline(op: DeadlineOp, a: seq<Bytes>, slot: Slot, e: Env): (Slot, Reply)
    requires |a| > 0
  {
    var s := Evict(slot, e.now);
    match op
    case EXPIRE => if |a| != 2 then (slot, Fail(WrongArity)) else SetDeadline(slot, a[1], NANOS_PER_SECOND, e)
    case PEXPIRE => if |a| != 2 then (slot, Fail(WrongArity)) else SetDeadline(slot, a[1], NANOS_PER_MILLI, e)
    case TTL => if |a| != 1 then (slot, Fail(WrongArity)) else (s, TimeLeft(s, NANOS_PER_SECOND, e))
    case PTTL => if |a| != 1 then (slot, Fail(WrongArity)) else (s, TimeLeft(s, NANOS_PER_MILLI, e))
    case PERSIST =>
      if |a| != 1 then (slot, Fail(WrongArity))
      else if s.deadline.None? then (s, Int(0))
      else (s.(deadline := None), Int(1))
  }

  // ------------------------------------------------------------ single-key commands

  predicate SingleKey(c: Cmd) {
    c.OnString? || c.OnList? || c.OnSet? || c.OnHash? || c.OnDeadline?
  }

  ghost function OnKey(c: Cmd, a: seq<Bytes>, slot: Slot, e: Env): (Slot, Reply)
    requires |a| > 0 && SingleKey(c)
  {
    match c
    case OnString(op) => DoString(op, a, slot, e)
    case OnList(op) => DoList(op, a, slot, e)
    case OnSet(op) => DoSet(op, a, slot, e)
    case OnHash(op) => DoHash(op, a, slot, e)
    case OnDeadline(op) => DoDeadline(op, a, slot, e)
  }

  // ------------------------------------------------------------- multi-key commands

  function Holdings(s: Slot): nat {
    (if s.text.Some? then 1 else 0) + (if s.list.Some? then 1 else 0)
    + (if s.members.Some? then 1 else 0) + (if s.fields.Some? then 1 else 0)
  }

  /** DEL: each key is evicted if due, then every type it holds counts once. */
  function DeleteKeys(keys: seq<Bytes>, db: DB, now: int): (DB, nat) {
    if keys == [] then (db, 0)
    else
      var (db', n) := DeleteKeys(keys[1..], With(db, keys[0], VACANT), now);
      (db', Holdings(Evict(At(db, keys[0]), now)) + n)
  }

  function CountExisting(keys: seq<Bytes>, db: DB, now: int): (DB, nat) {
    if keys == [] then (db, 0)
    else
      var (db', n) := CountExisting(keys[1..], EvictKey(db, keys[0], now), now);
      (db', (if Exists(Evict(At(db, keys[0]), now)) then 1 else 0) + n)
  }

  function EvictAll(keys: seq<Bytes>, db: DB, now: int): DB {
    if keys == [] then db else EvictAll(keys[1..], EvictKey(db, keys[0], now), now)
  }

  function Texts(keys: seq<Bytes>, db: DB): (r: seq<Reply>)
    ensures |r| == |keys|
  {
    seq(|keys|, i requires 0 <= i < |keys| => if keys[i] in db.store then Bulk(db.store[keys[i]]) else Nil)
  }

  function StorePairs(args: seq<Bytes>, db: DB): DB {
    if |args| < 2 then db
    else StorePairs(args[2..], With(db, args[0], At(db, args[0]).(text := Some(args[1]), deadline := None)))
  }

  /** One scan of a blocking pop: the first key with an item gives it up. */
  function ScanPop(keys: seq<Bytes>, db: DB, left: bool, now: int): (DB, Option<(Bytes, Bytes)>) {
    if keys == [] then (db, None)
    else
      var (s, v) := PopEnd(Evict(At(db, keys[0]), now), left);
      if v.Some? then (With(db, keys[0], s), Some((keys[0], v.value)))
      else ScanPop(keys[1..], With(db, keys[0], s), left, now)
  }

  /** The sets under some keys. SINTER stops at the first missing one; SUNION and SDIFF skip it. */
  function Gather(keys: seq<Bytes>, db: DB, stopAtMissing: bool, now: int): (DB, bool, seq<set<Bytes>>) {
    if keys == [] then (db, true, [])
    else
      var s := Evict(At(db, keys[0]), now);
      var db' := With(db, keys[0], s);
      match s.members
      case None =>
        if stopAtMissing then (db', false, []) else Gather(keys[1..], db', stopAtMissing, now)
      case Some(members) =>
        var (db'', complete, rest) := Gather(keys[1..], db', stopAtMissing, now);
        (db'', complete, [members] + rest)
  }

  function Intersection(sets: seq<set<Bytes>>): set<Bytes> {
    if sets == [] then {} else if |sets| == 1 then sets[0] else sets[0] * Intersection(sets[1..])
  }

  function Union(sets: seq<set<Bytes>>): set<Bytes> {
    if sets == [] then {} else sets[0] + Union(sets[1..])
  }

  lemma {:induction false} IntersectionIs(sets: seq<set<Bytes>>, m: Bytes)
    requires sets != []
    ensures m in Intersection(sets) <==> forall i :: 0 <= i < |sets| ==> m in sets[i]
  {
    if |sets| > 1 {
      IntersectionIs(sets[1..], m);
      assert forall i :: 0 <= i < |sets[1..]| ==> sets[1..][i] == sets[i + 1];
      assert (forall i :: 0 <= i < |sets| ==> m in sets[i]) ==> m in sets[0];
      if m in sets[0] && forall i :: 0 <= i < |sets[1..]| ==> m in sets[1..][i] {
        forall i | 0 <= i < |sets|
          ensures m in sets[i]
        {
          assert i > 0 ==> m in sets[1..][i - 1];
        }
      }
    }
  }

  lemma {:induction false} UnionIs(sets: seq<set<Bytes>>, m: Bytes)
    ensures m in Union(sets) <==> exists i :: 0 <= i < |sets| && m in sets[i]
  {
    if sets != [] {
      UnionIs(sets[1..], m);
      if m in Union(sets[1..]) {
        var i :| 0 <= i < |sets[1..]| && m in sets[1..][i];
        assert m in sets[i + 1];
      }
      if i :| 0 <= i < |sets| && m in sets[i] {
        assert i > 0 ==> m in sets[1..][i - 1];
      }
    }
  }

  function Inter(keys: seq<Bytes>, db: DB, now: int): (DB, Reply) {
    var (db', complete, sets) := Gather(keys, db, true, now);
    (db', Members(if complete then Intersection(sets) else {}))
  }

  function Diff(keys: seq<Bytes>, db: DB, now: int): (DB, Reply)
    requires keys != []
  {
    var s := Evict(At(db, keys[0]), now);
    var db' := With(db, keys[0], s);
    match s.members
    case None => (db', Members({}))
    case Some(members) =>
      var (db'', _, others) := Gather(keys[1..], db', false, now);
      (db'', Members(members - Union(others)))
  }

  function MatchPattern(a: seq<Bytes>, i: nat, pattern: Bytes): Bytes
    decreases |a| - i
  {
    if i + 1 >= |a| then pattern
    else MatchPattern(a, i + 1, if a[i] == "MATCH" || a[i] == "match" then a[i + 1] else pattern)
  }

  function KeysReply(db: DB, pattern: Bytes): Reply {
    KeysLike(pattern, db.store.Keys, db.lists.Keys, db.sets.Keys, db.hashes.Keys)
  }

  /**
   A blocking pop at the moment it answers: the scan that finds an item, or the one after its deadline that
   finds none. The scans in between, which only park the caller, are not steps.
   */
  function BlockingPop(a: seq<Bytes>, db: DB, left: bool, e: Env): (DB, Reply) {
    if |a| < 2 then (db, Fail(WrongArity))
    else if !e.timeoutOk then (db, Fail(BadTimeout))
    else
      var (db', popped) := ScanPop(a[..|a| - 1], db, left, e.now);
      (db', if popped.Some? then Many([Bulk(popped.value.0), Bulk(popped.value.1)]) else Nil)
  }

  function DoKeys(op: KeysOp, a: seq<Bytes>, db: DB, e: Env): (DB, Reply)
  {
    match op
    case DEL =>
      if |a| < 1 then (db, Fail(WrongArity)) else var (db', n) := DeleteKeys(a, db, e.now); (db', Int(n))
    case EXISTS =>
      if |a| < 1 then (db, Fail(WrongArity)) else var (db', n) := CountExisting(a, db, e.now); (db', Int(n))
    case MSET =>
      if |a| < 2 || |a| % 2 != 0 then (db, Fail(WrongArity)) else (StorePairs(a, db), OK)
    case MGET =>
      if |a| < 1 then (db, Fail(WrongArity))
      else var db' := EvictAll(a, db, e.now); (db', Many(Texts(a, db')))
    case SINTER =>
      if |a| < 1 then (db, Fail(WrongArity)) else Inter(a, db, e.now)
    case SUNION =>
      if |a| < 1 then (db, Fail(WrongArity))
      else var (db', _, sets) := Gather(a, db, false, e.now); (db', Members(Union(sets)))
    case SDIFF =>
      if |a| < 1 then (db, Fail(WrongArity)) else Diff(a, db, e.now)
    case BLPOP => BlockingPop(a, db, true, e)
    case BRPOP => BlockingPop(a, db, false, e)
  }

  function DoKeyspace(op: KeyspaceOp, a: seq<Bytes>, db: DB, e: Env): (DB, Reply)
  {
    var swept := Sweep(db, e.now);
    match op
    case KEYS => if |a| != 1 then (db, Fail(WrongArity)) else (swept, KeysReply(swept, a[0]))
    case SCAN =>
      if |a| < 1 then (db, Fail(WrongArity))
      else if Atoi(a[0]).None? then (db, Fail(InvalidCursor))
      else (swept, Many([Bulk("0"), KeysReply(swept, MatchPattern(a, 1, "*"))]))
    case DBSIZE =>
      (swept, Int(TotalKeys(swept)))
  }

  /** The handler tables, by upper-case name. */
  function FindCommand(name: Bytes): Option<Cmd> {
    match name
    case "SET" => Some(OnString(SET))
    case "GET" => Some(OnString(GET))
    case "TYPE" => Some(OnString(TYPE))
    case "INCR" => Some(OnString(INCR))
    case "DECR" => Some(OnString(DECR))
    case "INCRBY" => Some(OnString(INCRBY))
    case "DECRBY" => Some(OnString(DECRBY))
    case "LPUSH" => Some(OnList(LPUSH))
    case "RPUSH" => Some(OnList(RPUSH))
    case "LPOP" => Some(OnList(LPOP))
    case "RPOP" => Some(OnList(RPOP))
    case "LRANGE" => Some(OnList(LRANGE))
    case "LLEN" => Some(OnList(LLEN))
    case "LINDEX" => Some(OnList(LINDEX))
    case "LSET" => Some(OnList(LSET))
    case "LREM" => Some(OnList(LREM))
    case "SADD" => Some(OnSet(SADD))
    case "SREM" => Some(OnSet(SREM))
    case "SISMEMBER" => Some(OnSet(SISMEMBER))
    case "SMEMBERS" => Some(OnSet(SMEMBERS))
    case "SCARD" => Some(OnSet(SCARD))
    case "SPOP" => Some(OnSet(SPOP))
    case "HSET" => Some(OnHash(HSET))
    case "HGET" => Some(OnHash(HGET))
    case "HDEL" => Some(OnHash(HDEL))
    case "HEXISTS" => Some(OnHash(HEXISTS))
    case "HGETALL" => Some(OnHash(HGETALL))
    case "HKEYS" => Some(OnHash(HKEYS))
    case "HVALS" => Some(OnHash(HVALS))
    case "HLEN" => Some(OnHash(HLEN))
    case "HMSET" => Some(OnHash(HMSET))
    case "HMGET" => Some(OnHash(HMGET))
    case "HINCRBY" => Some(OnHash(HINCRBY))
    case "EXPIRE" => Some(OnDeadline(EXPIRE))
    case "PEXPIRE" => Some(OnDeadline(PEXPIRE))
    case "TTL" => Some(OnDeadline(TTL))
    case "PTTL" => Some(OnDeadline(PTTL))
    case "PERSIST" => Some(OnDeadline(PERSIST))
    case "DEL" => Some(OnKeys(DEL))
    case "EXISTS" => Some(OnKeys(EXISTS))
    case "MSET" => Some(OnKeys(MSET))
    case "MGET" => Some(OnKeys(MGET))
    case "BLPOP" => Some(OnKeys(BLPOP))
    case "BRPOP" => Some(OnKeys(BRPOP))
    case "SINTER" => Some(OnKeys(SINTER))
    case "SUNION" => Some(OnKeys(SUNION))
    case "SDIFF" => Some(OnKeys(SDIFF))
    case "KEYS" => Some(OnKeyspace(KEYS))
    case "SCAN" => Some(OnKeyspace(SCAN))
    case "DBSIZE" => Some(OnKeyspace(DBSIZE))
    case "PING" => Some(OnServer(PING))
    case "HELLO" => Some(OnServer(HELLO))
    case "COMMAND" => Some(OnServer(COMMAND))
    case "PUBLISH" => Some(OnServer(PUBLISH))
    case "SAVE" => Some(OnServer(SAVE))
    case "BGSAVE" => Some(OnServer(BGSAVE))
    case "LASTSAVE" => Some(OnServer(LASTSAVE))
    case _ => None
  }

  // --------------------------------------------------------------- the command table

  /** The columns of `commandSpecs`: arity (negative for "at least"), first key, last key, step. */
  datatype Spec = Spec(arity: int, firstKey: nat, lastKey: int, step: nat)

  function KeysSpec(op: KeysOp): Spec {
    match op
    case DEL => Spec(-2, 1, -1, 1)
    case EXISTS => Spec(-2, 1, -1, 1)
    case MSET => Spec(-3, 1, -1, 2)
    case MGET => Spec(-2, 1, -1, 1)
    case BLPOP => Spec(-3, 1, -2, 1)
    case BRPOP => Spec(-3, 1, -2, 1)
    case SINTER => Spec(-2, 1, -1, 1)
    case SUNION => Spec(-2, 1, -1, 1)
    case SDIFF => Spec(-2, 1, -1, 1)
  }

  function StringArity(op: StringOp): int {
    match op
    case SET => 3 case GET => 2 case TYPE => 2 case INCR => 2 case DECR => 2 case INCRBY => 3 case DECRBY => 3
  }

  function ListArity(op: ListOp): int {
    match op
    case LPUSH => -3 case RPUSH => -3 case LPOP => 2 case RPOP => 2
    case LRANGE => 4 case LLEN => 2 case LINDEX => 3 case LSET => 4 case LREM => 4
  }

  function SetArity(op: SetOp): int {
    match op
    case SADD => -3 case SREM => -3 case SISMEMBER => 3 case SMEMBERS => 2 case SCARD => 2 case SPOP => 2
  }

  function HashArity(op: HashOp): int {
    match op
    case HSET => 4 case HGET => 3 case HDEL => -3 case HEXISTS => 3 case HGETALL => 2 case HKEYS => 2
    case HVALS => 2 case HLEN => 2 case HMSET => -4 case HMGET => -3 case HINCRBY => 4
  }

  function DeadlineArity(op: DeadlineOp): int {
    match op
    case EXPIRE => 3 case PEXPIRE => 3 case TTL => 2 case PTTL => 2 case PERSIST => 2
  }

  function KeyspaceArity(op: KeyspaceOp): int {
    match op case KEYS => 2 case SCAN => -2 case DBSIZE => 1
  }

  function ServerArity(op: ServerOp): int {
    match op
    case PING => -1 case HELLO => -1 case COMMAND => -1 case PUBLISH => 3
    case SAVE => 1 case BGSAVE => 1 case LASTSAVE => 1
  }

  function SpecOf(c: Cmd): Spec {
    match c
    case OnString(op) => Spec(StringArity(op), 1, 1, 1)
    case OnList(op) => Spec(ListArity(op), 1, 1, 1)
    case OnSet(op) => Spec(SetArity(op), 1, 1, 1)
    case OnHash(op) => Spec(HashArity(op), 1, 1, 1)
    case OnDeadline(op) => Spec(DeadlineArity(op), 1, 1, 1)
    case OnKeys(op) => KeysSpec(op)
    case OnKeyspace(op) => Spec(KeyspaceArity(op), 0, 0, 0)
    case OnServer(op) => Spec(ServerArity(op), 0, 0, 0)
  }

  // ------------------------------------------------------------------- GETKEYS

  /** Every `step`-th argument from index `i` up to, not including, `last` or the end. */
  function Strided(a: seq<Bytes>, i: nat, last: int, step: nat): seq<Bytes>
    requires step > 0
    decreases |a| - i
  {
    if i < last && i < |a| then [a[i]] + Strided(a, i + step, last, step) else []
  }

  /** The exclusive end of the key arguments: a negative last key counts from the end. */
  function LastKey(spec: Spec, length: nat): int {
    var last := if spec.lastKey < 0 then length + spec.lastKey + 1 else spec.lastKey;
    if last <= spec.firstKey then spec.firstKey else last
  }

  /** The reply to COMMAND GETKEYS, or nothing where it is an error. */
  function KeysOf(c: Cmd, a: seq<Bytes>): Option<seq<Bytes>> {
    var spec := SpecOf(c);
    if spec.firstKey == 0 || spec.firstKey - 1 >= |a| then None
    else
      var keys := Strided(a, spec.firstKey - 1, LastKey(spec, |a|), spec.step);
      if keys == [] then None else Some(keys)
  }

  /** COMMAND GETKEYS on a command name and its arguments. */
  function GetKeysReply(name: Bytes, args: seq<Bytes>): Reply {
    match FindCommand(ToUpper(name))
    case None => Fail(NoKeyArguments)
    case Some(c) =>
      if SpecOf(c).firstKey == 0 then Fail(NoKeyArguments)
      else if SpecOf(c).firstKey - 1 >= |args| then Fail(InvalidKeyArguments)
      else
        match KeysOf(c, args)
        case None => Fail(NoKeyArguments)
        case Some(keys) => Many(Bulks(keys))
  }

  function CommandReply(a: seq<Bytes>): Reply {
    if a == [] then Info
    else
      match ToUpper(a[0])
      case "COUNT" => Info
      case "LIST" => Info
      case "INFO" => Info
      case "DOCS" => Info
      case "GETKEYS" => if |a| < 2 then Fail(NoCommandName) else GetKeysReply(a[1], a[2..])
      case _ => Fail(UnknownSubcommand)
  }

  /** Commands that never look at a logical database; `Info` stands for a reply this model leaves out. */
  function ServerReply(op: ServerOp, a: seq<Bytes>): Reply {
    match op
    case PING => if |a| == 0 then Status("PONG") else Bulk(a[0])
    case HELLO => if |a| >= 1 && a[0] == "3" then Fail(NoProto) else Info
    case PUBLISH => if |a| != 2 then Fail(WrongArity) else Info
    case COMMAND => CommandReply(a)
    case _ => Info
  }

  ghost function AtKey(c: Cmd, a: seq<Bytes>, db: DB, e: Env): (DB, Reply)
    requires SingleKey(c)
  {
    if a == [] then (db, Fail(WrongArity))
    else var (s, r) := OnKey(c, a, At(db, a[0]), e); (With(db, a[0], s), r)
  }

  /** Every command as a function of the database, its arguments and the environment. */
  ghost function Exec(c: Cmd, a: seq<Bytes>, db: DB, e: Env): (DB, Reply) {
    match c
    case OnKeys(op) => DoKeys(op, a, db, e)
    case OnKeyspace(op) => DoKeyspace(op, a, db, e)
    case OnServer(op) => (db, ServerReply(op, a))
    case _ => AtKey(c, a, db, e)
  }

  /** The commands whose success is logged. */
  predicate Persisted(c: Cmd) {
    match c
    case OnString(op) => op.SET? || op.INCR? || op.DECR? || op.INCRBY? || op.DECRBY?
    case OnList(op) => op.LPUSH? || op.RPUSH? || op.LPOP? || op.RPOP? || op.LSET? || op.LREM?
    case OnSet(op) => op.SADD? || op.SREM? || op.SPOP?
    case OnHash(op) => op.HSET? || op.HDEL? || op.HMSET? || op.HINCRBY?
    case OnKeys(op) => op.DEL? || op.MSET? || op.BLPOP? || op.BRPOP?
    case _ => false
  }
}
