/**
 Lists as queues: nothing pushed is lost or duplicated, and pushing at the tail and popping at the head is
 first in, first out, over any run of pushes and pops on any keys.
 */
module Queue {
  import opened Wrappers
  import opened GoText
  import opened Containers
  import opened Keyspace
  import opened Commands
  import opened Wire

  /** The list commands that add and remove items, as requests. */
  datatype Op =
    | Push(left: bool, key: Bytes, values: seq<Bytes>)
    | Pop(left: bool, key: Bytes)
    | BPop(left: bool, keys: seq<Bytes>, timeout: Bytes)

  /** The words of the request, as they stand on the wire. */
  function Request(op: Op): seq<Bytes> {
    match op
    case Push(left, key, values) => [if left then "LPUSH" else "RPUSH"] + ([key] + values)
    case Pop(left, key) => [if left then "LPOP" else "RPOP"] + [key]
    case BPop(left, keys, timeout) => [if left then "BLPOP" else "BRPOP"] + (keys + [timeout])
  }

  ghost function Step(op: Op, db: DB, e: Env): (DB, Reply) {
    Ask(Request(op), db, e)
  }

  /** The command that the request's first word stands for, and its arguments. */
  function Command(op: Op): (Cmd, seq<Bytes>) {
    match op
    case Push(left, key, values) => (OnList(if left then LPUSH else RPUSH), [key] + values)
    case Pop(left, key) => (OnList(if left then LPOP else RPOP), [key])
    case BPop(left, keys, timeout) => (OnKeys(if left then BLPOP else BRPOP), keys + [timeout])
  }

  lemma StepRuns(op: Op, db: DB, e: Env)
    ensures Step(op, db, e) == Exec(Command(op).0, Command(op).1, db, e)
  {
    var (c, a) := Command(op);
    ListNames();
    KeysNames();
    hide Says, Ask, Exec;
    Asks(Request(op)[0], a, c, db, e);
    assert Request(op) == [Request(op)[0]] + a;
  }

  /** What a request hands to the list at `key`; a push without values is refused. */
  function Pushed(op: Op, key: Bytes): seq<Bytes> {
    if op.Push? && op.key == key then op.values else []
  }

  /** What the reply hands out from the list at `key`. */
  function Popped(op: Op, r: Reply, key: Bytes): seq<Bytes> {
    match op
    case Push(_, _, _) => []
    case Pop(_, k) => if k == key && r.Bulk? then [r.text] else []
    case BPop(_, _, _) =>
      if r.Many? && |r.items| == 2 && r.items[0] == Bulk(key) && r.items[1].Bulk? then [r.items[1].text] else []
  }

  function Items(db: DB, key: Bytes): seq<Bytes> {
    At(db, key).list.GetOr([])
  }

  ghost predicate Undying(db: DB, key: Bytes) {
    At(db, key).deadline == None
  }

  // ------------------------------------------------------------------ one step

  lemma PushStep(op: Op, db: DB, e: Env, key: Bytes)
    requires op.Push? && Undying(db, key)
    ensures var (db', _) := Step(op, db, e);
            && Undying(db', key)
            && Items(db', key) ==
               if op.key != key then Items(db, key)
               else if op.left then Reversed(op.values) + Items(db, key)
               else Items(db, key) + op.values
  {
    StepRuns(op, db, e);
    hide Ask;
    var a := [op.key] + op.values;
    assert a[1..] == op.values;
    var s := OnKey(Command(op).0, a, At(db, op.key), e).0;
    AtWith(db, op.key, s, key);
    LPushedReverses(Items(db, op.key), op.values);
  }

  /** An end popped: `v` came off one end of `before` and `after` is what is left. */
  predicate TakenFrom(before: seq<Bytes>, v: Bytes, after: seq<Bytes>, left: bool) {
    before == if left then [v] + after else after + [v]
  }

  lemma PopEndTakes(s: Slot, left: bool)
    ensures var (s', v) := PopEnd(s, left);
            && s'.deadline == s.deadline
            && (v.None? ==> s'.list.GetOr([]) == s.list.GetOr([]))
            && (v.Some? ==> TakenFrom(s.list.GetOr([]), v.value, s'.list.GetOr([]), left))
  {
  }

  lemma PopStep(op: Op, db: DB, e: Env, key: Bytes)
    requires op.Pop? && Undying(db, key)
    ensures var (db', r) := Step(op, db, e);
            && Undying(db', key)
            && if Popped(op, r, key) == [] then Items(db', key) == Items(db, key)
               else
                 && |Popped(op, r, key)| == 1
                 && TakenFrom(Items(db, key), Popped(op, r, key)[0], Items(db', key), op.left)
  {
    StepRuns(op, db, e);
    hide Ask;
    var s := At(db, op.key);
    PopEndTakes(Evict(s, e.now), op.left);
    AtWith(db, op.key, OnKey(Command(op).0, [op.key], s, e).0, key);
  }

  lemma {:induction false} ScanStep(keys: seq<Bytes>, db: DB, left: bool, now: int, key: Bytes)
    requires Undying(db, key)
    ensures var (db', v) := ScanPop(keys, db, left, now);
            && Undying(db', key)
            && if v.Some? && v.value.0 == key then TakenFrom(Items(db, key), v.value.1, Items(db', key), left)
               else Items(db', key) == Items(db, key)
    decreases keys
  {
    if keys != [] {
      var s := Evict(At(db, keys[0]), now);
      PopEndTakes(s, left);
      var (s', v) := PopEnd(s, left);
      AtWith(db, keys[0], s', key);
      if v.None? {
        ScanStep(keys[1..], With(db, keys[0], s'), left, now, key);
      }
    }
  }

  lemma BPopStep(op: Op, db: DB, e: Env, key: Bytes)
    requires op.BPop? && Undying(db, key)
    ensures var (db', r) := Step(op, db, e);
            && Undying(db', key)
            && if Popped(op, r, key) == [] then Items(db', key) == Items(db, key)
               else
                 && |Popped(op, r, key)| == 1
                 && TakenFrom(Items(db, key), Popped(op, r, key)[0], Items(db', key), op.left)
  {
    StepRuns(op, db, e);
    hide Ask;
    var a := op.keys + [op.timeout];
    assert a[..|a| - 1] == op.keys;
    ScanStep(op.keys, db, op.left, e.now, key);
  }

  // ---------------------------------------------------------------------- runs

  ghost function End(run: seq<(Op, Env)>, db: DB): DB
    decreases run
  {
    if run == [] then db else End(run[1..], Step(run[0].0, db, run[0].1).0)
  }

  function AllPushed(run: seq<(Op, Env)>, key: Bytes): seq<Bytes> {
    if run == [] then [] else Pushed(run[0].0, key) + AllPushed(run[1..], key)
  }

  ghost function AllPopped(run: seq<(Op, Env)>, db: DB, key: Bytes): seq<Bytes>
    decreases run
  {
    if run == [] then []
    else
      var (db', r) := Step(run[0].0, db, run[0].1);
      Popped(run[0].0, r, key) + AllPopped(run[1..], db', key)
  }

  lemma {:induction false} ReversedKeepsItems(s: seq<Bytes>)
    ensures multiset(Reversed(s)) == multiset(s)
  {
    if s != [] {
      ReversedKeepsItems(s[1..]);
      assert s == [s[0]] + s[1..];
    }
  }

  lemma StepConserves(op: Op, db: DB, e: Env, key: Bytes)
    requires Undying(db, key)
    ensures var (db', r) := Step(op, db, e);
            && Undying(db', key)
            && multiset(Popped(op, r, key)) + multiset(Items(db', key))
               == multiset(Items(db, key)) + multiset(Pushed(op, key))
  {
    match op {
      case Push(_, _, values) =>
        PushStep(op, db, e, key);
        ReversedKeepsItems(values);
      case Pop(_, _) => PopStep(op, db, e, key);
      case BPop(_, _, _) => BPopStep(op, db, e, key);
    }
  }

  lemma JoinBags(first: seq<Bytes>, later: seq<Bytes>, end: seq<Bytes>, mid: seq<Bytes>, start: seq<Bytes>,
                 pushed: seq<Bytes>, more: seq<Bytes>)
    requires multiset(first) + multiset(mid) == multiset(start) + multiset(pushed)
    requires multiset(later) + multiset(end) == multiset(mid) + multiset(more)
    ensures multiset(first + later) + multiset(end) == multiset(start) + multiset(pushed + more)
  {
    assert multiset(first + later) == multiset(first) + multiset(later);
    assert multiset(pushed + more) == multiset(pushed) + multiset(more);
    BagSum(multiset(first), multiset(later), multiset(end), multiset(mid), multiset(start), multiset(pushed),
           multiset(more));
  }

  lemma BagSum(first: multiset<Bytes>, later: multiset<Bytes>, end: multiset<Bytes>, mid: multiset<Bytes>,
               start: multiset<Bytes>, pushed: multiset<Bytes>, more: multiset<Bytes>)
    requires first + mid == start + pushed
    requires later + end == mid + more
    ensures first + later + end == start + (pushed + more)
  {
    calc {
      first + later + end;
      first + (later + end);
      first + mid + more;
      start + (pushed + more);
    }
  }

  lemma JoinQueues(first: seq<Bytes>, later: seq<Bytes>, end: seq<Bytes>, mid: seq<Bytes>, start: seq<Bytes>,
                   pushed: seq<Bytes>, more: seq<Bytes>)
    requires first + mid == start + pushed && later + end == mid + more
    ensures first + later + end == start + (pushed + more)
  {
    calc {
      first + later + end;
      first + (later + end);
      first + mid + more;
      start + (pushed + more);
    }
  }

  /** Conservation: what was there and what was pushed is what was popped and what remains. */
  lemma {:induction false} QueueConserves(run: seq<(Op, Env)>, db: DB, key: Bytes)
    requires Undying(db, key)
    ensures multiset(AllPopped(run, db, key)) + multiset(Items(End(run, db), key))
            == multiset(Items(db, key)) + multiset(AllPushed(run, key))
    decreases run
  {
    if run != [] {
      var (op, e) := run[0];
      var (db', r) := Step(op, db, e);
      StepConserves(op, db, e, key);
      QueueConserves(run[1..], db', key);
      JoinBags(Popped(op, r, key), AllPopped(run[1..], db', key), Items(End(run[1..], db'), key), Items(db', key),
               Items(db, key), Pushed(op, key), AllPushed(run[1..], key));
    }
  }

  /** Only RPUSH, LPOP and BLPOP touch the list. */
  predicate FifoOp(op: Op) {
    match op
    case Push(left, _, _) => !left
    case Pop(left, _) => left
    case BPop(left, _, _) => left
  }

  lemma StepIsFifo(op: Op, db: DB, e: Env, key: Bytes)
    requires Undying(db, key) && FifoOp(op)
    ensures var (db', r) := Step(op, db, e);
            && Undying(db', key)
            && Popped(op, r, key) + Items(db', key) == Items(db, key) + Pushed(op, key)
  {
    match op {
      case Push(_, _, _) => PushStep(op, db, e, key);
      case Pop(_, _) => PopStep(op, db, e, key);
      case BPop(_, _, _) => BPopStep(op, db, e, key);
    }
  }

  /** First in, first out: the popped items followed by the list are the old list followed by the pushed items. */
  lemma {:induction false} QueueIsFifo(run: seq<(Op, Env)>, db: DB, key: Bytes)
    requires Undying(db, key) && forall i :: 0 <= i < |run| ==> FifoOp(run[i].0)
    ensures AllPopped(run, db, key) + Items(End(run, db), key) == Items(db, key) + AllPushed(run, key)
    decreases run
  {
    if run != [] {
      var (op, e) := run[0];
      var (db', r) := Step(op, db, e);
      assert FifoOp(op);
      StepIsFifo(op, db, e, key);
      QueueIsFifo(run[1..], db', key);
      JoinQueues(Popped(op, r, key), AllPopped(run[1..], db', key), Items(End(run[1..], db'), key), Items(db', key),
                 Items(db, key), Pushed(op, key), AllPushed(run[1..], key));
    }
  }
}
