/**
 The handler table and the replay table: every command, and every logged command again, on one database object.
 */
module Handlers {
  import opened Wrappers
  import opened GoText
  import opened Resp
  import opened Containers
  import opened Keyspace
  import opened Commands
  import opened Database
  import opened Recovery
  import L = ListCommands
  import S = SetCommands
  import H = HashCommands
  import T = StringCommands
  import R = ReadCommands
  import M = ManyKeys
  import GetKeys
  import Replayer
  import Replay

  // ------------------------------------------------------------ the handler table

  lemma SamePick(e: Env)
    ensures e.(pick := e.pick) == e
  {
  }

  method ExecuteString(op: StringOp, args: seq<Bytes>, db: Database, e: Env) returns (reply: Reply)
    requires db.Valid()
    modifies db
    ensures db.Valid() && db.Repr() <= old(db.Repr())
    ensures (db.Model(), reply) == Exec(OnString(op), args, old(db.Model()), e)
  {
    hide *;
    match op {
      case SET => reply := T.SetCommand(args, db, e);
      case GET => reply := R.Get(args, db, e);
      case TYPE => reply := R.TypeCommand(args, db, e);
      case INCR => reply := T.Step(op, args, db, e);
      case DECR => reply := T.Step(op, args, db, e);
      case INCRBY => reply := T.StepBy(op, args, db, e);
      case DECRBY => reply := T.StepBy(op, args, db, e);
    }
  }

  method ExecuteList(op: ListOp, args: seq<Bytes>, db: Database, e: Env) returns (reply: Reply)
    requires db.Valid()
    modifies db.Repr()
    ensures db.Valid() && fresh(db.Repr() - old(db.Repr()))
    ensures (db.Model(), reply) == Exec(OnList(op), args, old(db.Model()), e)
  {
    hide *;
    db.ModelIs();
    match op {
      case LPUSH => reply := L.Push(op, args, db, e);
      case RPUSH => reply := L.Push(op, args, db, e);
      case LPOP => reply := L.Pop(op, args, db, e);
      case RPOP => reply := L.Pop(op, args, db, e);
      case LSET => reply := L.LSet(args, db, e);
      case LREM => reply := L.LRem(args, db, e);
      case LRANGE => reply := R.LRange(args, db, e);
      case LLEN => reply := R.LLen(args, db, e);
      case LINDEX => reply := R.LIndex(args, db, e);
    }
  }

  method ExecuteSet(op: SetOp, args: seq<Bytes>, db: Database, e: Env) returns (reply: Reply, ghost pick: Bytes)
    requires db.Valid()
    modifies db.Repr()
    ensures db.Valid() && fresh(db.Repr() - old(db.Repr()))
    ensures (db.Model(), reply) == Exec(OnSet(op), args, old(db.Model()), e.(pick := pick))
  {
    hide *;
    SamePick(e);
    db.ModelIs();
    pick := e.pick;
    match op {
      case SADD => reply := S.SAdd(args, db, e);
      case SREM => reply := S.SRem(args, db, e);
      case SPOP => reply, pick := S.SPop(args, db, e);
      case SISMEMBER => reply := R.SIsMember(args, db, e);
      case SMEMBERS => reply := R.SMembers(args, db, e);
      case SCARD => reply := R.SCard(args, db, e);
    }
  }

  method ExecuteHash(op: HashOp, args: seq<Bytes>, db: Database, e: Env) returns (reply: Reply)
    requires db.Valid()
    modifies db.Repr()
    ensures db.Valid() && fresh(db.Repr() - old(db.Repr()))
    ensures (db.Model(), reply) == Exec(OnHash(op), args, old(db.Model()), e)
  {
    hide *;
    db.ModelIs();
    if op == HSET {
      reply := H.HSet(args, db, e);
    } else if op == HDEL {
      reply := H.HDel(args, db, e);
    } else if op == HMSET {
      reply := H.HMSet(args, db, e);
    } else if op == HINCRBY {
      reply := H.HIncrBy(args, db, e);
    } else {
      reply := LookAtHash(op, args, db, e);
    }
  }

  method LookAtHash(op: HashOp, args: seq<Bytes>, db: Database, e: Env) returns (reply: Reply)
    requires db.Valid() && op != HSET && op != HDEL && op != HMSET && op != HINCRBY
    modifies db
    ensures db.Valid() && db.Repr() <= old(db.Repr())
    ensures (db.Model(), reply) == Exec(OnHash(op), args, old(db.Model()), e)
  {
    hide *;
    match op {
      case HGET => reply := R.HGet(args, db, e);
      case HEXISTS => reply := R.HExists(args, db, e);
      case HGETALL => reply := R.HGetAll(args, db, e);
      case HKEYS => reply := R.HKeys(args, db, e);
      case HVALS => reply := R.HVals(args, db, e);
      case HLEN => reply := R.HLen(args, db, e);
      case HMGET => reply := R.HMGet(args, db, e);
    }
  }

  method ExecuteDeadline(op: DeadlineOp, args: seq<Bytes>, db: Database, e: Env) returns (reply: Reply)
    requires db.Valid()
    modifies db
    ensures db.Valid() && db.Repr() <= old(db.Repr())
    ensures (db.Model(), reply) == Exec(OnDeadline(op), args, old(db.Model()), e)
  {
    hide *;
    match op {
      case EXPIRE => reply := T.Expire(op, args, db, e);
      case PEXPIRE => reply := T.Expire(op, args, db, e);
      case PERSIST => reply := T.Persist(args, db, e);
      case TTL => reply := R.TimeLeftCommand(op, args, db, e);
      case PTTL => reply := R.TimeLeftCommand(op, args, db, e);
    }
  }

  method ExecuteKeys(op: KeysOp, args: seq<Bytes>, db: Database, e: Env) returns (reply: Reply)
    requires db.Valid()
    modifies db.Repr()
    ensures db.Valid() && db.Repr() <= old(db.Repr())
    ensures (db.Model(), reply) == Exec(OnKeys(op), args, old(db.Model()), e)
  {
    hide *;
    db.ModelIs();
    match op {
      case DEL => reply := T.Del(args, db, e);
      case EXISTS => reply := M.ExistsCommand(args, db, e);
      case MSET => reply := T.MSet(args, db, e);
      case MGET => reply := M.MGet(args, db, e);
      case BLPOP => reply := L.BlockingPop(op, args, db, e);
      case BRPOP => reply := L.BlockingPop(op, args, db, e);
      case SINTER => reply := M.SInter(args, db, e);
      case SUNION => reply := M.SUnion(args, db, e);
      case SDIFF => reply := M.SDiff(args, db, e);
    }
  }

  lemma ServerExec(op: ServerOp, a: seq<Bytes>, m: DB, e: Env)
    ensures Exec(OnServer(op), a, m, e) == (m, ServerReply(op, a))
    ensures op == COMMAND ==> ServerReply(op, a) == CommandReply(a)
  {
  }

  /** The handler of every command, on any database; `pick` is SPOP's choice if it made one. */
  method Execute(c: Cmd, args: seq<Bytes>, db: Database, e: Env) returns (reply: Reply, ghost pick: Bytes)
    requires db.Valid()
    modifies db.Repr()
    ensures db.Valid() && fresh(db.Repr() - old(db.Repr()))
    ensures (db.Model(), reply) == Exec(c, args, old(db.Model()), e.(pick := pick))
  {
    hide *;
    SamePick(e);
    db.ModelIs();
    pick := e.pick;
    match c {
      case OnString(op) => reply := ExecuteString(op, args, db, e);
      case OnList(op) => reply := ExecuteList(op, args, db, e);
      case OnSet(op) => reply, pick := ExecuteSet(op, args, db, e);
      case OnHash(op) => reply := ExecuteHash(op, args, db, e);
      case OnDeadline(op) => reply := ExecuteDeadline(op, args, db, e);
      case OnKeys(op) => reply := ExecuteKeys(op, args, db, e);
      case OnKeyspace(op) => reply := M.Enumerate(op, args, db, e);
      case OnServer(op) =>
        ServerExec(op, args, db.Model(), e);
        if op == COMMAND {
          reply := GetKeys.Command(args);
          db.ModelIs();
        } else {
          reply := ServerReply(op, args);
        }
    }
  }

  // --------------------------------------------------------------- replayCommand

  lemma NotReplayed(c: Cmd, a: seq<Bytes>, m: DB, now: int, pick: Bytes)
    requires !Persisted(c)
    ensures Replay.Replay(c, a, m, now, pick) == m
  {
    if a != [] {
      SelfWith(m, a[0]);
    }
    hide With, At;
  }

  lemma PopReplay(op: ListOp, a: seq<Bytes>, m: DB, now: int, pick: Bytes)
    requires op == LPOP || op == RPOP
    ensures Replay.Replay(OnList(op), a, m, now, pick) == ScanPop(a, m, op == LPOP, now).0
  {
    hide ScanPop;
  }

  lemma KeysReplay(op: KeysOp, a: seq<Bytes>, m: DB, now: int, pick: Bytes)
    requires op.DEL? || op.MSET? || op.BLPOP? || op.BRPOP?
    ensures Replay.Replay(OnKeys(op), a, m, now, pick) ==
            if op == DEL then DeleteKeys(a, m, now).0
            else if op == MSET then if |a| >= 2 && |a| % 2 == 0 then StorePairs(a, m) else m
            else if |a| >= 2 then ScanPop(a[..|a| - 1], m, op == BLPOP, now).0
            else m
  {
    hide ScanPop, DeleteKeys, StorePairs;
  }

  method ReplayList(op: ListOp, args: seq<Bytes>, db: Database, now: int, ghost pick: Bytes)
    requires db.Valid() && Persisted(OnList(op))
    modifies db.Repr()
    ensures db.Valid() && fresh(db.Repr() - old(db.Repr()))
    ensures db.Model() == Replay.Replay(OnList(op), args, old(db.Model()), now, pick)
  {
    assert op == LPUSH || op == RPUSH || op == LPOP || op == RPOP || op == LSET || op == LREM;
    hide *;
    if op == LPUSH || op == RPUSH {
      Replayer.ReplayPush(op, args, db, now, pick);
    } else if op == LPOP || op == RPOP {
      PopReplay(op, args, db.Model(), now, pick);
      var _ := L.Scan(args, db, op == LPOP, now);
    } else {
      Replayer.ReplayEdit(op, args, db, now, pick);
    }
  }

  method ReplaySet(op: SetOp, args: seq<Bytes>, db: Database, now: int) returns (ghost pick: Bytes)
    requires db.Valid() && Persisted(OnSet(op))
    modifies db.Repr()
    ensures db.Valid() && fresh(db.Repr() - old(db.Repr()))
    ensures db.Model() == Replay.Replay(OnSet(op), args, old(db.Model()), now, pick)
  {
    assert op == SADD || op == SREM || op == SPOP;
    hide *;
    pick := "";
    if op == SADD {
      Replayer.ReplaySAdd(args, db, now, pick);
    } else if op == SREM {
      Replayer.ReplaySRem(args, db, now, pick);
    } else {
      pick := Replayer.ReplaySPop(args, db, now);
    }
  }

  method ReplayHash(op: HashOp, args: seq<Bytes>, db: Database, now: int, ghost pick: Bytes)
    requires db.Valid() && Persisted(OnHash(op))
    modifies db.Repr()
    ensures db.Valid() && fresh(db.Repr() - old(db.Repr()))
    ensures db.Model() == Replay.Replay(OnHash(op), args, old(db.Model()), now, pick)
  {
    assert op == HSET || op == HMSET || op == HDEL || op == HINCRBY;
    hide *;
    if op == HSET || op == HMSET {
      Replayer.ReplayHashPut(op, args, db, now, pick);
    } else if op == HDEL {
      Replayer.ReplayHDel(args, db, now, pick);
    } else {
      Replayer.ReplayHIncrBy(args, db, now, pick);
    }
  }

  method ReplayKeys(op: KeysOp, args: seq<Bytes>, db: Database, now: int, ghost pick: Bytes)
    requires db.Valid() && Persisted(OnKeys(op))
    modifies db.Repr()
    ensures db.Valid() && db.Repr() <= old(db.Repr())
    ensures db.Model() == Replay.Replay(OnKeys(op), args, old(db.Model()), now, pick)
  {
    assert op.DEL? || op.MSET? || op.BLPOP? || op.BRPOP?;
    hide *;
    KeysReplay(op, args, db.Model(), now, pick);
    db.ModelIs();
    if op == DEL {
      var _ := T.DeleteAll(args, db, now);
    } else if op == MSET {
      if |args| >= 2 && |args| % 2 == 0 {
        T.StoreAll(args, db);
      }
    } else if |args| >= 2 {
      var _ := L.Scan(args[..|args| - 1], db, op == BLPOP, now);
    }
  }

  method ReplayLogged(c: Cmd, args: seq<Bytes>, db: Database, now: int) returns (ghost pick: Bytes)
    requires db.Valid() && Persisted(c)
    modifies db.Repr()
    ensures db.Valid() && fresh(db.Repr() - old(db.Repr()))
    ensures db.Model() == Replay.Replay(c, args, old(db.Model()), now, pick)
  {
    assert c.OnString? || c.OnList? || c.OnSet? || c.OnHash? || c.OnKeys?;
    hide *;
    pick := "";
    db.ModelIs();
    if c.OnString? {
      Replayer.ReplayStringOp(c.s, args, db, now, pick);
    } else if c.OnList? {
      ReplayList(c.l, args, db, now, pick);
    } else if c.OnSet? {
      pick := ReplaySet(c.m, args, db, now);
    } else if c.OnHash? {
      ReplayHash(c.h, args, db, now, pick);
    } else {
      ReplayKeys(c.k, args, db, now, pick);
    }
  }

  lemma ReplayValueIs(v: Value, m: DB, now: int, pick: Bytes)
    ensures ReplayValue(v, m, now, pick) ==
            if v.Array? && v.items != [] && CommandOf(v).Some? && Persisted(CommandOf(v).value)
            then Replay.Replay(CommandOf(v).value, ArgsOf(v), m, now, pick)
            else m
  {
    if v.Array? && v.items != [] && CommandOf(v).Some? && !Persisted(CommandOf(v).value) {
      NotReplayed(CommandOf(v).value, ArgsOf(v), m, now, pick);
    }
    hide Replay.Replay, FindCommand, Persisted;
  }

  /** `replayCommand`: anything but a logged command is passed over. */
  method ReplayCommand(value: Value, db: Database, now: int) returns (ghost pick: Bytes)
    requires db.Valid()
    modifies db.Repr()
    ensures db.Valid() && fresh(db.Repr() - old(db.Repr()))
    ensures db.Model() == ReplayValue(value, old(db.Model()), now, pick)
  {
    hide *;
    pick := "";
    ghost var m := db.Model();
    ReplayValueIs(value, m, now, pick);
    if !value.Array? || value.items == [] {
      return;
    }
    var c := CommandOf(value);
    if c.None? || !Persisted(c.value) {
      return;
    }
    pick := ReplayLogged(c.value, ArgsOf(value), db, now);
    ReplayValueIs(value, m, now, pick);
  }
}
