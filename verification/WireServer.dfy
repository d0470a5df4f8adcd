/**
 The server's side of the names on the wire: which words are commands and which are refused, which are written to
 the log, how many arguments each takes, which arguments COMMAND GETKEYS calls keys, and what a request leaves alone.
 */
module WireServer {
  import opened Wrappers
  import opened GoText
  import opened Resp
  import opened Containers
  import opened Keyspace
  import opened Commands
  import AofLog
  import opened Recovery
  import opened Wire
  import GetKeys

  // --------------------------------------------------------------- known names

  /** The commands that have a handler. */
  predicate Known(name: Bytes) {
    match name
    case "SET" | "GET" | "TYPE" | "INCR" | "DECR" | "INCRBY" | "DECRBY" => true
    case "LPUSH" | "RPUSH" | "LPOP" | "RPOP" | "LRANGE" | "LLEN" | "LINDEX" | "LSET" | "LREM" => true
    case "SADD" | "SREM" | "SISMEMBER" | "SMEMBERS" | "SCARD" | "SPOP" => true
    case "HSET" | "HGET" | "HDEL" | "HEXISTS" | "HGETALL" | "HKEYS" | "HVALS" | "HLEN" => true
    case "HMSET" | "HMGET" | "HINCRBY" => true
    case "EXPIRE" | "PEXPIRE" | "TTL" | "PTTL" | "PERSIST" => true
    case "DEL" | "EXISTS" | "MSET" | "MGET" | "BLPOP" | "BRPOP" | "SINTER" | "SUNION" | "SDIFF" => true
    case "KEYS" | "SCAN" | "DBSIZE" => true
    case "PING" | "HELLO" | "COMMAND" | "PUBLISH" | "SAVE" | "BGSAVE" | "LASTSAVE" => true
    case _ => false
  }

  lemma KnownAre(name: Bytes)
    ensures FindCommand(name).Some? <==> Known(name)
  {
  }

  /** Any other word is refused, and nothing is touched. */
  lemma UnknownIsRefused(name: Bytes, a: seq<Bytes>, db: DB, e: Env)
    requires !Known(ToUpper(name))
    ensures Ask([name] + a, db, e) == (db, Fail(UnknownCommand))
  {
    KnownAre(ToUpper(name));
    Parts(name, a);
    hide FindCommand, Known, ToUpper;
  }

  // ------------------------------------------------------------------- the log

  /** The commands whose success is written to the file. */
  predicate Written(name: Bytes) {
    match name
    case "SET" | "INCR" | "DECR" | "INCRBY" | "DECRBY" | "DEL" | "MSET" => true
    case "LPUSH" | "RPUSH" | "LPOP" | "RPOP" | "LSET" | "LREM" | "BLPOP" | "BRPOP" => true
    case "SADD" | "SREM" | "SPOP" | "HSET" | "HDEL" | "HMSET" | "HINCRBY" => true
    case _ => false
  }

  lemma WrittenAre(name: Bytes)
    ensures FindCommand(name).Some? && Persisted(FindCommand(name).value) <==> Written(name)
  {
  }

  /** A request is logged exactly when its name is one of those and it did not fail. */
  lemma LoggedIff(name: Bytes, a: seq<Bytes>, db: DB, e: Env)
    ensures var v := Words([name] + a);
            v.Array? && v.items != [] &&
            (IsLogged(db, v, e) <==> Written(ToUpper(name)) && !Ask([name] + a, db, e).1.Fail?)
  {
    WrittenAre(ToUpper(name));
    Parts(name, a);
    hide FindCommand, Written, ToUpper, Persisted, Exec;
  }

  /**
   A request touches the database it is asked for and no other, and if it is logged the file grows by it, behind
   a SELECT of that database unless the last entry was for it too.
   */
  lemma OneDatabase(s: Server, i: nat, ws: seq<Bytes>, e: Env)
    requires |s.dbs| == 16 && i < 16 && ws != [] && WellFormed(Words(ws))
    ensures var r := Step(s, Request(i, Words(ws), e));
            && r.dbs == s.dbs[i := Ask(ws, s.dbs[i], e).0]
            && if Written(ToUpper(ws[0])) && !Ask(ws, s.dbs[i], e).1.Fail? then
                 && r.lastDB == i
                 && r.file == s.file
                              + (if s.lastDB == i then "" else Encode(Words(["SELECT", Itoa(i)])))
                              + Encode(Words(ws))
               else r.lastDB == s.lastDB && r.file == s.file
  {
    assert ws == [ws[0]] + ws[1..];
    hide Written, Process, ToUpper, Itoa, Encode, Sendable, FindCommand, Persisted;
    LoggedIff(ws[0], ws[1..], s.dbs[i], e);
    assert Words(["SELECT", Itoa(i)]) == AofLog.SelectMarker(i);
    Appended(s.file, if s.lastDB == i then "" else Encode(Words(["SELECT", Itoa(i)])), Encode(Words(ws)));
  }

  lemma Appended(file: Bytes, marker: Bytes, entry: Bytes)
    ensures file + (marker + entry) == file + marker + entry
  {
  }

  // ------------------------------------------------------------ argument counts

  /** The request is refused for its argument count, and then nothing is touched, exactly when they do not fit. */
  ghost predicate Takes(name: Bytes, a: seq<Bytes>, db: DB, e: Env, fits: bool) {
    var (after, r) := Ask([name] + a, db, e);
    && (r == Fail(WrongArity) <==> !fits)
    && (!fits ==> after == db)
  }

  lemma Counted(name: Bytes, c: Cmd, a: seq<Bytes>, db: DB, e: Env, fits: bool)
    requires Says(name, c) && !c.OnServer? && c != OnKeyspace(DBSIZE)
    requires fits <==> GetKeys.ArityHolds(SpecOf(c).arity, |a| + 1) && GetKeys.PairsComplete(c, a)
    ensures Takes(name, a, db, e, fits)
  {
    GetKeys.ArityTableIsRight(c, a, db, e);
    RefusedIsKept(c, a, db, e);
    hide Exec, SpecOf, GetKeys.ArityHolds, GetKeys.PairsComplete, Says;
    Asks(name, a, c, db, e);
    hide Ask;
  }

  lemma RefusedIsKept(c: Cmd, a: seq<Bytes>, db: DB, e: Env)
    ensures Exec(c, a, db, e).1 == Fail(WrongArity) ==> Exec(c, a, db, e).0 == db
  {
    match c {
      case OnKeys(op) => ManyKept(op, a, db, e);
      case OnKeyspace(op) => AllKept(op, a, db, e);
      case OnServer(op) =>
      case _ =>
        if a != [] {
          SlotKept(c, a, At(db, a[0]), e);
          SelfWith(db, a[0]);
        }
    }
  }

  lemma ManyKept(op: KeysOp, a: seq<Bytes>, db: DB, e: Env)
    ensures DoKeys(op, a, db, e).1 == Fail(WrongArity) ==> DoKeys(op, a, db, e).0 == db
  {
    hide DeleteKeys, CountExisting, StorePairs, EvictAll, Texts, Gather, ScanPop, Union, Intersection;
  }

  lemma AllKept(op: KeyspaceOp, a: seq<Bytes>, db: DB, e: Env)
    ensures DoKeyspace(op, a, db, e).1 == Fail(WrongArity) ==> DoKeyspace(op, a, db, e).0 == db
  {
    hide Sweep, TotalKeys, MatchPattern;
  }

  lemma SlotKept(c: Cmd, a: seq<Bytes>, s: Slot, e: Env)
    requires SingleKey(c) && a != []
    ensures OnKey(c, a, s, e).1 == Fail(WrongArity) ==> OnKey(c, a, s, e).0 == s
  {
    match c {
      case OnString(op) => StringKept(op, a, s, e);
      case OnList(op) => ListKept(op, a, s, e);
      case OnSet(op) => SetKept(op, a, s, e);
      case OnHash(op) => HashKept(op, a, s, e);
      case OnDeadline(op) => DeadlineKept(op, a, s, e);
    }
  }

  lemma StringKept(op: StringOp, a: seq<Bytes>, s: Slot, e: Env)
    requires a != []
    ensures DoString(op, a, s, e).1 == Fail(WrongArity) ==> DoString(op, a, s, e).0 == s
  {
  }

  lemma ListKept(op: ListOp, a: seq<Bytes>, s: Slot, e: Env)
    requires a != []
    ensures DoList(op, a, s, e).1 == Fail(WrongArity) ==> DoList(op, a, s, e).0 == s
  {
  }

  lemma SetKept(op: SetOp, a: seq<Bytes>, s: Slot, e: Env)
    requires a != []
    ensures DoSet(op, a, s, e).1 == Fail(WrongArity) ==> DoSet(op, a, s, e).0 == s
  {
  }

  lemma HashKept(op: HashOp, a: seq<Bytes>, s: Slot, e: Env)
    requires a != []
    ensures DoHash(op, a, s, e).1 == Fail(WrongArity) ==> DoHash(op, a, s, e).0 == s
  {
  }

  lemma DeadlineKept(op: DeadlineOp, a: seq<Bytes>, s: Slot, e: Env)
    requires a != []
    ensures DoDeadline(op, a, s, e).1 == Fail(WrongArity) ==> DoDeadline(op, a, s, e).0 == s
  {
  }

  /** How many arguments the commands of each family take. */
  lemma StringCounts(a: seq<Bytes>, db: DB, e: Env)
    ensures Takes("SET", a, db, e, |a| == 2) && Takes("GET", a, db, e, |a| == 1) && Takes("TYPE", a, db, e, |a| == 1)
    ensures Takes("INCR", a, db, e, |a| == 1) && Takes("DECR", a, db, e, |a| == 1)
    ensures Takes("INCRBY", a, db, e, |a| == 2) && Takes("DECRBY", a, db, e, |a| == 2)
  {
    StringNames();
    hide Takes, Says;
    Counted("SET", OnString(SET), a, db, e, |a| == 2);
    Counted("GET", OnString(GET), a, db, e, |a| == 1);
    Counted("TYPE", OnString(TYPE), a, db, e, |a| == 1);
    Counted("INCR", OnString(INCR), a, db, e, |a| == 1);
    Counted("DECR", OnString(DECR), a, db, e, |a| == 1);
    Counted("INCRBY", OnString(INCRBY), a, db, e, |a| == 2);
    Counted("DECRBY", OnString(DECRBY), a, db, e, |a| == 2);
  }

  lemma ListCounts(a: seq<Bytes>, db: DB, e: Env)
    ensures Takes("LPUSH", a, db, e, |a| >= 2) && Takes("RPUSH", a, db, e, |a| >= 2)
    ensures Takes("LPOP", a, db, e, |a| == 1) && Takes("RPOP", a, db, e, |a| == 1) && Takes("LLEN", a, db, e, |a| == 1)
    ensures Takes("LINDEX", a, db, e, |a| == 2) && Takes("LRANGE", a, db, e, |a| == 3)
    ensures Takes("LSET", a, db, e, |a| == 3) && Takes("LREM", a, db, e, |a| == 3)
  {
    ListNames();
    hide Takes, Says;
    Counted("LPUSH", OnList(LPUSH), a, db, e, |a| >= 2);
    Counted("RPUSH", OnList(RPUSH), a, db, e, |a| >= 2);
    Counted("LPOP", OnList(LPOP), a, db, e, |a| == 1);
    Counted("RPOP", OnList(RPOP), a, db, e, |a| == 1);
    Counted("LLEN", OnList(LLEN), a, db, e, |a| == 1);
    Counted("LINDEX", OnList(LINDEX), a, db, e, |a| == 2);
    Counted("LRANGE", OnList(LRANGE), a, db, e, |a| == 3);
    Counted("LSET", OnList(LSET), a, db, e, |a| == 3);
    Counted("LREM", OnList(LREM), a, db, e, |a| == 3);
  }

  lemma SetCounts(a: seq<Bytes>, db: DB, e: Env)
    ensures Takes("SADD", a, db, e, |a| >= 2) && Takes("SREM", a, db, e, |a| >= 2)
    ensures Takes("SISMEMBER", a, db, e, |a| == 2) && Takes("SMEMBERS", a, db, e, |a| == 1)
    ensures Takes("SCARD", a, db, e, |a| == 1) && Takes("SPOP", a, db, e, |a| == 1)
  {
    SetNames();
    hide Takes, Says;
    Counted("SADD", OnSet(SADD), a, db, e, |a| >= 2);
    Counted("SREM", OnSet(SREM), a, db, e, |a| >= 2);
    Counted("SISMEMBER", OnSet(SISMEMBER), a, db, e, |a| == 2);
    Counted("SMEMBERS", OnSet(SMEMBERS), a, db, e, |a| == 1);
    Counted("SCARD", OnSet(SCARD), a, db, e, |a| == 1);
    Counted("SPOP", OnSet(SPOP), a, db, e, |a| == 1);
  }

  lemma HashCounts(a: seq<Bytes>, db: DB, e: Env)
    ensures Takes("HSET", a, db, e, |a| == 3) && Takes("HGET", a, db, e, |a| == 2) && Takes("HDEL", a, db, e, |a| >= 2)
    ensures Takes("HEXISTS", a, db, e, |a| == 2) && Takes("HGETALL", a, db, e, |a| == 1)
    ensures Takes("HKEYS", a, db, e, |a| == 1) && Takes("HVALS", a, db, e, |a| == 1)
    ensures Takes("HLEN", a, db, e, |a| == 1) && Takes("HMSET", a, db, e, |a| >= 3 && |a| % 2 == 1)
    ensures Takes("HMGET", a, db, e, |a| >= 2) && Takes("HINCRBY", a, db, e, |a| == 3)
  {
    HashNames();
    hide Takes, Says;
    Counted("HSET", OnHash(HSET), a, db, e, |a| == 3);
    Counted("HGET", OnHash(HGET), a, db, e, |a| == 2);
    Counted("HDEL", OnHash(HDEL), a, db, e, |a| >= 2);
    Counted("HEXISTS", OnHash(HEXISTS), a, db, e, |a| == 2);
    Counted("HGETALL", OnHash(HGETALL), a, db, e, |a| == 1);
    Counted("HKEYS", OnHash(HKEYS), a, db, e, |a| == 1);
    Counted("HVALS", OnHash(HVALS), a, db, e, |a| == 1);
    Counted("HLEN", OnHash(HLEN), a, db, e, |a| == 1);
    Counted("HMSET", OnHash(HMSET), a, db, e, |a| >= 3 && |a| % 2 == 1);
    Counted("HMGET", OnHash(HMGET), a, db, e, |a| >= 2);
    Counted("HINCRBY", OnHash(HINCRBY), a, db, e, |a| == 3);
  }

  lemma DeadlineCounts(a: seq<Bytes>, db: DB, e: Env)
    ensures Takes("EXPIRE", a, db, e, |a| == 2) && Takes("PEXPIRE", a, db, e, |a| == 2)
    ensures Takes("TTL", a, db, e, |a| == 1) && Takes("PTTL", a, db, e, |a| == 1)
    ensures Takes("PERSIST", a, db, e, |a| == 1)
  {
    DeadlineNames();
    hide Takes, Says;
    Counted("EXPIRE", OnDeadline(EXPIRE), a, db, e, |a| == 2);
    Counted("PEXPIRE", OnDeadline(PEXPIRE), a, db, e, |a| == 2);
    Counted("TTL", OnDeadline(TTL), a, db, e, |a| == 1);
    Counted("PTTL", OnDeadline(PTTL), a, db, e, |a| == 1);
    Counted("PERSIST", OnDeadline(PERSIST), a, db, e, |a| == 1);
  }

  lemma KeysCounts(a: seq<Bytes>, db: DB, e: Env)
    ensures Takes("DEL", a, db, e, |a| >= 1) && Takes("EXISTS", a, db, e, |a| >= 1)
    ensures Takes("MSET", a, db, e, |a| >= 2 && |a| % 2 == 0) && Takes("MGET", a, db, e, |a| >= 1)
    ensures Takes("BLPOP", a, db, e, |a| >= 2) && Takes("BRPOP", a, db, e, |a| >= 2)
    ensures Takes("SINTER", a, db, e, |a| >= 1) && Takes("SUNION", a, db, e, |a| >= 1)
    ensures Takes("SDIFF", a, db, e, |a| >= 1)
  {
    KeysNames();
    hide Takes, Says;
    Counted("DEL", OnKeys(DEL), a, db, e, |a| >= 1);
    Counted("EXISTS", OnKeys(EXISTS), a, db, e, |a| >= 1);
    Counted("MSET", OnKeys(MSET), a, db, e, |a| >= 2 && |a| % 2 == 0);
    Counted("MGET", OnKeys(MGET), a, db, e, |a| >= 1);
    Counted("BLPOP", OnKeys(BLPOP), a, db, e, |a| >= 2);
    Counted("BRPOP", OnKeys(BRPOP), a, db, e, |a| >= 2);
    Counted("SINTER", OnKeys(SINTER), a, db, e, |a| >= 1);
    Counted("SUNION", OnKeys(SUNION), a, db, e, |a| >= 1);
    Counted("SDIFF", OnKeys(SDIFF), a, db, e, |a| >= 1);
  }

  lemma KeyspaceCounts(a: seq<Bytes>, db: DB, e: Env)
    ensures Takes("KEYS", a, db, e, |a| == 1) && Takes("SCAN", a, db, e, |a| >= 1)
  {
    KeyspaceNames();
    hide Takes, Says;
    Counted("KEYS", OnKeyspace(KEYS), a, db, e, |a| == 1);
    Counted("SCAN", OnKeyspace(SCAN), a, db, e, |a| >= 1);
  }

  /** PUBLISH is the one command of the server's own that counts its arguments. */
  lemma PublishCounts(a: seq<Bytes>, db: DB, e: Env)
    ensures Takes("PUBLISH", a, db, e, |a| == 2)
  {
    hide CommandReply;
    PublishReply(a);
    hide ServerReply;
    ServerNames();
    hide Says, Ask;
    AsksServer("PUBLISH", PUBLISH, a, db, e);
  }

  lemma PublishReply(a: seq<Bytes>)
    ensures ServerReply(PUBLISH, a) == Fail(WrongArity) <==> |a| != 2
  {
    hide CommandReply;
  }

  // ---------------------------------------------------------- the server's own

  lemma AsksServer(name: Bytes, op: ServerOp, a: seq<Bytes>, db: DB, e: Env)
    requires Says(name, OnServer(op))
    ensures Ask([name] + a, db, e) == (db, ServerReply(op, a))
  {
    hide Says, ServerReply, Ask;
    Asks(name, a, OnServer(op), db, e);
  }

  lemma Greetings(word: Bytes, more: seq<Bytes>)
    ensures ServerReply(PING, []) == Status("PONG") && ServerReply(PING, [word] + more) == Bulk(word)
    ensures ServerReply(HELLO, [word] + more) == Fail(NoProto) <==> word == "3"
  {
    hide CommandReply;
  }

  /** PING answers PONG, or what it is given; HELLO refuses version 3 of the protocol. */
  lemma Greeting(word: Bytes, more: seq<Bytes>, db: DB, e: Env)
    ensures Ask(["PING"], db, e) == (db, Status("PONG"))
    ensures Ask(["PING"] + ([word] + more), db, e) == (db, Bulk(word))
    ensures Ask(["HELLO"] + ([word] + more), db, e).1 == Fail(NoProto) <==> word == "3"
  {
    Greetings(word, more);
    hide *;
    assert ["PING"] == ["PING"] + [];
    ServerNames();
    AsksServer("PING", PING, [], db, e);
    AsksServer("PING", PING, [word] + more, db, e);
    AsksServer("HELLO", HELLO, [word] + more, db, e);
  }

  // ------------------------------------------------------------------- GETKEYS

  /** COMMAND GETKEYS for a request, as it is answered. */
  ghost predicate KeysAre(request: seq<Bytes>, db: DB, e: Env, r: Reply) {
    Ask(["COMMAND", "GETKEYS"] + request, db, e) == (db, r)
  }

  lemma KeysReplyIs(sub: Bytes, request: seq<Bytes>)
    requires ToUpper(sub) == "GETKEYS"
    ensures CommandReply([sub] + request) ==
            if request == [] then Fail(NoCommandName) else GetKeysReply(request[0], request[1..])
  {
    var a := [sub] + request;
    assert a[0] == sub && |a| == 1 + |request|;
    assert request != [] ==> a[1] == request[0] && a[2..] == request[1..];
    hide ToUpper, GetKeysReply;
  }

  lemma Subcommand()
    ensures ToUpper("GETKEYS") == "GETKEYS"
  {
    Capitals("GETKEYS");
  }

  lemma KeysRequest(request: seq<Bytes>)
    ensures ["COMMAND", "GETKEYS"] + request == ["COMMAND"] + (["GETKEYS"] + request)
  {
  }

  lemma CommandIs(a: seq<Bytes>)
    ensures ServerReply(COMMAND, a) == CommandReply(a)
  {
    hide CommandReply;
  }

  lemma AsksCommand(request: seq<Bytes>, db: DB, e: Env)
    ensures KeysAre(request, db, e, CommandReply(["GETKEYS"] + request))
  {
    var a := ["GETKEYS"] + request;
    KeysRequest(request);
    CommandIs(a);
    hide Says, Ask, CommandReply, ServerReply;
    ServerNames();
    AsksServer("COMMAND", COMMAND, a, db, e);
  }

  lemma AsksKeys(name: Bytes, a: seq<Bytes>, db: DB, e: Env)
    ensures KeysAre([name] + a, db, e, GetKeysReply(name, a))
  {
    hide *;
    Subcommand();
    AsksCommand([name] + a, db, e);
    KeysReplyIs("GETKEYS", [name] + a);
    assert ([name] + a)[1..] == a;
  }

  lemma Reported(name: Bytes, c: Cmd, a: seq<Bytes>, db: DB, e: Env, keys: seq<Bytes>)
    requires Says(name, c) && SpecOf(c).firstKey == 1 && a != []
    requires KeysOf(c, a) == Some(keys)
    ensures KeysAre([name] + a, db, e, Many(Bulks(keys)))
  {
    hide KeysAre, KeysOf, FindCommand, ToUpper;
    AsksKeys(name, a, db, e);
  }

  /** A command that has no keys, and one whose name is not known, are told apart from one that lacks its first. */
  lemma GetKeysRefused(name: Bytes, a: seq<Bytes>, db: DB, e: Env)
    ensures KeysAre([], db, e, Fail(NoCommandName))
    ensures !Known(ToUpper(name)) || Keyless(ToUpper(name)) ==> KeysAre([name] + a, db, e, Fail(NoKeyArguments))
    ensures Known(ToUpper(name)) && !Keyless(ToUpper(name)) ==> KeysAre([name], db, e, Fail(InvalidKeyArguments))
  {
    NoName(db, e);
    KnownAre(ToUpper(name));
    KeylessAre(ToUpper(name));
    hide KeysAre, FindCommand, Known, Keyless, ToUpper;
    AsksKeys(name, a, db, e);
    AsksKeys(name, [], db, e);
    assert [name] == [name] + [];
  }

  lemma NoName(db: DB, e: Env)
    ensures KeysAre([], db, e, Fail(NoCommandName))
  {
    hide *;
    Subcommand();
    AsksCommand([], db, e);
    KeysReplyIs("GETKEYS", []);
  }

  predicate Keyless(name: Bytes) {
    match name
    case "KEYS" | "SCAN" | "DBSIZE" | "PING" | "HELLO" | "COMMAND" | "PUBLISH" => true
    case "SAVE" | "BGSAVE" | "LASTSAVE" => true
    case _ => false
  }

  lemma KeylessAre(name: Bytes)
    ensures FindCommand(name).Some? ==> SpecOf(FindCommand(name).value).firstKey == if Keyless(name) then 0 else 1
  {
  }

  predicate ManyKeyed(name: Bytes) {
    match name
    case "DEL" | "EXISTS" | "MSET" | "MGET" | "BLPOP" | "BRPOP" | "SINTER" | "SUNION" | "SDIFF" => true
    case _ => false
  }

  lemma SingleAre(name: Bytes)
    requires Known(name) && !Keyless(name) && !ManyKeyed(name)
    ensures FindCommand(name).Some? && SingleKey(FindCommand(name).value)
  {
  }

  lemma FirstOnly(c: Cmd, a: seq<Bytes>)
    requires SingleKey(c) && a != []
    ensures KeysOf(c, a) == Some([a[0]])
  {
    assert SpecOf(c).firstKey == 1 && SpecOf(c).lastKey == 1 && SpecOf(c).step == 1;
    assert LastKey(SpecOf(c), |a|) == 1;
    hide SpecOf;
    assert [a[0]] + [] == [a[0]];
    assert Strided(a, 1, 1, 1) == [];
    assert Strided(a, 0, 1, 1) == [a[0]] + Strided(a, 1, 1, 1);
  }

  /** Most commands have one key, their first argument. */
  lemma FirstIsKey(name: Bytes, a: seq<Bytes>, db: DB, e: Env)
    requires Known(ToUpper(name)) && !Keyless(ToUpper(name)) && !ManyKeyed(ToUpper(name)) && a != []
    ensures KeysAre([name] + a, db, e, Many([Bulk(a[0])]))
  {
    SingleAre(ToUpper(name));
    var c := FindCommand(ToUpper(name)).value;
    FirstOnly(c, a);
    assert Bulks([a[0]]) == [Bulk(a[0])];
    hide KeysAre, KeysOf, FindCommand, Known, Keyless, ManyKeyed, ToUpper, Bulks;
    Reported(name, c, a, db, e, [a[0]]);
  }

  lemma {:induction false} EveryOne(a: seq<Bytes>, i: nat, last: int)
    requires i <= last <= |a|
    ensures Strided(a, i, last, 1) == a[i..last]
    decreases last - i
  {
    if i < last {
      EveryOne(a, i + 1, last);
    }
  }

  lemma BulksAre(keys: seq<Bytes>, r: seq<Reply>)
    requires |r| == |keys| && forall i :: 0 <= i < |keys| ==> r[i] == Bulk(keys[i])
    ensures Bulks(keys) == r
  {
  }

  lemma AllOf(name: Bytes, op: KeysOp, a: seq<Bytes>, db: DB, e: Env, r: seq<Reply>)
    requires Says(name, OnKeys(op)) && KeysSpec(op) == Spec(-2, 1, -1, 1) && a != []
    requires |r| == |a| && forall i :: 0 <= i < |a| ==> r[i] == Bulk(a[i])
    ensures KeysAre([name] + a, db, e, Many(r))
  {
    EveryOne(a, 0, |a|);
    assert KeysOf(OnKeys(op), a) == Some(a[0..|a|]);
    BulksAre(a, r);
    hide KeysAre, KeysOf, Says;
    assert a[0..|a|] == a;
    Reported(name, OnKeys(op), a, db, e, a);
  }

  /** Every argument of these is a key. */
  lemma AllAreKeys(a: seq<Bytes>, db: DB, e: Env, r: seq<Reply>)
    requires a != [] && |r| == |a| && forall i :: 0 <= i < |a| ==> r[i] == Bulk(a[i])
    ensures KeysAre(["DEL"] + a, db, e, Many(r)) && KeysAre(["EXISTS"] + a, db, e, Many(r))
    ensures KeysAre(["MGET"] + a, db, e, Many(r)) && KeysAre(["SINTER"] + a, db, e, Many(r))
    ensures KeysAre(["SUNION"] + a, db, e, Many(r)) && KeysAre(["SDIFF"] + a, db, e, Many(r))
  {
    KeysNames();
    hide KeysAre, Says;
    AllOf("DEL", DEL, a, db, e, r);
    AllOf("EXISTS", EXISTS, a, db, e, r);
    AllOf("MGET", MGET, a, db, e, r);
    AllOf("SINTER", SINTER, a, db, e, r);
    AllOf("SUNION", SUNION, a, db, e, r);
    AllOf("SDIFF", SDIFF, a, db, e, r);
  }

  lemma AllButLast(name: Bytes, op: KeysOp, a: seq<Bytes>, db: DB, e: Env, r: seq<Reply>)
    requires Says(name, OnKeys(op)) && KeysSpec(op) == Spec(-3, 1, -2, 1) && |a| >= 2
    requires |r| == |a| - 1 && forall i :: 0 <= i < |a| - 1 ==> r[i] == Bulk(a[i])
    ensures KeysAre([name] + a, db, e, Many(r))
  {
    EveryOne(a, 0, |a| - 1);
    assert KeysOf(OnKeys(op), a) == Some(a[0..|a| - 1]);
    BulksAre(a[..|a| - 1], r);
    hide KeysAre, KeysOf, Says;
    assert a[0..|a| - 1] == a[..|a| - 1];
    Reported(name, OnKeys(op), a, db, e, a[..|a| - 1]);
  }

  /** The last argument of a blocking pop is its time limit, and no key. */
  lemma LimitIsNoKey(a: seq<Bytes>, db: DB, e: Env, r: seq<Reply>)
    requires |a| >= 2 && |r| == |a| - 1 && forall i :: 0 <= i < |a| - 1 ==> r[i] == Bulk(a[i])
    ensures KeysAre(["BLPOP"] + a, db, e, Many(r)) && KeysAre(["BRPOP"] + a, db, e, Many(r))
  {
    KeysNames();
    hide KeysAre, Says;
    AllButLast("BLPOP", BLPOP, a, db, e, r);
    AllButLast("BRPOP", BRPOP, a, db, e, r);
  }

  lemma {:induction false} EverySecond(a: seq<Bytes>, i: nat) returns (n: nat)
    ensures n == |Strided(a, i, |a|, 2)| && n == if i < |a| then (|a| - i + 1) / 2 else 0
    ensures forall j :: 0 <= j < n ==> i + 2 * j < |a| && Strided(a, i, |a|, 2)[j] == a[i + 2 * j]
    decreases |a| - i
  {
    n := 0;
    if i < |a| {
      n := EverySecond(a, i + 2);
      n := n + 1;
      forall j | 0 <= j < n
        ensures i + 2 * j < |a| && Strided(a, i, |a|, 2)[j] == a[i + 2 * j]
      {
        assert j > 0 ==> Strided(a, i + 2, |a|, 2)[j - 1] == a[i + 2 + 2 * (j - 1)];
      }
    }
  }

  lemma PairsOf(a: seq<Bytes>, r: seq<Reply>) returns (keys: seq<Bytes>)
    requires a != [] && |r| == (|a| + 1) / 2 && forall i :: 0 <= i < |r| ==> r[i] == Bulk(a[2 * i])
    ensures KeysOf(OnKeys(MSET), a) == Some(keys) && Bulks(keys) == r
  {
    var n := EverySecond(a, 0);
    keys := Strided(a, 0, |a|, 2);
    BulksAre(keys, r);
  }

  lemma StartsAtFirst(op: KeysOp)
    ensures SpecOf(OnKeys(op)).firstKey == 1
  {
  }

  /** Every second argument of MSET is a key, and what stands between them is not. */
  lemma SecondsAreKeys(a: seq<Bytes>, db: DB, e: Env, r: seq<Reply>)
    requires a != [] && |r| == (|a| + 1) / 2 && forall i :: 0 <= i < |r| ==> r[i] == Bulk(a[2 * i])
    ensures KeysAre(["MSET"] + a, db, e, Many(r))
  {
    hide *;
    var keys := PairsOf(a, r);
    KeysNames();
    StartsAtFirst(MSET);
    Reported("MSET", OnKeys(MSET), a, db, e, keys);
  }

  lemma OnlyFirst(op: KeysOp, k: Bytes)
    requires op == BLPOP || op == BRPOP
    ensures KeysOf(OnKeys(op), [k]) == Some([k]) && Bulks([k]) == [Bulk(k)]
  {
    var spec := SpecOf(OnKeys(op));
    assert spec.firstKey == 1 && spec.step == 1 && LastKey(spec, 1) == 1;
    hide SpecOf, LastKey;
    assert Strided([k], 1, 1, 1) == [];
    assert Strided([k], 0, 1, 1) == [k] + Strided([k], 1, 1, 1);
    assert [k] + [] == [k];
  }

  lemma OneWord(name: Bytes, op: KeysOp, k: Bytes, db: DB, e: Env)
    requires Says(name, OnKeys(op)) && (op == BLPOP || op == BRPOP)
    ensures KeysAre([name, k], db, e, Many([Bulk(k)]))
  {
    hide *;
    OnlyFirst(op, k);
    StartsAtFirst(op);
    assert [name, k] == [name] + [k];
    Reported(name, OnKeys(op), [k], db, e, [k]);
  }

  /** Without a time limit behind it, a blocking pop's one argument is reported all the same. */
  lemma OneWordIsKey(k: Bytes, db: DB, e: Env)
    ensures KeysAre(["BLPOP", k], db, e, Many([Bulk(k)])) && KeysAre(["BRPOP", k], db, e, Many([Bulk(k)]))
  {
    hide *;
    KeysNames();
    OneWord("BLPOP", BLPOP, k, db, e);
    OneWord("BRPOP", BRPOP, k, db, e);
  }

  predicate Subcommands(name: Bytes) {
    match name
    case "COUNT" | "LIST" | "INFO" | "DOCS" | "GETKEYS" => true
    case _ => false
  }

  lemma NoSubcommand(sub: Bytes, more: seq<Bytes>)
    requires !Subcommands(ToUpper(sub))
    ensures CommandReply([sub] + more) == Fail(UnknownSubcommand)
  {
    assert ([sub] + more)[0] == sub;
    hide ToUpper, GetKeysReply;
  }

  /** COMMAND knows five subcommands. */
  lemma SubcommandRefused(sub: Bytes, more: seq<Bytes>, db: DB, e: Env)
    requires !Subcommands(ToUpper(sub))
    ensures Ask(["COMMAND"] + ([sub] + more), db, e) == (db, Fail(UnknownSubcommand))
  {
    hide *;
    ServerNames();
    NoSubcommand(sub, more);
    CommandIs([sub] + more);
    AsksServer("COMMAND", COMMAND, [sub] + more, db, e);
  }
}
