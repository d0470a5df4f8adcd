/**
 What clients say and what they are told, in the words on the wire. The laws in this group of modules name a
 command by its text and give the reply and the five maps it leaves outright.
 */
module Wire {
  import opened Wrappers
  import opened GoText
  import opened Resp
  import opened Containers
  import opened Keyspace
  import opened Commands
  import opened Recovery

  /** A request as clients send it: an array of bulk strings. */
  function Words(ws: seq<Bytes>): Value {
    Array(seq(|ws|, i requires 0 <= i < |ws| => BulkString(ws[i])))
  }

  /** What a request comes to on one database: `processCommand`, before the log. */
  ghost function Ask(ws: seq<Bytes>, db: DB, e: Env): (DB, Reply)
    requires ws != []
  {
    Process(db, Words(ws), e)
  }

  /** The key has no deadline, or it is still to come. */
  predicate Live(db: DB, key: Bytes, now: int) {
    key in db.expires ==> now < db.expires[key]
  }

  // --------------------------------------------------------------------- names

  const LOWER := "abcdefghijklmnopqrstuvwxyz"
  const UPPER := "ABCDEFGHIJKLMNOPQRSTUVWXYZ"

  lemma Alphabet(j: nat)
    requires j < 26
    ensures LOWER[j] as int == 97 + j && UPPER[j] as int == 65 + j
  {
  }

  /** Letters are folded to upper case and nothing else is touched. */
  lemma UpperCase(s: Bytes, i: nat, j: nat)
    requires i < |s| && j < 26
    ensures s[i] == LOWER[j] ==> ToUpper(s)[i] == UPPER[j]
    ensures s[i] !in LOWER ==> ToUpper(s)[i] == s[i]
  {
    Alphabet(j);
    if 'a' <= s[i] <= 'z' {
      Alphabet(s[i] as int - 97);
    }
    hide ToUpper;
  }

  lemma Capitals(s: Bytes)
    requires forall i :: 0 <= i < |s| ==> !('a' <= s[i] <= 'z')
    ensures ToUpper(s) == s
  {
  }

  /** The case of a command's name makes no difference. */
  lemma NamesFold(name: Bytes, other: Bytes, args: seq<Bytes>, db: DB, e: Env)
    requires ToUpper(name) == ToUpper(other)
    ensures Ask([name] + args, db, e) == Ask([other] + args, db, e)
  {
    Parts(name, args);
    Parts(other, args);
  }

  lemma Parts(name: Bytes, args: seq<Bytes>)
    ensures var v := Words([name] + args);
            v.Array? && v.items != [] && CommandOf(v) == FindCommand(ToUpper(name)) && ArgsOf(v) == args
  {
    hide FindCommand;
    assert Strs(Words([name] + args).items[1..]) == args;
  }

  /** A request whose name stands for a command runs it. */
  lemma Asks(name: Bytes, args: seq<Bytes>, c: Cmd, db: DB, e: Env)
    requires Says(name, c)
    ensures Ask([name] + args, db, e) == Exec(c, args, db, e)
  {
    hide FindCommand, Exec;
    Parts(name, args);
  }

  /** The name stands for the command. */
  predicate Says(name: Bytes, c: Cmd) {
    FindCommand(ToUpper(name)) == Some(c)
  }

  lemma Capital(name: Bytes, c: Cmd)
    requires FindCommand(name) == Some(c) && forall i :: 0 <= i < |name| ==> !('a' <= name[i] <= 'z')
    ensures Says(name, c)
  {
    hide FindCommand;
    Capitals(name);
  }

  lemma StringTable()
    ensures FindCommand("SET") == Some(OnString(SET)) && FindCommand("GET") == Some(OnString(GET))
    ensures FindCommand("TYPE") == Some(OnString(TYPE)) && FindCommand("INCR") == Some(OnString(INCR))
    ensures FindCommand("DECR") == Some(OnString(DECR)) && FindCommand("INCRBY") == Some(OnString(INCRBY))
    ensures FindCommand("DECRBY") == Some(OnString(DECRBY))
  {
  }

  lemma StringNames()
    ensures Says("SET", OnString(SET)) && Says("GET", OnString(GET)) && Says("TYPE", OnString(TYPE))
    ensures Says("INCR", OnString(INCR)) && Says("DECR", OnString(DECR)) && Says("INCRBY", OnString(INCRBY))
    ensures Says("DECRBY", OnString(DECRBY))
  {
    StringTable();
    hide FindCommand, Says;
    Capital("SET", OnString(SET));
    Capital("GET", OnString(GET));
    Capital("TYPE", OnString(TYPE));
    Capital("INCR", OnString(INCR));
    Capital("DECR", OnString(DECR));
    Capital("INCRBY", OnString(INCRBY));
    Capital("DECRBY", OnString(DECRBY));
  }

  lemma ListTable()
    ensures FindCommand("LPUSH") == Some(OnList(LPUSH)) && FindCommand("RPUSH") == Some(OnList(RPUSH))
    ensures FindCommand("LPOP") == Some(OnList(LPOP)) && FindCommand("RPOP") == Some(OnList(RPOP))
    ensures FindCommand("LRANGE") == Some(OnList(LRANGE)) && FindCommand("LLEN") == Some(OnList(LLEN))
    ensures FindCommand("LINDEX") == Some(OnList(LINDEX)) && FindCommand("LSET") == Some(OnList(LSET))
    ensures FindCommand("LREM") == Some(OnList(LREM))
  {
  }

  lemma ListNames()
    ensures Says("LPUSH", OnList(LPUSH)) && Says("RPUSH", OnList(RPUSH)) && Says("LPOP", OnList(LPOP))
    ensures Says("RPOP", OnList(RPOP)) && Says("LRANGE", OnList(LRANGE)) && Says("LLEN", OnList(LLEN))
    ensures Says("LINDEX", OnList(LINDEX)) && Says("LSET", OnList(LSET)) && Says("LREM", OnList(LREM))
  {
    ListTable();
    hide FindCommand, Says;
    Capital("LPUSH", OnList(LPUSH));
    Capital("RPUSH", OnList(RPUSH));
    Capital("LPOP", OnList(LPOP));
    Capital("RPOP", OnList(RPOP));
    Capital("LRANGE", OnList(LRANGE));
    Capital("LLEN", OnList(LLEN));
    Capital("LINDEX", OnList(LINDEX));
    Capital("LSET", OnList(LSET));
    Capital("LREM", OnList(LREM));
  }

  lemma SetTable()
    ensures FindCommand("SADD") == Some(OnSet(SADD)) && FindCommand("SREM") == Some(OnSet(SREM))
    ensures FindCommand("SISMEMBER") == Some(OnSet(SISMEMBER)) && FindCommand("SMEMBERS") == Some(OnSet(SMEMBERS))
    ensures FindCommand("SCARD") == Some(OnSet(SCARD)) && FindCommand("SPOP") == Some(OnSet(SPOP))
  {
  }

  lemma SetNames()
    ensures Says("SADD", OnSet(SADD)) && Says("SREM", OnSet(SREM)) && Says("SISMEMBER", OnSet(SISMEMBER))
    ensures Says("SMEMBERS", OnSet(SMEMBERS)) && Says("SCARD", OnSet(SCARD)) && Says("SPOP", OnSet(SPOP))
  {
    SetTable();
    hide FindCommand, Says;
    Capital("SADD", OnSet(SADD));
    Capital("SREM", OnSet(SREM));
    Capital("SISMEMBER", OnSet(SISMEMBER));
    Capital("SMEMBERS", OnSet(SMEMBERS));
    Capital("SCARD", OnSet(SCARD));
    Capital("SPOP", OnSet(SPOP));
  }

  lemma HashTable()
    ensures FindCommand("HSET") == Some(OnHash(HSET)) && FindCommand("HGET") == Some(OnHash(HGET))
    ensures FindCommand("HDEL") == Some(OnHash(HDEL)) && FindCommand("HEXISTS") == Some(OnHash(HEXISTS))
    ensures FindCommand("HGETALL") == Some(OnHash(HGETALL)) && FindCommand("HKEYS") == Some(OnHash(HKEYS))
    ensures FindCommand("HVALS") == Some(OnHash(HVALS)) && FindCommand("HLEN") == Some(OnHash(HLEN))
    ensures FindCommand("HMSET") == Some(OnHash(HMSET)) && FindCommand("HMGET") == Some(OnHash(HMGET))
    ensures FindCommand("HINCRBY") == Some(OnHash(HINCRBY))
  {
  }

  lemma HashNames()
    ensures Says("HSET", OnHash(HSET)) && Says("HGET", OnHash(HGET)) && Says("HDEL", OnHash(HDEL))
    ensures Says("HEXISTS", OnHash(HEXISTS)) && Says("HGETALL", OnHash(HGETALL)) && Says("HKEYS", OnHash(HKEYS))
    ensures Says("HVALS", OnHash(HVALS)) && Says("HLEN", OnHash(HLEN)) && Says("HMSET", OnHash(HMSET))
    ensures Says("HMGET", OnHash(HMGET)) && Says("HINCRBY", OnHash(HINCRBY))
  {
    HashTable();
    hide FindCommand, Says;
    Capital("HSET", OnHash(HSET));
    Capital("HGET", OnHash(HGET));
    Capital("HDEL", OnHash(HDEL));
    Capital("HEXISTS", OnHash(HEXISTS));
    Capital("HGETALL", OnHash(HGETALL));
    Capital("HKEYS", OnHash(HKEYS));
    Capital("HVALS", OnHash(HVALS));
    Capital("HLEN", OnHash(HLEN));
    Capital("HMSET", OnHash(HMSET));
    Capital("HMGET", OnHash(HMGET));
    Capital("HINCRBY", OnHash(HINCRBY));
  }

  lemma DeadlineTable()
    ensures FindCommand("EXPIRE") == Some(OnDeadline(EXPIRE)) && FindCommand("PEXPIRE") == Some(OnDeadline(PEXPIRE))
    ensures FindCommand("TTL") == Some(OnDeadline(TTL)) && FindCommand("PTTL") == Some(OnDeadline(PTTL))
    ensures FindCommand("PERSIST") == Some(OnDeadline(PERSIST))
  {
  }

  lemma DeadlineNames()
    ensures Says("EXPIRE", OnDeadline(EXPIRE)) && Says("PEXPIRE", OnDeadline(PEXPIRE)) && Says("TTL", OnDeadline(TTL))
    ensures Says("PTTL", OnDeadline(PTTL)) && Says("PERSIST", OnDeadline(PERSIST))
  {
    DeadlineTable();
    hide FindCommand, Says;
    Capital("EXPIRE", OnDeadline(EXPIRE));
    Capital("PEXPIRE", OnDeadline(PEXPIRE));
    Capital("TTL", OnDeadline(TTL));
    Capital("PTTL", OnDeadline(PTTL));
    Capital("PERSIST", OnDeadline(PERSIST));
  }

  lemma KeysTable()
    ensures FindCommand("DEL") == Some(OnKeys(DEL)) && FindCommand("EXISTS") == Some(OnKeys(EXISTS))
    ensures FindCommand("MSET") == Some(OnKeys(MSET)) && FindCommand("MGET") == Some(OnKeys(MGET))
    ensures FindCommand("BLPOP") == Some(OnKeys(BLPOP)) && FindCommand("BRPOP") == Some(OnKeys(BRPOP))
    ensures FindCommand("SINTER") == Some(OnKeys(SINTER)) && FindCommand("SUNION") == Some(OnKeys(SUNION))
    ensures FindCommand("SDIFF") == Some(OnKeys(SDIFF))
  {
  }

  lemma KeysNames()
    ensures Says("DEL", OnKeys(DEL)) && Says("EXISTS", OnKeys(EXISTS)) && Says("MSET", OnKeys(MSET))
    ensures Says("MGET", OnKeys(MGET)) && Says("BLPOP", OnKeys(BLPOP)) && Says("BRPOP", OnKeys(BRPOP))
    ensures Says("SINTER", OnKeys(SINTER)) && Says("SUNION", OnKeys(SUNION)) && Says("SDIFF", OnKeys(SDIFF))
  {
    KeysTable();
    hide FindCommand, Says;
    Capital("DEL", OnKeys(DEL));
    Capital("EXISTS", OnKeys(EXISTS));
    Capital("MSET", OnKeys(MSET));
    Capital("MGET", OnKeys(MGET));
    Capital("BLPOP", OnKeys(BLPOP));
    Capital("BRPOP", OnKeys(BRPOP));
    Capital("SINTER", OnKeys(SINTER));
    Capital("SUNION", OnKeys(SUNION));
    Capital("SDIFF", OnKeys(SDIFF));
  }

  lemma KeyspaceTable()
    ensures FindCommand("KEYS") == Some(OnKeyspace(KEYS)) && FindCommand("SCAN") == Some(OnKeyspace(SCAN))
    ensures FindCommand("DBSIZE") == Some(OnKeyspace(DBSIZE))
  {
  }

  lemma KeyspaceNames()
    ensures Says("KEYS", OnKeyspace(KEYS)) && Says("SCAN", OnKeyspace(SCAN)) && Says("DBSIZE", OnKeyspace(DBSIZE))
  {
    KeyspaceTable();
    hide FindCommand, Says;
    Capital("KEYS", OnKeyspace(KEYS));
    Capital("SCAN", OnKeyspace(SCAN));
    Capital("DBSIZE", OnKeyspace(DBSIZE));
  }

  lemma ServerTable()
    ensures FindCommand("PING") == Some(OnServer(PING)) && FindCommand("HELLO") == Some(OnServer(HELLO))
    ensures FindCommand("COMMAND") == Some(OnServer(COMMAND)) && FindCommand("PUBLISH") == Some(OnServer(PUBLISH))
  {
  }

  lemma ServerNames()
    ensures Says("PING", OnServer(PING)) && Says("HELLO", OnServer(HELLO)) && Says("COMMAND", OnServer(COMMAND))
    ensures Says("PUBLISH", OnServer(PUBLISH))
  {
    ServerTable();
    hide FindCommand, Says;
    Capital("PING", OnServer(PING));
    Capital("HELLO", OnServer(HELLO));
    Capital("COMMAND", OnServer(COMMAND));
    Capital("PUBLISH", OnServer(PUBLISH));
  }

  lemma SaveTable()
    ensures FindCommand("SAVE") == Some(OnServer(SAVE)) && FindCommand("BGSAVE") == Some(OnServer(BGSAVE))
    ensures FindCommand("LASTSAVE") == Some(OnServer(LASTSAVE))
  {
  }

  lemma SaveNames()
    ensures Says("SAVE", OnServer(SAVE)) && Says("BGSAVE", OnServer(BGSAVE)) && Says("LASTSAVE", OnServer(LASTSAVE))
  {
    SaveTable();
    hide FindCommand, Says;
    Capital("SAVE", OnServer(SAVE));
    Capital("BGSAVE", OnServer(BGSAVE));
    Capital("LASTSAVE", OnServer(LASTSAVE));
  }

  // ------------------------------------------------------------ one key at a time

  lemma LiveIsKept(db: DB, key: Bytes, now: int)
    requires Live(db, key, now)
    ensures Evict(At(db, key), now) == At(db, key) && EvictKey(db, key, now) == db
  {
    SelfWith(db, key);
  }

  /** A command on a key that is not due, given what it makes of the slot. */
  lemma AsksKey(name: Bytes, args: seq<Bytes>, c: Cmd, db: DB, e: Env, s: Slot, r: Reply)
    requires Says(name, c) && SingleKey(c) && args != []
    requires OnKey(c, args, At(db, args[0]), e) == (s, r)
    ensures Ask([name] + args, db, e) == (With(db, args[0], s), r)
  {
    hide Says, OnKey, With, At;
    Asks(name, args, c, db, e);
  }

  /** One that leaves the slot as it is. */
  lemma AsksOnly(name: Bytes, args: seq<Bytes>, c: Cmd, db: DB, e: Env, r: Reply)
    requires Says(name, c) && SingleKey(c) && args != []
    requires OnKey(c, args, At(db, args[0]), e) == (At(db, args[0]), r)
    ensures Ask([name] + args, db, e) == (db, r)
  {
    SelfWith(db, args[0]);
    hide Says, OnKey, With, At;
    AsksKey(name, args, c, db, e, At(db, args[0]), r);
  }

  lemma Same<V>(m: map<Bytes, V>, key: Bytes)
    ensures Assign(m, key, Find(m, key)) == m
  {
  }

  /** Replacing one part of a slot replaces one entry of one map. */
  lemma OnePart(db: DB, key: Bytes, s: Slot)
    ensures var was := At(db, key);
            && With(db, key, was.(text := s.text)) == db.(store := Assign(db.store, key, s.text))
            && With(db, key, was.(list := s.list)) == db.(lists := Assign(db.lists, key, s.list))
            && With(db, key, was.(members := s.members)) == db.(sets := Assign(db.sets, key, s.members))
            && With(db, key, was.(fields := s.fields)) == db.(hashes := Assign(db.hashes, key, s.fields))
            && With(db, key, was.(deadline := s.deadline)) == db.(expires := Assign(db.expires, key, s.deadline))
            && With(db, key, was.(text := s.text, deadline := s.deadline)) ==
               db.(store := Assign(db.store, key, s.text), expires := Assign(db.expires, key, s.deadline))
  {
    Same(db.store, key);
    Same(db.lists, key);
    Same(db.sets, key);
    Same(db.hashes, key);
    Same(db.expires, key);
    hide Assign, Find;
  }

  lemma IsSingle(c: Cmd)
    requires !c.OnKeys? && !c.OnKeyspace? && !c.OnServer?
    ensures SingleKey(c)
  {
  }
}
