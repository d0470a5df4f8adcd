# A verified model of ShoreDB

ShoreDB is an in-memory, Redis-like store in Go with two ways of surviving a restart: an append-only log of
commands and a snapshot file. This project models the parts of it that decide whether what comes back is what was
there, and proves it.

The model has two layers.

* **Values.** One logical database is a value (`Keyspace.DB`, five maps), seen one key at a time as a `Slot`. Every
  command is a function on it (`Commands.Exec`), replay is a second set of functions (`Replay.Replay`), the log and the
  snapshot are byte sequences, and the server is a machine over them (`Recovery.Run`). The theorems are about these.
* **Objects.** `List`, `Set`, `Hash`, `Database`, `Parser`, `Writer`, `Aof`, `ErrWriter`, `Reader`, `Server`, `PubSub` and
  `Connection` are classes whose methods update their fields as the Go code does, with its loops. Each method is
  proved to do what the functions say: `Server.ProcessCommand`, `SweepExpired` and `New` are the steps of the machine, so
  every theorem about `Recovery.Run` is a theorem about runs of these methods. `Server.Restarted` and
  `RdbLoader.Reloaded` put the two layers together.

The modules, in reading order: `GoText` (64-bit integers and text), `Resp` (the wire format), `Containers`,
`Keyspace`, `Commands`, `Effects`, `Replay`, `AofLog`, `TornTail`, `Misfiled`, `Recovery`, `Exactness`, `Sessions`
(the log theorems); `RdbCodec`, `RdbFile`, `RdbRoundTrip`, `RdbWalk`, `Snapshot`, `SnapshotRuns`, `SnapshotMix`,
`SnapshotEnds` (the snapshot theorems); `Expiry`, `GetKeys`, `Queue`, `BlockingWait`, `WaitLaws`, `FairWait`,
`FairRun`, `PubSub`; the laws in words and bytes: `Wire`, `WireStrings`, `WireLists`, `WireSets`, `WireHashes`,
`WireKeys`, `WireServer`, `WireSessions`, `WireLog`, `Formats`, `RdbBytes`; then the objects: `Database`,
`ListCommands`, `SetCommands`, `HashCommands`, `StringCommands`, `ReadCommands`, `ManyKeys`, `Replayer`, `Handlers`,
`MultiDB`, `Server`, `RdbStore`, `RdbLoader`, `Broker`.

What clients see is stated in their own words. `Wire.Ask` is one request as it stands on the wire, such as
["HINCRBY", k, f, "5"], from the name's lookup to the reply; the laws in the `Wire` modules give, for every command name,
the reply and the five maps it leaves, written out: what is in the maps before decides, and no law names the function
that computes the answer. They speak of keys whose deadline is still to come (`Wire.Live`); what a key does when it has
come is `WireKeys.GettingDue` and, for all other commands, `Expiry.CommandsCannotTell`. `Formats` and `RdbBytes` fix the bytes of
numbers, requests, replies and snapshot files.

What is taken as given: one command is one atomic step at one reading of the clock, a Go string is a sequence of
chars standing for bytes, and Go's map iteration may yield any order. Where a result depends on that order, the
theorem holds for every order. Two places go below one command: the wait of the blocking pops (`BlockingWait`), and the
snapshot's walk over a database, which commands on single containers can get in between of (`Snapshot`).

The log. `Recovery.RecoveryIsExact` says when a restart finds what was there, over runs of requests, sweeps, restarts and
crashes that leave only the front of the file; `Sessions.SessionsAreRuns` says that whatever bytes clients send comes
to such a run. It has three conditions, none of which can be dropped:

* Nothing stored is evicted. Evictions are not logged: a sweep or an unlogged request keeps recovery exact if and only
  if nothing stored is past its deadline under the keys it looks up (`Exactness.SilentKeepsExactIff`). For a logged
  command the condition is sufficient; it can be broken without harm, as by an SADD of the very member an expired
  set held. `Exactness.EvictionIsNotLogged` is a run in which a sweep, or a GET, breaks recovery.
* SPOP has no choice. It does not log the member it took: where nothing is evicted, recovery is exact at every point of a
  run if and only if every SPOP hit a set of at most one member (`Exactness.ExactIffTame`). `Exactness.UntameRun` is a run
  in which it is not.
* Crashes are clean. Opening a torn file does not cut it back. Whatever later sessions log is read back behind it if and
  only if the cut fell between two entries or right behind a marker (`TornTail.TailIsSafeIff`). Otherwise a single stray
  byte can hide all that follows (`Misfiled.TornTailHidesLaterEntries`), and an entry that has lost only its line end
  swallows the next marker, so that the next session's commands are replayed into the wrong database
  (`Misfiled.LostLineEndMisfiles`).

Elsewhere too the model follows the code where its documentation or its shape suggests something else, and a lemma gives
the exact condition under which the promise holds, or a concrete failure:

* A snapshot holds every string and key of a database as of one moment, but each list, set and hash as of a moment of its
  own (`SnapshotRuns.SnapshotIsAtomic`): the walk's lock is a read lock, and LSET, LPOP, RPOP, LREM, SREM, SPOP and HDEL on an
  existing container need no more. If no container changed during its walk, a database is in the file as of one moment
  (`SnapshotRuns.UndisturbedIsOneMoment`); `SnapshotMix.WalkCanMix` is a run in which two LSETs make it hold a pair of
  lists that was never there at one time. The comment at pkg/persistence/rdb.go:180-185 speaks of locking a database
  for the duration of its walk.
* The snapshot skips empty containers: a load gives the four maps back if and only if none was empty
  (`RdbRoundTrip.SnapshotIsExactIff`); `Recovery.NothingEmptyIsStored` shows that between commands none ever is.
* SET and MSET clear a deadline without evicting first, so they bring an expired list, set or hash under the same key
  back to life; that is exactly when a per-key command can tell lazy from eager expiry (`Expiry.LazyIsEagerIff`).
* KEYS, SCAN and DBSIZE sweep with a strict comparison, lazy eviction with a non-strict one: the count agrees if and
  only if nothing is stored exactly at its deadline (`Expiry.DbsizeAgreesIff`).
* README.md:15 and pkg/commands/list_commands.go:110-114 say that a blocked pop wakes as soon as there is data. A push
  between the scan and the lock is lost, and a pop without a timeout then waits for the next push
  (`BlockingWait.PushCanBeLost`, `BlockingWait.StuckForever`); `BlockingWait.WaitsOnlyIfMissed` says that this is the only way.
  A pop with a timeout answers on every fair run (`FairWait.DeadlineAnswers`).
* LREM with count -2^63 removes nothing, because the negation wraps (`Containers.LRemNegativeMirrors`), and the
  text of -2^63 is "-", which reads back as 0 (`GoText.IntTextRoundTrip`).

## Model

| member | source | states |
|---|---|---|
| `GoText.ParseInt` | pkg/datastruct/datastruct.go:447-474 | the hand-written parser returns exactly: no number for a non-digit, otherwise the digits' value wrapped to 64 bits, 0 for nothing |
| `GoText.IntToString` | pkg/datastruct/datastruct.go:476-500 | the digit loop and the reversal give the decimal text, and "-" for -2^63 |
| `GoText.ReverseDigits` | pkg/datastruct/datastruct.go:492-494 | the swapping loop reverses the bytes in place |
| `GoText.ParseIntAgreesWithAtoi` | pkg/server/tcp.go:514-541 | on every text Atoi accepts both copies of parseInt give the same number; they accept more only for no digits at all and out of range |
| `GoText.IntTextRoundTrip` | pkg/datastruct/datastruct.go:447-500 | a 64-bit integer written and parsed again comes back if and only if it is not -2^63 |
| `GoText.LooseCongruent` | pkg/datastruct/datastruct.go:447-474 | parseInt's number is the digits' value modulo 2^64, however many digits there are |
| `Resp.RoundTrip` | pkg/resp/parser.go:34-235 | for every nested value whose lines hold no LF, parsing the written bytes followed by anything returns the value and leaves exactly what followed |
| `Resp.DecodedIsSendable` | pkg/resp/parser.go:34-152 | every value the parser returns is in the domain of the round trip, so a logged command can always be read again |
| `Resp.DecodeStable` | pkg/resp/parser.go:34-152 | what has been parsed does not depend on what follows |
| `Resp.ProperPrefixStops` | pkg/resp/parser.go:57-152 | no proper prefix of an encoded value parses, and the error only says that the stream ended |
| `Resp.Parser.Parse` | pkg/resp/parser.go:34-54 | the recursive parser on a consumed reader returns what the decoding function says and leaves the rest it says |
| `Resp.Parser.ArrayBody` | pkg/resp/parser.go:127-152 | the loop over array elements, with null arrays and negative lengths as their own outcomes |
| `Resp.Parser.BulkBody` | pkg/resp/parser.go:98-125 | length, bytes and the discarded line end of a bulk string, null and negative lengths included |
| `Resp.Writer.Write` | pkg/resp/parser.go:211-235 | the writer appends exactly the encoding of the value |
| `Resp.Writer.WriteArray` | pkg/resp/parser.go:193-204 | header and elements of an array, in order |
| `Containers.LPushedReverses` | pkg/datastruct/datastruct.go:18-26 | pushing values one by one onto the head puts them there in reverse |
| `Containers.RangeSelects` | pkg/datastruct/datastruct.go:62-91 | LRANGE returns in order exactly the items at positions between its two ends, for any arguments |
| `Containers.WholeRange` | pkg/datastruct/datastruct.go:62-91 | 0 to -1 is the whole list, and each item has one position from either end |
| `Containers.LRemDirectional` | pkg/datastruct/datastruct.go:132-168 | LREM removes min(count, occurrences) copies, the first ones, the last ones or all, keeps the order of everything else, and removes nothing for -2^63 |
| `Containers.LRemNegativeMirrors` | pkg/datastruct/datastruct.go:152-165 | a negative count equals removing from the reversed list and reversing back, if and only if the count can be negated or nothing matches |
| `Containers.List.LPush` | pkg/datastruct/datastruct.go:18-26 | new list and length after the loop |
| `Containers.List.LRange` | pkg/datastruct/datastruct.go:62-91 | the clamping code returns the selected stretch |
| `Containers.List.LSet` | pkg/datastruct/datastruct.go:115-130 | sets one position, counted from either end, or nothing when it is out of range |
| `Containers.List.LRem` | pkg/datastruct/datastruct.go:132-168 | the three loops leave exactly the remaining items and count the removed ones |
| `Containers.Set.SAdd` | pkg/datastruct/datastruct.go:181-193 | the union, and how many members were new, repeated arguments included |
| `Containers.Set.SRem` | pkg/datastruct/datastruct.go:195-207 | the difference, and how many members went |
| `Containers.Set.SPop` | pkg/datastruct/datastruct.go:234-247 | some member goes, and it is the one returned |
| `Containers.Set.SMembers` | pkg/datastruct/datastruct.go:217-226 | every member once, in some order |
| `Containers.Hash.HDel` | pkg/datastruct/datastruct.go:344-356 | the fields named are gone, and how many there were |
| `Containers.Hash.HMSet` | pkg/datastruct/datastruct.go:405-412 | the given pairs override what was there |
| `Containers.LastValueWins` | pkg/commands/hash_commands.go:186-191 | a field given twice keeps its last value |
| `Containers.Hash.HIncrBy` | pkg/datastruct/datastruct.go:429-445 | the stored text is parsed, added with wrap-around and written back; on a text that is no integer nothing changes |
| `Commands.IntersectionIs` | pkg/commands/set_commands.go:137-164 | SINTER's members are those in every set gathered |
| `Commands.UnionIs` | pkg/commands/set_commands.go:167-193 | SUNION's members are those in some set gathered |
| `Effects.CommandEffect` | pkg/server/tcp.go:243-275 | for every command and database: an error reply or an unlogged command leaves all four data maps as they were but for the eviction of the keys it looks up, and no command creates an empty container |
| `Effects.InertIffQuiet` | pkg/commands/database.go:196-212 | so such a command changes no data if and only if nothing stored under those keys is past its deadline |
| `Effects.BumpFieldEffect` | pkg/commands/hash_commands.go:232-251 | HINCRBY can fail only on a hash that was there, so the hash it creates first is never left empty |
| `Replay.ReplayMatches` | pkg/server/tcp.go:280-512 | replaying a command that succeeded without evicting anything stored, on the data it started from, gives the data it left, at any later time, although replay is separate code |
| `Replay.ReplayFilled` | pkg/server/tcp.go:280-512 | replaying any command at all, malformed or not, stores no empty container |
| `Replay.PopIsScan` | pkg/server/tcp.go:487-512 | popping one key live is the replay's scan of that key |
| `AofLog.ReadWritten` | pkg/persistence/aof.go:91-150 | over any sessions, each opened with no last database, reading the whole log gives back exactly the database indices and commands written, in order, and ends cleanly |
| `AofLog.ReadTorn` | pkg/persistence/aof.go:114-144 | from any byte prefix of the log, exactly the commands wholly inside it come back, and the error only says that the file ended |
| `TornTail.TailIsSafeIff` | pkg/persistence/aof.go:28-48 | after a crash that keeps the first n bytes of any log, everything later sessions write is read back behind the commands wholly inside them if and only if the cut fell between two entries or right behind a marker |
| `TornTail.DecodeCrosses` | pkg/resp/parser.go:34-152 | a value of which a stream holds only the start ends inside the bytes that come next |
| `Misfiled.LostLineEndMisfiles` | pkg/resp/parser.go:119-122 | when the last entry, ending in a bulk string as every command does, loses its last byte or two, it is read as whole, the next session's marker comes back as two commands, and all that session wrote for one database is filed under the torn entry's |
| `Misfiled.TornTailHidesLaterEntries` | pkg/persistence/aof.go:28-48 | after one stray byte of a torn entry, nothing logged later is ever read |
| `AofLog.MarkerIsSelect` | pkg/persistence/aof.go:97-106 | the marker written is recognised and restores the index it was written for |
| `AofLog.Aof.Write` | pkg/persistence/aof.go:91-109 | a marker only when the database changes, then the command; the last database is remembered |
| `AofLog.Aof.Read` | pkg/persistence/aof.go:114-144 | the reading loop hands over the recovered calls and the error that ended it |
| `Recovery.LoggedIsNoMarker` | pkg/server/tcp.go:105-108 | no command the server logs can be mistaken for a SELECT marker |
| `Recovery.FileIsLog` | pkg/server/tcp.go:224-258 | at every point of every run, restarts and clean crashes included, the file is exactly the encoding of what was logged and not lost, for databases there are |
| `Recovery.RecoveryIsExact` | pkg/server/tcp.go:224-512 | after every run of commands on the sixteen databases, sweeps, restarts and clean crashes, in which nothing stored is evicted and SPOP has no choice, replaying the log rebuilds all strings, lists, sets and hashes |
| `Recovery.LiveIsReplayed` | pkg/server/tcp.go:280-512 | the simulation between the live interpreter and the replaying one, over whole runs |
| `Recovery.TornRecovery` | pkg/server/server.go:54-66 | from any prefix of the file, a restart finds the live state after some prefix of the run |
| `Exactness.ExactIffTame` | pkg/server/tcp.go:412-423 | where nothing stored is evicted and crashes are clean, recovery is exact throughout a run if and only if SPOP never had a choice |
| `Exactness.UntameRun` | pkg/commands/set_commands.go:111-134 | a run of SADD and SPOP in which it is not |
| `Exactness.SilentKeepsExactIff` | pkg/commands/database.go:196-229 | where recovery was exact, a sweep or any unlogged request keeps it so if and only if it evicts nothing that is stored |
| `Exactness.EvictionIsNotLogged` | pkg/commands/database.go:196-229 | a run of SET and EXPIRE after which a sweep, or a GET, breaks recovery |
| `Recovery.NothingEmptyIsStored` | pkg/commands/list_commands.go:65-69 | at every point of every run, whatever the commands and crashes, every stored list, set and hash has something in it |
| `Sessions.SessionsAreRuns` | pkg/server/tcp.go:51-125 | whatever bytes arrive on however many connections, with AUTH, SELECT and subscriptions among them, databases and log go through a run of the machine |
| `Sessions.AskedIsWellFormed` | pkg/server/tcp.go:82-119 | only an authenticated connection's non-empty array that is no SELECT reaches a database, and it can be logged and read again |
| `Sessions.PacketsMakeNoDifference` | pkg/server/tcp.go:81-120 | how a client's bytes are split makes no difference to its requests, their databases or the connection's state |
| `RdbCodec.LengthRoundTrip` | pkg/persistence/rdb.go:540-586 | a length in one, two or five bytes reads back if and only if it is below 2^32 |
| `RdbCodec.TextRoundTrip` | pkg/persistence/rdb.go:552-598 | a written string reads back, leaving what follows |
| `RdbCodec.ItemRoundTrip` | pkg/persistence/rdb.go:344-504 | every record and marker reads back, leaving what follows |
| `RdbCodec.ItemPrefixStops` | pkg/persistence/rdb.go:344-504 | a record cut anywhere is reported as cut short |
| `RdbFile.LoadWritten` | pkg/persistence/rdb.go:320-508 | loading written items is applying them in order |
| `RdbFile.LoadCut` | pkg/persistence/rdb.go:320-508 | a cut file applies exactly the items wholly inside it and then fails |
| `RdbRoundTrip.SnapshotRoundTrip` | pkg/persistence/rdb.go:161-508 | for any databases whose lengths fit and any map iteration orders, loading the saved bytes into fresh databases gives every database its data back under its own index, lists in order, without empty containers |
| `RdbRoundTrip.SnapshotIsExactIff` | pkg/persistence/rdb.go:261-314 | the four maps come back unchanged if and only if no container was empty |
| `RdbRoundTrip.LoadedIsFilled` | pkg/persistence/rdb.go:320-508 | loading saved bytes stores no empty container |
| `RdbRoundTrip.SnapshotCut` | pkg/persistence/rdb.go:320-508 | no proper prefix of a snapshot loads, and what it leaves in memory is the effect of the records wholly inside it |
| `RdbBytes.LengthBytes` | pkg/persistence/rdb.go:540-550 | the bytes of a length: one below 64, two below 16384, else five, the highest first |
| `RdbBytes.RecordBytes` | pkg/persistence/rdb.go:233-318 | the first byte of each kind of record and marker, and what follows it |
| `RdbBytes.WholeFile` | pkg/persistence/rdb.go:161-318 | the one file for a server with one string, list, set and hash in one database, byte for byte |
| `RdbBytes.Headers` | pkg/persistence/rdb.go:329-338 | fewer than twelve bytes and a wrong name are each refused; the version is not looked at |
| `RdbBytes.Endings` | pkg/persistence/rdb.go:344-506 | a byte that starts no record, an index without a database and a missing end marker end the load with their errors; the end marker ends it well whatever follows |
| `RdbBytes.RepeatedRecords` | pkg/persistence/rdb.go:386-504 | of two records under one key lists are joined, sets united, fields and strings overridden by the later |
| `SnapshotRuns.SnapshotIsAtomic` | pkg/persistence/rdb.go:161-318 | after any run of saves, failures at any step, crashes and changes to the databases and, during a walk, to its containers, the snapshot path holds the first file or a complete encoding that loads; within the last completed save each database has its strings and keys as of one moment and every container as of one of its own |
| `SnapshotRuns.UndisturbedIsOneMoment` | pkg/persistence/rdb.go:233-318 | a database none of whose containers changed during its walk is in the file as of one moment |
| `SnapshotMix.WalkCanMix` | pkg/persistence/rdb.go:233-318 | a run in which the walk writes a pair of lists that was live at no step |
| `SnapshotMix.LsetMakesThem` | pkg/commands/list_commands.go:243-265 | the changes of that run are two LSETs |
| `SnapshotRuns.OnlyRenameReplaces` | pkg/persistence/rdb.go:222-225 | the file changes at a successful rename and at no other step |
| `SnapshotRuns.UnflushedNeverLoads` | pkg/persistence/rdb.go:204-208 | until the flush the temporary file would be rejected, however much of it had been written |
| `SnapshotEnds.SaveCompletes` | pkg/persistence/rdb.go:161-232 | from every state between saves, a save that nothing disturbs can be run to its end, and what it leaves at the path loads as the live databases |
| `SnapshotEnds.FailureLeaves` | pkg/persistence/rdb.go:187-228 | a save that fails leaves the snapshot and the databases alone; the temporary file goes if it can be removed |
| `SnapshotEnds.AnythingMayChange` | pkg/persistence/rdb.go:180-202 | at every step any database may become any other, except that the one being walked keeps its strings, deadlines and keys |
| `Snapshot.WalkExtends` | pkg/persistence/rdb.go:185-318 | every step of a walk, taking the lock, copying one container or releasing it, only appends to what has been produced |
| `Expiry.CommandsCannotTell` | pkg/commands/database.go:196-212 | databases equal once expired keys are hidden give equal replies and stay so, for every command but the whole-keyspace ones, unless a string is stored over an expired container |
| `Expiry.SweepsAreInvisible` | pkg/commands/database.go:195-229 | as the clock advances, wherever sweeps fall on either side, the replies over a whole run are the same |
| `Expiry.LazyIsEagerIff` | pkg/commands/string_commands.go:25-28 | for every per-key command and every database, keeping expired keys until they are touched gives the reply and the data that evicting them all would, if and only if the command stores no string, by SET or a paired MSET, over an expired list, set or hash |
| `Expiry.DbsizeAgreesIff` | pkg/commands/admin_commands.go:49-57 | DBSIZE agrees with eager expiry if and only if nothing is stored exactly at its deadline |
| `GetKeys.GetKeys` | pkg/commands/admin_commands.go:280-307 | the key-range loop reports the strided arguments, negative last keys counted from the end |
| `GetKeys.Command` | pkg/commands/admin_commands.go:224-312 | COMMAND and COMMAND GETKEYS answer as the model's reply says, with each of its errors |
| `GetKeys.GetKeysIsAFrame` | pkg/commands/admin_commands.go:280-307 | no command changes any of the five maps at a key GETKEYS does not report |
| `GetKeys.GetKeysIsAllThatIsRead` | pkg/commands/admin_commands.go:280-307 | reply and effect depend on nothing but the reported keys |
| `GetKeys.ArityTableIsRight` | pkg/commands/admin_commands.go:110-183 | a data command is refused for its argument count exactly when the arity column, and the pairing for MSET and HMSET, says so |
| `Formats.TextIsCanonical` | pkg/resp/parser.go:174-179 | the text written for a number is the one without a leading zero, with a minus sign below zero, whose digits count up to it |
| `Formats.NumbersAreRead` | pkg/resp/parser.go:104-107 | a number is read with either sign or none and with leading zeros |
| `Formats.NothingElseIsRead` | pkg/resp/parser.go:104-107 | no digits, any other character, and a number of more than 64 bits are refused |
| `Formats.RequestBytes` | pkg/resp/parser.go:181-204 | a request is the count of its words and each word behind its length, byte for byte |
| `Formats.ReplyBytes` | pkg/resp/parser.go:165-235 | the bytes of every kind of value, the null bulk string included |
| `Formats.NegativeLengths` | pkg/resp/parser.go:110-137 | a length of -1 reads as null in bulk strings and arrays; any other negative one panics |
| `Formats.AnyLineEnd` | pkg/resp/parser.go:57-66 | whatever byte stands in front of the line feed is dropped |
| `Formats.AnythingAfterBulk` | pkg/resp/parser.go:114-122 | whatever stands between a bulk string and the next line feed is dropped |
| `Formats.CutBulk` | pkg/resp/parser.go:114-122 | a bulk string cut before its first byte, within it, or before its line feed stops with the error of each |
| `Formats.NoSuchKind` | pkg/resp/parser.go:34-66 | any other first byte, and a line without a byte to spare, are malformed |
| `Wire.NamesFold` | pkg/server/tcp.go:92-93 | the case of a command's name makes no difference |
| `WireStrings.Setting` | pkg/commands/string_commands.go:17-31 | SET stores the text, drops the deadline and touches nothing else |
| `WireStrings.Getting` | pkg/commands/string_commands.go:33-50 | GET answers the text stored, or nothing |
| `WireStrings.Typing` | pkg/commands/database.go:361-381 | TYPE names the first of string, list, set and hash the key has |
| `WireStrings.Incrementing` | pkg/commands/handler.go:24-25 | INCR adds one to the number stored, or to 0, and DECR takes one off, wrapping at the two ends; the text left is the number answered |
| `WireStrings.IncrementingBy` | pkg/commands/string_commands.go:180-221 | INCRBY adds and DECRBY subtracts the number given, up to a multiple of 2^64 and exactly where the result fits |
| `WireStrings.CountingRefused` | pkg/commands/string_commands.go:202-215 | a text that is no integer, stored or given, is refused and stays |
| `WireLists.Pushing` | pkg/commands/list_commands.go:11-46 | LPUSH leaves its values turned round in front, RPUSH leaves them behind, and both answer the new length |
| `WireLists.Popping` | pkg/commands/list_commands.go:49-98 | LPOP takes the first item and RPOP the last, and the key goes with the last item |
| `WireLists.PoppingNothing` | pkg/commands/list_commands.go:49-98 | at an empty or missing list both answer nothing and touch nothing |
| `WireLists.Ranging` | pkg/commands/list_commands.go:175-200 | LRANGE answers the stretch between its ends, an end below zero counted from the tail, and 0 to -1 is the whole list |
| `WireLists.Counting` | pkg/commands/list_commands.go:203-215 | LLEN answers the length |
| `WireLists.Indexing` | pkg/datastruct/datastruct.go:99-130 | LINDEX answers and LSET replaces the item at p for either of its positions p and p minus the length |
| `WireLists.IndexingOutside` | pkg/commands/list_commands.go:218-265 | at any other position LINDEX answers nothing and LSET one of its two errors |
| `WireLists.IndexingFromEnd` | pkg/datastruct/datastruct.go:99-113 | LINDEX at -(i + 1) is LINDEX at i of the list turned round |
| `WireLists.IndexingRefused` | pkg/commands/list_commands.go:175-265 | positions that are no integers are refused before the key is looked at |
| `WireLists.Removing` | pkg/commands/list_commands.go:268-294 | LREM leaves what the count, its sign and the value say, answers how many went, and the key goes with the last item |
| `WireLists.BlockingPops` | pkg/commands/list_commands.go:101-164 | BLPOP and BRPOP take from their end of the first key that has an item, answer key and item, and touch no other |
| `WireLists.BlockingPopsNothing` | pkg/commands/list_commands.go:125-168 | with nothing at any key the answer is nothing, and a bad time limit an error |
| `WireSets.Adding` | pkg/commands/set_commands.go:9-24 | SADD leaves the union and answers how many were new |
| `WireSets.Removing` | pkg/commands/set_commands.go:27-52 | SREM leaves the difference, answers how many went, and the key goes with the last member |
| `WireSets.Looking` | pkg/commands/set_commands.go:55-108 | SISMEMBER, SMEMBERS and SCARD |
| `WireSets.Popping` | pkg/commands/set_commands.go:111-134 | SPOP takes one member and answers it |
| `WireSets.Intersecting` | pkg/commands/set_commands.go:137-164 | SINTER answers the members all its keys have |
| `WireSets.Uniting` | pkg/commands/set_commands.go:167-193 | SUNION answers the members some key has |
| `WireSets.Subtracting` | pkg/commands/set_commands.go:196-222 | SDIFF answers the members of the first key that no other has |
| `WireHashes.Setting` | pkg/commands/hash_commands.go:10-26 | HSET sets one field and answers whether it is new |
| `WireHashes.SettingMany` | pkg/commands/hash_commands.go:178-196 | HMSET gives each field it names the value it gives last, and keeps all others |
| `WireHashes.Deleting` | pkg/commands/hash_commands.go:51-76 | HDEL drops the fields named, answers how many there were, and the key goes with the last field |
| `WireHashes.Incrementing` | pkg/datastruct/datastruct.go:429-445 | HINCRBY adds to the number in the field, or to 0, and keeps all other fields |
| `WireHashes.IncrementThenGet` | pkg/datastruct/datastruct.go:442 | on a missing field HINCRBY by d answers d, on one that holds n it answers n + d, and HGET then gives its text |
| `WireHashes.IncrementingRefused` | pkg/commands/hash_commands.go:232-251 | an increment that is no integer and a field that holds none have each their error, and nothing changes |
| `WireHashes.Getting` | pkg/commands/hash_commands.go:29-96 | HGET and HEXISTS |
| `WireHashes.GettingMany` | pkg/commands/hash_commands.go:199-229 | HMGET answers field by field |
| `WireHashes.Listing` | pkg/commands/hash_commands.go:99-175 | HGETALL answers all fields, HKEYS their names, HVALS each value as often as fields hold it, HLEN how many there are |
| `WireKeys.Expiring` | pkg/commands/expire_commands.go:27-59 | EXPIRE sets a deadline that many seconds from now and PEXPIRE that many milliseconds, in nanoseconds of 64 bits |
| `WireKeys.ExpiringNothing` | pkg/commands/expire_commands.go:42-59 | a missing key gets no deadline, and a duration that is no integer is refused |
| `WireKeys.TimeLeftIs` | pkg/commands/expire_commands.go:62-97 | TTL answers the whole seconds left and PTTL the milliseconds, -1 without a deadline and -2 without the key |
| `WireKeys.Persisting` | pkg/commands/expire_commands.go:100-117 | PERSIST takes the deadline away and answers whether there was one |
| `WireKeys.ExpireThenAsk` | pkg/commands/expire_commands.go:27-97 | after EXPIRE by n, TTL answers n at once and PTTL a thousand times n, both count down with the clock, and from the deadline on GET answers nothing |
| `WireKeys.GettingDue` | pkg/commands/database.go:196-212 | from the moment its deadline is reached a key is gone from all five maps |
| `WireKeys.SettingMany` | pkg/commands/string_commands.go:82-97 | MSET stores under each key it names the text it gives last, drops its deadline, and touches nothing else |
| `WireKeys.GettingMany` | pkg/commands/string_commands.go:99-122 | MGET answers text by text |
| `WireKeys.Deleting` | pkg/commands/string_commands.go:52-64 | DEL takes its keys out of all five maps and answers how many entries of the four data maps went |
| `WireKeys.Existing` | pkg/commands/string_commands.go:66-80 | EXISTS answers 1 for a key that is there, 0 for one that is not, and adds up over its keys |
| `WireKeys.Enumerating` | pkg/commands/admin_commands.go:12-57 | KEYS and DBSIZE first take out every key past its deadline, then name or count what each map holds |
| `WireKeys.Scanning` | pkg/commands/admin_commands.go:61-82 | SCAN answers everything at once with cursor 0, for its pattern or any |
| `WireServer.UnknownIsRefused` | pkg/server/tcp.go:231-237 | every word but the names of the handlers is refused and nothing is touched |
| `WireServer.LoggedIff` | pkg/server/tcp.go:243-275 | a request is logged if and only if its name is one of the twenty-two listed and it did not fail |
| `WireServer.OneDatabase` | pkg/server/tcp.go:224-258 | a request touches the one database it is asked for, and if logged the file grows by its bytes, behind a SELECT unless the last entry was for that database too |
| `WireServer.StringCounts` | pkg/commands/string_commands.go:17-200 | how many arguments each string command takes, and that any other count is refused with nothing touched |
| `WireServer.ListCounts` | pkg/commands/list_commands.go:11-294 | the same for lists |
| `WireServer.SetCounts` | pkg/commands/set_commands.go:9-134 | for sets |
| `WireServer.HashCounts` | pkg/commands/hash_commands.go:10-251 | for hashes |
| `WireServer.DeadlineCounts` | pkg/commands/expire_commands.go:27-117 | for deadlines |
| `WireServer.KeysCounts` | pkg/commands/string_commands.go:52-122 | for the commands on several keys |
| `WireServer.KeyspaceCounts` | pkg/commands/admin_commands.go:12-82 | for KEYS and SCAN |
| `WireServer.PublishCounts` | pkg/commands/pubsub_commands.go:6-13 | for PUBLISH |
| `WireServer.Greeting` | pkg/commands/admin_commands.go:85-105 | PING answers PONG or its argument, and HELLO refuses version 3 only |
| `WireServer.GetKeysRefused` | pkg/commands/admin_commands.go:280-303 | the errors of COMMAND GETKEYS: no name, a command without keys, one that is not known, one without its first key |
| `WireServer.FirstIsKey` | pkg/commands/admin_commands.go:121-183 | most commands have one key, their first argument |
| `WireServer.AllAreKeys` | pkg/commands/admin_commands.go:121-183 | every argument of DEL, EXISTS, MGET, SINTER, SUNION and SDIFF is reported, and nothing else |
| `WireServer.LimitIsNoKey` | pkg/commands/admin_commands.go:143-144 | all arguments of a blocking pop but the last are |
| `WireServer.SecondsAreKeys` | pkg/commands/admin_commands.go:127 | every second argument of MSET is, and what stands between is not |
| `WireServer.OneWordIsKey` | pkg/commands/admin_commands.go:288-296 | a blocking pop without a time limit has its one argument reported all the same |
| `WireServer.SubcommandRefused` | pkg/commands/admin_commands.go:229-311 | COMMAND refuses every subcommand but its five |
| `WireSessions.Authenticating` | pkg/server/tcp.go:127-147 | AUTH lets a client in exactly when it gives the password and nothing else, or none is set |
| `WireSessions.LockedOut` | pkg/server/tcp.go:100-103 | until then nothing else it says has any effect |
| `WireSessions.Selecting` | pkg/server/tcp.go:149-168 | SELECT i moves the connection to database i for 0 <= i < 16 and leaves it where it is for any other number |
| `WireSessions.SelectingNothing` | pkg/server/tcp.go:149-168 | so does a wrong argument count and what is no integer |
| `WireSessions.Asking` | pkg/server/tcp.go:110-120 | every other request of a client that was let in goes on to the databases as it came |
| `WireSessions.SelectThenAsk` | pkg/server/tcp.go:75-120 | after SELECT d the next request runs on database d and no other and is logged for d; no other connection is moved |
| `WireSessions.SelectThenSet` | pkg/server/tcp.go:51-168 | from the first connection on, SELECT d and SET k v leave the text in database d alone, and the file holds the two requests |
| `WireSessions.ConnectionsComeAndGo` | pkg/server/tcp.go:18-80 | a connection starts on database 0, bytes are added to the connection they come on, a start leaves no connection and a sweep all of them |
| `WireSessions.BadBytes` | pkg/server/tcp.go:75-85 | a length below -1 ends the process and all connections, a byte that starts no value ends the one connection that sent it, and without bytes a connection waits |
| `WireLog.EntriesAndMarkers` | pkg/persistence/aof.go:114-150 | two words of which the first is SELECT, in any case, are a marker for the index the second gives, if it is an integer; everything else is an entry for the database marked last |
| `WireLog.SelectThenSetIsRecovered` | pkg/server/server.go:54-66 | from the file of SELECT d and SET k v a start rebuilds that text in database d and fifteen empty databases |
| `WireLog.ReplayIsLenient` | pkg/server/tcp.go:287-330 | SET and INCR are replayed with any words behind them, MSET only if its words are paired |
| `Queue.QueueConserves` | pkg/commands/list_commands.go:11-172 | over any run of pushes and pops on any keys, what was in a list plus what was pushed is what was popped plus what remains |
| `Queue.QueueIsFifo` | pkg/commands/list_commands.go:30-172 | with RPUSH, LPOP and BLPOP only, the items popped followed by the list are the old list followed by the items pushed |
| `BlockingWait.StepKeepsInv` | pkg/commands/database.go:63-93 | every step of poppers, pushers, timers and the clock keeps: one owner of the mutex, a timer still to broadcast for every waiting popper with a deadline, and no waiting beside an item without a broadcast to come or missed |
| `BlockingWait.ParkedHasTimer` | pkg/commands/database.go:77-90 | in every interleaving a popper parked with a deadline has its own timer, set for that deadline, still to broadcast |
| `BlockingWait.NeverStranded` | pkg/commands/database.go:69-93 | from every reachable state, without a new push, at most six steps of others and of the clock can wake such a popper |
| `FairWait.DeadlineAnswers` | pkg/commands/list_commands.go:115-172 | on every fair infinite run, whatever other poppers, pushes and timers there are, every popper with a deadline answers |
| `WaitLaws.ReturnsOnlyWith` | pkg/commands/list_commands.go:136-171 | a popper returns exactly in a step that hands it an item, or when it has looked in vain strictly after its deadline |
| `WaitLaws.Accounts` | pkg/commands/list_commands.go:136-171 | over every run, what was pushed is what was handed out and what is left, and as many poppers have returned as were handed an item or timed out |
| `WaitLaws.WokenForAReason` | pkg/commands/database.go:63-93 | in every interleaving a parked popper is woken by a push or by a timer that is due, by its own not before its deadline |
| `WaitLaws.TimersAreStopped` | pkg/commands/database.go:77-93 | in every interleaving a popper that scans or has returned has no timer left to go off |
| `WaitLaws.MissedMeans` | pkg/commands/database.go:63-93 | a push is missed only between a popper's scan and its taking the mutex, and until its next scan |
| `WaitLaws.Parks` | pkg/commands/database.go:73-93 | a popper that found nothing and gets the mutex parks, with a timer set for its deadline exactly if it has one |
| `WaitLaws.TurnsBack` | pkg/commands/database.go:77-82 | at its deadline or later it goes back to scan and leaves nothing behind |
| `WaitLaws.PushReachesParked` | pkg/commands/database.go:63-93 | wherever a popper is parked, a push and three steps of the popper hand it an item |
| `WaitLaws.WaitsAndIsServed` | pkg/commands/list_commands.go:115-172 | a run in which a popper with a deadline parks, waits and is handed what is pushed before it |
| `FairWait.MutexComesFree` | pkg/commands/database.go:63-93 | on every fair run the mutex is free again and again |
| `FairRun.FairRunExists` | pkg/commands/database.go:63-93 | for every deadline there is a fair run in which a popper parks with it and answers once it has passed |
| `BlockingWait.WaitsOnlyIfMissed` | pkg/commands/list_commands.go:136-171 | a popper waits beside an item, with no broadcast to come, only if a push broadcast between its scan and its lock |
| `BlockingWait.PushCanBeLost` | pkg/commands/list_commands.go:137-170 | a run in which that happens |
| `BlockingWait.StuckForever` | pkg/commands/database.go:92 | such a popper without a deadline stays parked until another push or popper comes |
| `PubSub.RegistryAgrees` | pkg/pubsub/pubsub.go:19-43 | after every run of subscriptions, cancellations, hang-ups and publications, the registered queues are the disjoint union of what the connections hold, and a queue is open exactly while registered |
| `PubSub.NeverPanics` | pkg/pubsub/pubsub.go:42-57 | no run sends on a closed queue or closes one twice |
| `PubSub.DeliveryIsOrdered` | pkg/pubsub/pubsub.go:45-63 | what a subscriber got and what waits for it is an in-order subsequence of what was published while it was subscribed, with only dropped messages missing and at most sixteen waiting |
| `PubSub.NothingLostIff` | pkg/pubsub/pubsub.go:56-60 | a subscriber gets everything if and only if nothing found its queue full |
| `PubSub.PublishReaches` | pkg/pubsub/pubsub.go:45-63 | a message goes to the end of every open queue of its channel with fewer than sixteen waiting, is dropped at the others, and touches no other queue |
| `PubSub.SixteenWait` | pkg/pubsub/pubsub.go:20 | a client that subscribes and takes nothing finds the first sixteen messages waiting, in order, and has lost the rest |
| `PubSub.ReceiveTakesFirst` | pkg/server/tcp.go:170-196 | a subscriber takes what waits in the order it came |
| `PubSub.SubscriptionOpensAndCloses` | pkg/pubsub/pubsub.go:19-43 | a new subscription has an empty queue, open from now on; one given up is closed |
| `PubSub.HangUpIsFinal` | pkg/server/tcp.go:58-63 | a connection that has hung up takes no more requests, and what it held only becomes less |
| `Broker.PubSub.Subscribe` | pkg/pubsub/pubsub.go:19-30 | registers a new, open, empty queue |
| `Broker.PubSub.Unsubscribe` | pkg/pubsub/pubsub.go:32-43 | takes the queue out, drops a channel left empty, and closes the queue |
| `Broker.PubSub.Publish` | pkg/pubsub/pubsub.go:45-63 | every queue of the channel with room gets the message at its end, and the reply counts those |
| `Broker.Connection.HandleSubscribe` | pkg/server/tcp.go:170-196 | keeps the agreement between broker and connections, subscribes to exactly the new channels, and confirms each with the count so far |
| `Broker.Connection.HandleUnsubscribe` | pkg/server/tcp.go:198-222 | keeps the agreement, drops exactly the channels named, or all, and confirms every name |
| `Broker.ConfirmationsCount` | pkg/server/tcp.go:170-196 | SUBSCRIBE confirms each channel that is new, once, and the counts go up by one |
| `Broker.DismissalsCount` | pkg/server/tcp.go:198-222 | UNSUBSCRIBE confirms each name with how many channels are left when all up to it are gone |
| `Broker.Connection.Disconnect` | pkg/server/tcp.go:58-63 | leaves the broker with what the other connections hold |
| `Broker.GoneIsClosed` | pkg/pubsub/pubsub.go:42 | a queue a connection no longer holds is closed |
| `Database.Database.ExpireIfNeeded` | pkg/commands/database.go:196-212 | evicts the key from all five maps exactly when its deadline has been reached, and touches no other key |
| `Database.Database.SweepExpired` | pkg/commands/database.go:215-229 | evicts exactly the keys strictly past their deadline |
| `Database.Database.GetOrCreateList` | pkg/commands/database.go:231-244 | the list under the key, after eviction, created empty if there was none; no other key changes |
| `Database.Database.GetOrCreateSet` | pkg/commands/database.go:256-269 | the same for sets |
| `Database.Database.GetOrCreateHash` | pkg/commands/database.go:281-294 | the same for hashes |
| `Database.Database.DeleteKey` | pkg/commands/database.go:306-337 | clears all five maps at the key and counts the types it held after eviction |
| `ListCommands.Push` | pkg/commands/list_commands.go:11-46 | LPUSH and RPUSH on a database object do what the command function says |
| `ListCommands.Pop` | pkg/commands/list_commands.go:49-98 | LPOP and RPOP, the key going with the last item |
| `ListCommands.Scan` | pkg/commands/list_commands.go:137-164 | one scan of a blocking pop over its keys |
| `ListCommands.BlockingPop` | pkg/commands/list_commands.go:115-172 | BLPOP and BRPOP at the moment they answer |
| `ListCommands.LSet` | pkg/commands/list_commands.go:243-265 | LSET and its three error replies |
| `ListCommands.LRem` | pkg/commands/list_commands.go:268-294 | LREM, the key going with the last item |
| `SetCommands.SAdd` | pkg/commands/set_commands.go:9-24 | SADD on a database object |
| `SetCommands.SRem` | pkg/commands/set_commands.go:27-52 | SREM, the key going with the last member |
| `SetCommands.SPop` | pkg/commands/set_commands.go:111-134 | SPOP, with the choice map iteration made handed out |
| `HashCommands.HSet` | pkg/commands/hash_commands.go:10-26 | HSET on a database object |
| `HashCommands.HMSet` | pkg/commands/hash_commands.go:178-196 | HMSET, its pair-collecting loop included |
| `HashCommands.HDel` | pkg/commands/hash_commands.go:51-76 | HDEL, the key going with the last field |
| `HashCommands.HIncrBy` | pkg/commands/hash_commands.go:232-251 | HINCRBY, which gets or creates its hash before it can fail |
| `StringCommands.SetCommand` | pkg/commands/string_commands.go:17-31 | SET: the string is stored, the deadline cleared, nothing evicted |
| `StringCommands.MSet` | pkg/commands/string_commands.go:82-97 | MSET's loop, later pairs over earlier ones |
| `StringCommands.IncrementKey` | pkg/commands/string_commands.go:202-221 | eviction, parsing, 64-bit wrap-around and storing |
| `StringCommands.StepBy` | pkg/commands/string_commands.go:180-200 | INCRBY and DECRBY, the negation wrapping |
| `StringCommands.Del` | pkg/commands/string_commands.go:52-64 | DEL's loop and total |
| `StringCommands.SetExpire` | pkg/commands/expire_commands.go:42-59 | a deadline only for a key that exists, the duration wrapped to 64 bits |
| `StringCommands.Persist` | pkg/commands/expire_commands.go:100-117 | PERSIST on a database object |
| `ReadCommands.LRange` | pkg/commands/list_commands.go:175-200 | LRANGE: lookup, eviction included, then the list's own method; nothing at a missing key |
| `ReadCommands.LIndex` | pkg/commands/list_commands.go:218-240 | LINDEX and its error reply |
| `ReadCommands.SMembers` | pkg/commands/set_commands.go:75-93 | SMEMBERS lists the set the lookup found |
| `ReadCommands.HVals` | pkg/commands/hash_commands.go:142-160 | HVALS lists every value as often as it occurs |
| `ReadCommands.HMGet` | pkg/commands/hash_commands.go:199-229 | HMGET tells a missing field from an empty value by asking again |
| `ReadCommands.Get` | pkg/commands/string_commands.go:33-50 | GET evicts, then reads the store |
| `ReadCommands.TypeCommand` | pkg/commands/database.go:361-381 | TYPE: the first of the four maps that has the key decides |
| `ReadCommands.TimeLeftCommand` | pkg/commands/expire_commands.go:77-97 | TTL and PTTL: whole units rounded down, -1 without a deadline, -2 without the key |
| `Containers.Set.SInter` | pkg/datastruct/datastruct.go:249-271 | the nested loops keep exactly the members in every other set |
| `Containers.Set.SUnion` | pkg/datastruct/datastruct.go:273-294 | the members of this set or some other |
| `Containers.Set.SDiff` | pkg/datastruct/datastruct.go:296-315 | the members in no other set |
| `Containers.Hash.HVals` | pkg/datastruct/datastruct.go:388-397 | the values as a multiset, whatever order the fields come in |
| `Containers.ValueBagStep` | pkg/datastruct/datastruct.go:388-397 | that multiset does not depend on the field taken first |
| `ManyKeys.SInter` | pkg/commands/set_commands.go:137-164 | SINTER: empty at the first missing set, else the set's own method on the others |
| `ManyKeys.SUnion` | pkg/commands/set_commands.go:167-193 | SUNION, missing sets skipped and a missing first one taken as empty |
| `ManyKeys.SDiff` | pkg/commands/set_commands.go:196-223 | SDIFF, missing sets skipped but for the first |
| `ManyKeys.GatherSets` | pkg/commands/set_commands.go:137-223 | the loop over the keys behind the first |
| `ManyKeys.Enumerate` | pkg/commands/admin_commands.go:12-82 | KEYS, SCAN and DBSIZE sweep first |
| `Handlers.Execute` | pkg/commands/handler.go:9-84 | every command on a database object has the effect and the reply of the command function |
| `Handlers.ReplayCommand` | pkg/server/tcp.go:280-461 | the replay table on a database object has the effect of the replay function |
| `Replayer.ReplayIncrementKey` | pkg/server/tcp.go:466-481 | increments are replayed without eviction and with the hand-written parser |
| `Replayer.ReplaySPop` | pkg/server/tcp.go:412-423 | SPOP is replayed on whatever member comes first |
| `MultiDB.NewMultiDB` | pkg/commands/database.go:105-112 | sixteen empty databases that share nothing |
| `Server.Server.ProcessCommand` | pkg/server/tcp.go:224-258 | one request is one step of the machine: execute on the selected database alone, then log if it is a logged command that did not fail |
| `Server.Server.SweepExpired` | pkg/commands/database.go:122-126 | one sweep of all databases is one step of the machine |
| `Server.New` | pkg/server/server.go:31-88 | starting on a log is the machine's restart, fresh databases and every recovered entry replayed on its own, if every entry is for a database there is; otherwise there is no server, as the source panics |
| `Server.Restarted` | pkg/server/server.go:45-66 | a server starts on the file of a run with clean crashes in which nothing stored was evicted and SPOP had no choice, and holds the data the run ended with |
| `RdbStore.ErrWriter.Write` | pkg/persistence/rdb.go:526-538 | after the first error nothing more is written; the file is always a prefix of what was handed over, and all of it exactly if there was no error |
| `RdbStore.SaveDatabase` | pkg/persistence/rdb.go:233-318 | the walk writes the markers and every record once, in map iteration's order, of what it saw, and nothing for a database without keys |
| `RdbStore.Save` | pkg/persistence/rdb.go:161-208 | what reaches the temporary file is the complete encoding for some iteration orders, or the save fails |
| `RdbLoader.Fetch` | pkg/persistence/rdb.go:344-504 | one turn of the loading loop reads one item or reports why not |
| `RdbLoader.Load` | pkg/persistence/rdb.go:320-508 | loading into database objects leaves what the loading function says, errors included |
| `RdbLoader.NewFromSnapshot` | pkg/server/server.go:67-75 | starting without a log: sixteen fresh databases, loaded from the snapshot, what came before an error kept |
| `RdbLoader.Reloaded` | pkg/server/server.go:67-75 | what one server saved, another started on the file holds |

## Left out

- Interleavings below one command: no lock spans a handler and its log write (pkg/server/tcp.go:243-247), nor pop, length check and delete; the wait of the blocking pops and the snapshot's walk are the exceptions and are modelled step by step.
- ListCommands.BlockingPop: one call is the scan that answers, or the one after the deadline that finds nothing; the scans before it, which only park the caller, are in `BlockingWait`. Whether the timeout text is a non-negative float is a flag of the environment.
- RdbStore.ErrWriter.Write: running out of space is the only write error; the source's writer would stop at any other in the same way.
- RdbStore.SaveDatabase: takes what the walk saw as a value; how that relates to databases that change meanwhile is the machine in `Snapshot`.
- RdbStore.Save: the same for all databases, and up to the flush; flush, sync, close and rename are steps of that machine.
- Server.New: the start with a log; the start without one is `RdbLoader.NewFromSnapshot`. The error that ends the reading of the log is only printed by the source, and dropped here.
- Handlers.Execute: SAVE, BGSAVE and LASTSAVE answer one constructor, also where the source says that snapshots are not configured; so do PUBLISH, HELLO and COMMAND COUNT, LIST, INFO and DOCS where they succeed. Error texts are constructors.
- Snapshot.WalkExtends: a container is copied in one step, under its own lock, as the source's LRange, SMembers and HGetAll do.
- BlockingWait.NeverStranded: gives one schedule that wakes the popper; that every fair one does is `FairWait.DeadlineAnswers`.
- Exactness.SilentKeepsExactIff: covers the steps that are not logged; for a logged command that evicts something, whether the replay comes to the same depends on what was evicted.
- Errors while writing the log (pkg/server/tcp.go:247-249), fsync policies, tickers, signals, the listener, and real file handles: files are byte sequences.
- A rename that a power loss undoes: the machine in `Snapshot` lets a crash destroy the temporary file but not take back a rename.
- The timing of automatic snapshots, the change counter and LASTSAVE.
- Parsing of the timeout of BLPOP and BRPOP as a float, glob matching of KEYS and SCAN, and case folding outside ASCII.
- The order of members, fields, values and keys in replies that list a map: such a reply names the collection.
- Memory limits on lengths read from a file or the wire. A length below -1 on the wire, which makes the source panic, ends the process in `Sessions`.
- The pairs LPUSH and RPUSH, LPOP and RPOP, INCR and DECR, INCRBY and DECRBY, EXPIRE and PEXPIRE, TTL and PTTL share one method each.
- RdbLoader.Fetch: reads a hash's strings before it builds the map, where the source does both in one loop.
- Writing replies to the socket, and the messages that reach a subscriber among them.
- The embedded client in pkg/shoredis and the configuration file.
