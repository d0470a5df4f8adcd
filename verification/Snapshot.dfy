/**
 Replacing the snapshot file. `Save` walks the databases one after the other, writing a temporary file through a
 buffer, then flushes, syncs, closes and renames it; here these are steps of a machine in which any step may fail,
 and the process may die between any two.

 A walk holds its database's lock for reading. That keeps out everything that writes a map of the database, but
 not a command that looks an existing container up, which takes the same lock for reading, and then changes the
 container under the container's own lock: LSET, LPOP, RPOP, LREM, SREM, SPOP and HDEL. So between two containers
 of a walk any container may change, down to being emptied, while the strings and all keys stay.
 */
module Snapshot {
  import opened Wrappers
  import opened GoText
  import opened Sequences
  import opened Containers
  import opened Keyspace
  import opened RdbCodec
  import opened RdbFile
  import opened RdbRoundTrip
  import opened RdbWalk

  /** The file at the snapshot path and the one at the temporary path. */
  datatype Disk = Disk(snapshot: Option<Bytes>, temp: Option<Bytes>)

  /** The steps at which a walk took and released the lock, and read each container: for the record only. */
  datatype Times = Times(
    since: nat,
    lists: map<Bytes, nat>,
    sets: map<Bytes, nat>,
    hashes: map<Bytes, nat>,
    until: nat)

  /**
   A walk under way: `base` is the database when the lock was taken, `read` the strings and the containers read
   so far, `order` the order map iteration has yielded them in.
   */
  datatype OpenWalk = OpenWalk(base: DB, read: DB, order: Order, times: Times)

  /** One call of `Save`: the databases walked, each as its walk saw it, and the walk under way. */
  datatype Save = Save(dbs: seq<DB>, orders: seq<Order>, began: nat, times: seq<Times>, walk: Option<OpenWalk>)

  datatype Stage = Walking | Flushed | Synced | Closed

  datatype Phase = Resting | Saving(stage: Stage, save: Save)

  datatype Machine = Machine(live: seq<DB>, disk: Disk, phase: Phase, steps: nat, last: Option<Save>)

  /** Copying one container, in the order in which map iteration yields its elements. */
  datatype Read =
    | ReadList(key: Bytes)
    | ReadSet(key: Bytes, members: seq<Bytes>)
    | ReadHash(key: Bytes, names: seq<Bytes>)

  /** Taking the lock and writing the strings, copying one container, releasing the lock. */
  datatype WalkStep = Begin(texts: seq<Bytes>) | Copy(read: Read) | EndWalk

  /** A failed step removes the temporary file, if it can. */
  datatype Action =
    | Mutate(index: nat, db: DB)
    | Create(created: bool)
    | Walk(step: WalkStep)
    | Spill(chunk: Bytes)
    | WriteError(removed: bool)
    | Flush(flushed: bool, removed: bool)
    | Sync(synced: bool, removed: bool)
    | Close(closed: bool, removed: bool)
    | Rename(renamed: bool, removed: bool)
    | Crash(temp: Option<Bytes>, dbs: seq<DB>)

  // ------------------------------------------------------------------ one walk

  /** What the lock, held for reading, keeps still: the strings, the deadlines and all keys. */
  predicate Locked(a: DB, b: DB) {
    && a.store == b.store && a.expires == b.expires
    && a.lists.Keys == b.lists.Keys && a.sets.Keys == b.sets.Keys && a.hashes.Keys == b.hashes.Keys
  }

  function Started(db: DB, texts: seq<Bytes>, step: nat): OpenWalk {
    OpenWalk(db, DB(db.store, map[], map[], map[], db.expires), Order(texts, [], [], [], map[], map[]),
         Times(step, map[], map[], map[], step))
  }

  function WalkedList(w: OpenWalk, key: Bytes, items: seq<Bytes>, step: nat): OpenWalk {
    OpenWalk(w.base, WithList(w.read, key, items), ListOrder(w.order, key),
             w.times.(lists := w.times.lists[key := step]))
  }

  function WalkedSet(w: OpenWalk, key: Bytes, members: set<Bytes>, one: seq<Bytes>, step: nat): OpenWalk {
    OpenWalk(w.base, WithSet(w.read, key, members), SetOrder(w.order, key, one),
             w.times.(sets := w.times.sets[key := step]))
  }

  function WalkedHash(w: OpenWalk, key: Bytes, fields: map<Bytes, Bytes>, names: seq<Bytes>, step: nat): OpenWalk {
    OpenWalk(w.base, WithHash(w.read, key, fields), HashOrder(w.order, key, names),
         w.times.(hashes := w.times.hashes[key := step]))
  }

  /** The walk's database is `now` at this moment, with the keys it had when the lock was taken. */
  ghost predicate SaneWalk(w: OpenWalk, now: DB) {
    && ValidOrder(w.order, w.read) && Fits(w.read) && Locked(w.base, now)
    && w.read.store == w.base.store && w.read.expires == w.base.expires
    && w.read.lists.Keys <= w.base.lists.Keys
    && w.read.sets.Keys <= w.base.sets.Keys
    && w.read.hashes.Keys <= w.base.hashes.Keys
  }

  predicate ListsDone(w: OpenWalk) {
    w.read.lists.Keys == w.base.lists.Keys
  }

  predicate SetsDone(w: OpenWalk) {
    ListsDone(w) && w.read.sets.Keys == w.base.sets.Keys
  }

  predicate AllDone(w: OpenWalk) {
    SetsDone(w) && w.read.hashes.Keys == w.base.hashes.Keys
  }

  /** The items a walk has written: the markers when it starts, then record by record. */
  ghost function WalkItems(index: nat, w: OpenWalk): seq<Item>
    requires ValidOrder(w.order, w.read)
  {
    if TotalKeys(w.base) == 0 then []
    else [SelectDB(index), Resize(TotalKeys(w.base), 0)] + Records(w.read, w.order)
  }

  lemma SameCount<V, W>(a: map<Bytes, V>, b: map<Bytes, W>)
    requires a.Keys == b.Keys
    ensures |a| == |b|
  {
    assert |a| == |a.Keys| && |b| == |b.Keys|;
  }

  lemma SameTotal(a: DB, b: DB)
    requires Locked(a, b)
    ensures TotalKeys(a) == TotalKeys(b)
  {
    SameCount(a.lists, b.lists);
    SameCount(a.sets, b.sets);
    SameCount(a.hashes, b.hashes);
  }

  /** At its end the walk has written what `DatabaseItems` says of the database it saw. */
  lemma WalkIsDatabase(index: nat, w: OpenWalk, now: DB)
    requires SaneWalk(w, now) && AllDone(w)
    ensures Locked(w.read, now) && WalkItems(index, w) == DatabaseItems(index, w.read, w.order)
  {
    hide Records, ValidOrder, Fits, TotalKeys;
    SameTotal(w.read, w.base);
  }

  lemma StartIsSane(db: DB, texts: seq<Bytes>, step: nat)
    requires Fits(db) && Listing(texts, db.store.Keys)
    ensures SaneWalk(Started(db, texts, step), db)
  {
  }

  lemma ListFits(m: DB, now: DB, key: Bytes)
    requires Fits(m) && Fits(now) && key in now.lists
    ensures Fits(WithList(m, key, now.lists[key]))
  {
  }

  lemma SetFits(m: DB, now: DB, key: Bytes)
    requires Fits(m) && Fits(now) && key in now.sets
    ensures Fits(WithSet(m, key, now.sets[key]))
  {
  }

  lemma HashFitsToo(m: DB, now: DB, key: Bytes)
    requires Fits(m) && Fits(now) && key in now.hashes
    ensures Fits(WithHash(m, key, now.hashes[key]))
  {
  }

  lemma ListSteps(index: nat, w: OpenWalk, now: DB, key: Bytes, step: nat)
    requires SaneWalk(w, now) && Fits(now) && w.read.sets == map[] && w.read.hashes == map[]
    requires key in now.lists && key !in w.read.lists
    ensures SaneWalk(WalkedList(w, key, now.lists[key], step), now)
    ensures WalkItems(index, w) <= WalkItems(index, WalkedList(w, key, now.lists[key], step))
  {
    hide Records, ValidOrder, Fits, TotalKeys, ListItem;
    ListRead(w.read, w.order, key, now.lists[key]);
    ListFits(w.read, now, key);
  }

  lemma SetSteps(index: nat, w: OpenWalk, now: DB, key: Bytes, one: seq<Bytes>, step: nat)
    requires SaneWalk(w, now) && Fits(now) && w.read.hashes == map[]
    requires key in now.sets && key !in w.read.sets && Listing(one, now.sets[key])
    ensures SaneWalk(WalkedSet(w, key, now.sets[key], one, step), now)
    ensures WalkItems(index, w) <= WalkItems(index, WalkedSet(w, key, now.sets[key], one, step))
  {
    hide Records, ValidOrder, Fits, TotalKeys, SetItem, Listing;
    SetRead(w.read, w.order, key, now.sets[key], one);
    SetFits(w.read, now, key);
  }

  lemma HashSteps(index: nat, w: OpenWalk, now: DB, key: Bytes, names: seq<Bytes>, step: nat)
    requires SaneWalk(w, now) && Fits(now)
    requires key in now.hashes && key !in w.read.hashes && Listing(names, now.hashes[key].Keys)
    ensures SaneWalk(WalkedHash(w, key, now.hashes[key], names, step), now)
    ensures WalkItems(index, w) <= WalkItems(index, WalkedHash(w, key, now.hashes[key], names, step))
  {
    hide Records, ValidOrder, Fits, TotalKeys, HashItem, Listing, FieldPairs, AllIn;
    HashRead(w.read, w.order, key, now.hashes[key], names);
    HashFitsToo(w.read, now, key);
  }

  /** A walk reads all lists before any set, and all sets before any hash. */
  ghost predicate CanRead(w: OpenWalk, now: DB, r: Read) {
    match r
    case ReadList(key) =>
      key in now.lists && key !in w.read.lists && w.read.sets == map[] && w.read.hashes == map[]
    case ReadSet(key, one) =>
      ListsDone(w) && key in now.sets && key !in w.read.sets && w.read.hashes == map[] && Listing(one, now.sets[key])
    case ReadHash(key, names) =>
      SetsDone(w) && key in now.hashes && key !in w.read.hashes && Listing(names, now.hashes[key].Keys)
  }

  ghost function Copied(w: OpenWalk, now: DB, r: Read, step: nat): OpenWalk
    requires CanRead(w, now, r)
  {
    match r
    case ReadList(key) => WalkedList(w, key, now.lists[key], step)
    case ReadSet(key, one) => WalkedSet(w, key, now.sets[key], one, step)
    case ReadHash(key, names) => WalkedHash(w, key, now.hashes[key], names, step)
  }

  lemma CopyGrows(index: nat, w: OpenWalk, now: DB, r: Read, step: nat)
    requires SaneWalk(w, now) && Fits(now) && CanRead(w, now, r)
    ensures SaneWalk(Copied(w, now, r, step), now)
    ensures WalkItems(index, w) <= WalkItems(index, Copied(w, now, r, step))
  {
    hide SaneWalk, Fits, WalkItems, Listing, ValidOrder;
    match r {
      case ReadList(key) => ListSteps(index, w, now, key, step);
      case ReadSet(key, one) => SetSteps(index, w, now, key, one, step);
      case ReadHash(key, names) => HashSteps(index, w, now, key, names, step);
    }
  }

  // ------------------------------------------------------------------- one save

  ghost function Finished(s: Save): Bytes
    requires ValidOrders(s.orders, s.dbs)
  {
    SavedFile(s.dbs, s.orders)
  }

  ghost predicate SaneSave(s: Save, live: seq<DB>) {
    && ValidOrders(s.orders, s.dbs) && AllFit(s.dbs)
    && |s.times| == |s.dbs| <= |live| == NUM_DATABASES
    && (s.walk.Some? ==> |s.dbs| < |live| && SaneWalk(s.walk.value, live[|s.dbs|]))
  }

  ghost function OpenItems(s: Save): seq<Item>
    requires s.walk.Some? ==> ValidOrder(s.walk.value.order, s.walk.value.read)
  {
    if s.walk.Some? then WalkItems(|s.dbs|, s.walk.value) else []
  }

  ghost function AllItems(s: Save, live: seq<DB>): seq<Item>
    requires SaneSave(s, live)
  {
    SavedItems(s.dbs, s.orders) + OpenItems(s)
  }

  /** What the walks have handed to the buffered writer so far. */
  ghost function Produced(s: Save, live: seq<DB>): Bytes
    requires SaneSave(s, live)
  {
    HEADER + WriteItems(AllItems(s, live))
  }

  ghost predicate CanStep(s: Save, live: seq<DB>, ws: WalkStep)
    requires SaneSave(s, live)
  {
    match ws
    case Begin(texts) => s.walk.None? && |s.dbs| < NUM_DATABASES && Listing(texts, live[|s.dbs|].store.Keys)
    case Copy(r) => s.walk.Some? && CanRead(s.walk.value, live[|s.dbs|], r)
    case EndWalk => s.walk.Some? && AllDone(s.walk.value)
  }

  ghost function Stepped(s: Save, live: seq<DB>, ws: WalkStep, step: nat): Save
    requires SaneSave(s, live) && CanStep(s, live, ws)
  {
    match ws
    case Begin(texts) => s.(walk := Some(Started(live[|s.dbs|], texts, step)))
    case Copy(r) => s.(walk := Some(Copied(s.walk.value, live[|s.dbs|], r, step)))
    case EndWalk => Ended(s, step)
  }

  function Ended(s: Save, step: nat): Save
    requires s.walk.Some?
  {
    var w := s.walk.value;
    Save(s.dbs + [w.read], s.orders + [w.order], s.began, s.times + [w.times.(until := step)], None)
  }

  /** More items, more bytes. */
  lemma MoreItems(items: seq<Item>, more: seq<Item>)
    requires items <= more
    ensures HEADER + WriteItems(items) <= HEADER + WriteItems(more)
  {
    var rest := more[|items|..];
    assert more == items + rest;
    WriteItemsConcat(items, rest);
    Assoc(HEADER, WriteItems(items), WriteItems(rest));
  }

  lemma BeginGrows(s: Save, live: seq<DB>, texts: seq<Bytes>, step: nat)
    requires SaneSave(s, live) && AllFit(live) && CanStep(s, live, Begin(texts))
    ensures SaneSave(Stepped(s, live, Begin(texts), step), live)
    ensures AllItems(s, live) <= AllItems(Stepped(s, live, Begin(texts), step), live)
  {
    StartIsSane(live[|s.dbs|], texts, step);
    hide SavedItems, WalkItems, SaneWalk, ValidOrder, Fits, Started, Listing;
  }

  lemma CopyAppends(s: Save, live: seq<DB>, r: Read, step: nat)
    requires SaneSave(s, live) && AllFit(live) && CanStep(s, live, Copy(r))
    ensures SaneSave(Stepped(s, live, Copy(r), step), live)
    ensures AllItems(s, live) <= AllItems(Stepped(s, live, Copy(r), step), live)
  {
    CopyGrows(|s.dbs|, s.walk.value, live[|s.dbs|], r, step);
    hide SavedItems, WalkItems, SaneWalk, ValidOrder, Fits, Copied, CanRead;
  }

  lemma OneMoreDatabase(dbs: seq<DB>, orders: seq<Order>, db: DB, order: Order)
    requires ValidOrders(orders, dbs) && AllFit(dbs) && ValidOrder(order, db) && Fits(db)
    ensures ValidOrders(orders + [order], dbs + [db]) && AllFit(dbs + [db])
  {
  }

  lemma EndIsSane(s: Save, live: seq<DB>, step: nat)
    requires SaneSave(s, live) && CanStep(s, live, EndWalk)
    ensures SaneSave(Stepped(s, live, EndWalk, step), live)
  {
    hide SavedItems, DatabaseItems, WalkItems, ValidOrder, Fits, Locked, ValidOrders, AllFit, AllDone;
    OneMoreDatabase(s.dbs, s.orders, s.walk.value.read, s.walk.value.order);
  }

  lemma EndAddsNothing(s: Save, live: seq<DB>, step: nat)
    requires SaneSave(s, live) && CanStep(s, live, EndWalk) && SaneSave(Stepped(s, live, EndWalk, step), live)
    ensures AllItems(s, live) == AllItems(Stepped(s, live, EndWalk, step), live)
  {
    hide SavedItems, DatabaseItems, WalkItems, ValidOrder, Fits, Locked, ValidOrders, AllFit, AllDone;
    var w := s.walk.value;
    WalkIsDatabase(|s.dbs|, w, live[|s.dbs|]);
    SavedAppends(s.dbs, s.orders, w.read, w.order);
    var items := SavedItems(s.dbs + [w.read], s.orders + [w.order]);
    assert items + [] == items;
  }

  /** Every step of the walks only appends to what has been written. */
  lemma WalkExtends(s: Save, live: seq<DB>, ws: WalkStep, step: nat)
    requires SaneSave(s, live) && AllFit(live) && CanStep(s, live, ws)
    ensures SaneSave(Stepped(s, live, ws, step), live)
    ensures Produced(s, live) <= Produced(Stepped(s, live, ws, step), live)
  {
    hide SaneSave, AllItems, Stepped, CanStep, AllFit;
    match ws {
      case Begin(texts) => BeginGrows(s, live, texts, step);
      case Copy(r) => CopyAppends(s, live, r, step);
      case EndWalk =>
        EndIsSane(s, live, step);
        EndAddsNothing(s, live, step);
    }
    MoreItems(AllItems(s, live), AllItems(Stepped(s, live, ws, step), live));
  }

  // ---------------------------------------------------------------- the machine

  predicate At(m: Machine, stage: Stage) {
    m.phase.Saving? && m.phase.stage == stage
  }

  /** All databases have been walked. */
  predicate Walked(m: Machine) {
    At(m, Walking) && AllWalked(m.phase.save)
  }

  predicate AllWalked(s: Save) {
    |s.dbs| == NUM_DATABASES && s.walk.None?
  }

  /** The walk under way is at database `index`. */
  predicate WalkAt(m: Machine, index: nat) {
    At(m, Walking) && m.phase.save.walk.Some? && |m.phase.save.dbs| == index
  }

  ghost predicate Sane(m: Machine) {
    && |m.live| == NUM_DATABASES && AllFit(m.live)
    && (m.phase.Saving? ==>
          && m.disk.temp.Some? && SaneSave(m.phase.save, m.live)
          && (m.phase.stage != Walking ==> AllWalked(m.phase.save)))
  }

  /** The steps the code and the world can take. */
  ghost predicate Enabled(m: Machine, a: Action)
    requires Sane(m)
  {
    match a
    case Mutate(i, db) => i < NUM_DATABASES && Fits(db) && (WalkAt(m, i) ==> Locked(m.live[i], db))
    case Create(_) => m.phase.Resting?
    case Walk(ws) => At(m, Walking) && CanStep(m.phase.save, m.live, ws)
    case Spill(chunk) => At(m, Walking) && m.disk.temp.value + chunk <= Produced(m.phase.save, m.live)
    case WriteError(_) => Walked(m)
    case Flush(_, _) => Walked(m)
    case Sync(_, _) => At(m, Flushed)
    case Close(_, _) => At(m, Synced)
    case Rename(_, _) => At(m, Closed)
    case Crash(temp, dbs) => |dbs| == NUM_DATABASES && AllFit(dbs)
  }

  function Abandoned(m: Machine, removed: bool): Machine {
    m.(phase := Resting, disk := if removed then m.disk.(temp := None) else m.disk)
  }

  function Proceed(m: Machine, ok: bool, stage: Stage, removed: bool): Machine
    requires m.phase.Saving?
  {
    if ok then m.(phase := Saving(stage, m.phase.save)) else Abandoned(m, removed)
  }

  ghost function Taken(m: Machine, a: Action): Machine
    requires Sane(m) && Enabled(m, a)
  {
    match a
    case Mutate(i, db) => m.(live := m.live[i := db])
    case Create(created) =>
      if created
      then m.(disk := m.disk.(temp := Some("")), phase := Saving(Walking, Save([], [], m.steps, [], None)))
      else m
    case Walk(ws) => m.(phase := Saving(Walking, Stepped(m.phase.save, m.live, ws, m.steps)))
    case Spill(chunk) => m.(disk := m.disk.(temp := Some(m.disk.temp.value + chunk)))
    case WriteError(removed) => Abandoned(m, removed)
    case Flush(flushed, removed) =>
      if flushed then m.(disk := m.disk.(temp := Some(Finished(m.phase.save))), phase := Saving(Flushed, m.phase.save))
      else Abandoned(m, removed)
    case Sync(synced, removed) => Proceed(m, synced, Synced, removed)
    case Close(closed, removed) => Proceed(m, closed, Closed, removed)
    case Rename(renamed, removed) =>
      if renamed then m.(disk := Disk(m.disk.temp, None), phase := Resting, last := Some(m.phase.save))
      else Abandoned(m, removed)
    case Crash(temp, dbs) => m.(live := dbs, disk := m.disk.(temp := temp), phase := Resting)
  }

  ghost function Next(m: Machine, a: Action): Machine
    requires Sane(m) && Enabled(m, a)
  {
    Taken(m, a).(steps := m.steps + 1)
  }

  ghost predicate StepOf(m: Machine, a: Action, m': Machine) {
    Sane(m) && Enabled(m, a) && m' == Next(m, a)
  }

  // -------------------------------------------------------------- the invariant

  /** The bytes the temporary file holds at each stage. */
  ghost predicate TempFits(m: Machine)
    requires Sane(m)
  {
    m.phase.Saving? ==>
      if m.phase.stage == Walking then m.disk.temp.value <= Produced(m.phase.save, m.live)
      else m.disk.temp.value == Finished(m.phase.save)
  }

  /** The snapshot path holds the last completed save, or, before any, what was there at first. */
  ghost predicate SnapshotFits(m: Machine, first: Option<Bytes>) {
    match m.last
    case None => m.disk.snapshot == first
    case Some(s) => Complete(s) && m.disk.snapshot == Some(Finished(s))
  }

  ghost predicate Complete(s: Save) {
    ValidOrders(s.orders, s.dbs) && AllFit(s.dbs) && AllWalked(s)
  }

  ghost predicate Inv(m: Machine, first: Option<Bytes>) {
    Sane(m) && TempFits(m) && SnapshotFits(m, first)
  }

  /** Whatever changes in the databases, what has been written stays written. */
  lemma StillSane(s: Save, live: seq<DB>, i: nat, db: DB)
    requires SaneSave(s, live) && i < |live| && (s.walk.Some? && |s.dbs| == i ==> Locked(live[i], db))
    ensures SaneSave(s, live[i := db]) && Produced(s, live[i := db]) == Produced(s, live)
  {
    hide ValidOrder, Fits, SavedItems, WalkItems, ValidOrders, AllFit;
  }

  lemma FitsStill(live: seq<DB>, i: nat, db: DB)
    requires AllFit(live) && i < |live| && Fits(db)
    ensures AllFit(live[i := db])
  {
    hide Fits;
  }

  lemma MutateKeeps(m: Machine, i: nat, db: DB, first: Option<Bytes>)
    requires Inv(m, first) && Enabled(m, Mutate(i, db))
    ensures Inv(Next(m, Mutate(i, db)), first)
  {
    hide SaneSave, Produced, Fits, AllFit, Complete, Locked, Finished, SaneWalk;
    FitsStill(m.live, i, db);
    if m.phase.Saving? {
      assert m.phase.save.walk.Some? && |m.phase.save.dbs| == i ==> WalkAt(m, i);
      StillSane(m.phase.save, m.live, i, db);
    }
  }

  lemma WalkKeeps(m: Machine, ws: WalkStep, first: Option<Bytes>)
    requires Inv(m, first) && Enabled(m, Walk(ws))
    ensures Inv(Next(m, Walk(ws)), first)
  {
    WalkExtends(m.phase.save, m.live, ws, m.steps);
    hide SaneSave, Produced, AllFit, Complete, CanStep, Stepped, Finished;
  }

  lemma CreateKeeps(m: Machine, created: bool, first: Option<Bytes>)
    requires Inv(m, first) && Enabled(m, Create(created))
    ensures Inv(Next(m, Create(created)), first)
  {
    assert SaneSave(Save([], [], m.steps, [], None), m.live);
    hide SaneSave, Produced, AllFit, Complete, Finished;
  }

  /** Finishing the file, or failing to. */
  lemma FinishKeeps(m: Machine, a: Action, first: Option<Bytes>)
    requires a.WriteError? || a.Flush? || a.Sync? || a.Close?
    requires Inv(m, first) && Enabled(m, a)
    ensures Inv(Next(m, a), first)
  {
    hide SaneSave, Produced, AllFit, Complete, Finished;
  }

  lemma SpillKeeps(m: Machine, chunk: Bytes, first: Option<Bytes>)
    requires Inv(m, first) && Enabled(m, Spill(chunk))
    ensures Inv(Next(m, Spill(chunk)), first)
  {
    hide SaneSave, Produced, AllFit, Complete, Finished;
  }

  lemma RenameKeeps(m: Machine, a: Action, first: Option<Bytes>)
    requires a.Rename? && Inv(m, first) && Enabled(m, a)
    ensures Inv(Next(m, a), first)
  {
    hide Produced, AllFit, ValidOrders, SaneWalk, Finished;
  }

  lemma CrashKeeps(m: Machine, a: Action, first: Option<Bytes>)
    requires a.Crash? && Inv(m, first) && Enabled(m, a)
    ensures Inv(Next(m, a), first)
  {
    hide SaneSave, Produced, AllFit, Complete, Finished;
  }

  lemma StepKeepsInv(m: Machine, a: Action, m': Machine, first: Option<Bytes>)
    requires Inv(m, first) && StepOf(m, a, m')
    ensures Inv(m', first)
  {
    hide Inv, Enabled, Next;
    match a {
      case Mutate(i, db) => MutateKeeps(m, i, db, first);
      case Create(created) => CreateKeeps(m, created, first);
      case Walk(ws) => WalkKeeps(m, ws, first);
      case Spill(chunk) => SpillKeeps(m, chunk, first);
      case Rename(_, _) => RenameKeeps(m, a, first);
      case Crash(_, _) => CrashKeeps(m, a, first);
      case _ => FinishKeeps(m, a, first);
    }
  }
}
