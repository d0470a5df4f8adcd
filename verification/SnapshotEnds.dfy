/**
 A save that nothing disturbs comes to its end: from any state between two saves the steps of `Save`, none of which
 fails, put a file in place that loads as the databases there are.
 */
module SnapshotEnds {
  import opened Wrappers
  import opened GoText
  import opened Containers
  import opened Keyspace
  import opened RdbFile
  import opened RdbRoundTrip
  import opened RdbWalk
  import opened Snapshot
  import opened SnapshotRuns

  /** Steps taken one after the other. */
  ghost predicate Trace(m: Machine, actions: seq<Action>, m': Machine)
    decreases actions
  {
    if actions == [] then m == m'
    else Sane(m) && Enabled(m, actions[0]) && Trace(Next(m, actions[0]), actions[1..], m')
  }

  /** A step of `Save` that does not fail. */
  predicate Succeeds(a: Action) {
    match a
    case Create(created) => created
    case Walk(_) => true
    case Flush(flushed, _) => flushed
    case Sync(synced, _) => synced
    case Close(closed, _) => closed
    case Rename(renamed, _) => renamed
    case _ => false
  }

  ghost predicate Undisturbed(m: Machine, actions: seq<Action>, m': Machine) {
    Trace(m, actions, m') && forall i :: 0 <= i < |actions| ==> Succeeds(actions[i])
  }

  lemma {:induction false} TraceThen(m: Machine, first: seq<Action>, mid: Machine, more: seq<Action>, m': Machine)
    requires Trace(m, first, mid) && Trace(mid, more, m')
    ensures Trace(m, first + more, m')
    decreases first
  {
    if first == [] {
      assert first + more == more;
    } else {
      hide Sane, Enabled, Next;
      TraceThen(Next(m, first[0]), first[1..], mid, more, m');
      assert (first + more)[1..] == first[1..] + more;
    }
  }

  lemma Together(m: Machine, first: seq<Action>, mid: Machine, more: seq<Action>, m': Machine)
    requires Undisturbed(m, first, mid) && Undisturbed(mid, more, m')
    ensures Undisturbed(m, first + more, m')
  {
    hide Trace;
    TraceThen(m, first, mid, more, m');
  }

  lemma OneStep(m: Machine, a: Action, first: Option<Bytes>)
    requires Inv(m, first) && Enabled(m, a) && Succeeds(a)
    ensures Undisturbed(m, [a], Next(m, a)) && Inv(Next(m, a), first)
  {
    StepKeepsInv(m, a, Next(m, a), first);
    assert [a][1..] == [];
    assert Trace(Next(m, a), [a][1..], Next(m, a));
    hide Enabled, Next, Inv, Succeeds;
  }

  // ------------------------------------------------------------------ one walk

  lemma {:induction false} SomeOrder(elements: set<Bytes>) returns (order: seq<Bytes>)
    ensures Listing(order, elements)
  {
    order := [];
    if elements != {} {
      var x :| x in elements;
      order := SomeOrder(elements - {x});
      ListingSnoc(order, elements - {x}, x);
      order := order + [x];
      assert elements - {x} + {x} == elements;
    }
  }

  /** What a map has read so far of another. */
  ghost predicate PartOf<V>(read: map<Bytes, V>, all: map<Bytes, V>) {
    forall k :: k in read ==> k in all && all[k] == read[k]
  }

  lemma AllOf<V>(read: map<Bytes, V>, all: map<Bytes, V>)
    requires PartOf(read, all) && read.Keys == all.Keys
    ensures read == all
  {
  }

  /** A walk that has met nothing but the database as it is. */
  ghost predicate WalkOf(w: OpenWalk, db: DB) {
    && w.base == db && w.read.store == db.store && w.read.expires == db.expires
    && PartOf(w.read.lists, db.lists) && PartOf(w.read.sets, db.sets) && PartOf(w.read.hashes, db.hashes)
    && (w.read.sets == map[] || ListsDone(w)) && (w.read.hashes == map[] || SetsDone(w))
  }

  function Missing<V>(read: map<Bytes, V>, all: map<Bytes, V>): set<Bytes> {
    all.Keys - read.Keys
  }

  function ToRead(w: OpenWalk): nat {
    |Missing(w.read.lists, w.base.lists)| + |Missing(w.read.sets, w.base.sets)|
    + |Missing(w.read.hashes, w.base.hashes)|
  }

  lemma OneRead<V>(read: map<Bytes, V>, all: map<Bytes, V>, k: Bytes)
    requires PartOf(read, all) && k in all && k !in read
    ensures PartOf(read[k := all[k]], all) && |Missing(read[k := all[k]], all)| == |Missing(read, all)| - 1
  {
    assert Missing(read[k := all[k]], all) == Missing(read, all) - {k};
  }

  lemma NothingMissing<V>(read: map<Bytes, V>, all: map<Bytes, V>)
    requires PartOf(read, all) && forall k :: k in all ==> k in read
    ensures read.Keys == all.Keys
  {
  }

  /** Which container comes next. */
  lemma NextRead(w: OpenWalk, db: DB) returns (r: Read)
    requires WalkOf(w, db) && !AllDone(w)
    ensures CanRead(w, db, r)
  {
    hide Listing;
    if !ListsDone(w) {
      NothingMissingOr(w.read.lists, db.lists);
      var k :| k in db.lists && k !in w.read.lists;
      r := ReadList(k);
    } else if !SetsDone(w) {
      NothingMissingOr(w.read.sets, db.sets);
      var k :| k in db.sets && k !in w.read.sets;
      var order := SomeOrder(db.sets[k]);
      r := ReadSet(k, order);
    } else {
      NothingMissingOr(w.read.hashes, db.hashes);
      var k :| k in db.hashes && k !in w.read.hashes;
      var order := SomeOrder(db.hashes[k].Keys);
      r := ReadHash(k, order);
    }
  }

  lemma NothingMissingOr<V>(read: map<Bytes, V>, all: map<Bytes, V>)
    requires PartOf(read, all) && read.Keys != all.Keys
    ensures exists k :: k in all && k !in read
  {
    if forall k :: k in all ==> k in read {
      NothingMissing(read, all);
    }
  }

  lemma ReadOn(w: OpenWalk, db: DB, r: Read, step: nat)
    requires WalkOf(w, db) && CanRead(w, db, r)
    ensures WalkOf(Copied(w, db, r, step), db) && ToRead(Copied(w, db, r, step)) < ToRead(w)
  {
    hide Listing, Missing, PartOf;
    match r {
      case ReadList(k) => OneRead(w.read.lists, db.lists, k);
      case ReadSet(k, _) => OneRead(w.read.sets, db.sets, k);
      case ReadHash(k, _) => OneRead(w.read.hashes, db.hashes, k);
    }
  }

  lemma AllRead(w: OpenWalk, db: DB)
    requires WalkOf(w, db) && AllDone(w)
    ensures w.read == db
  {
    AllOf(w.read.lists, db.lists);
    AllOf(w.read.sets, db.sets);
    AllOf(w.read.hashes, db.hashes);
  }

  lemma StartedIs(db: DB, texts: seq<Bytes>, step: nat)
    ensures WalkOf(Started(db, texts, step), db)
  {
  }

  // ---------------------------------------------------------------- the machine

  /** A save that has walked the first `k` databases, and met them as they are. */
  ghost predicate Between(m: Machine, live: seq<DB>, k: nat, first: Option<Bytes>) {
    && Inv(m, first) && m.live == live && Snapshot.At(m, Walking) && k <= |live|
    && m.phase.save.walk.None? && m.phase.save.dbs == live[..k]
  }

  /** And is now walking the next. */
  ghost predicate Within(m: Machine, live: seq<DB>, k: nat, w: OpenWalk, first: Option<Bytes>) {
    && Inv(m, first) && m.live == live && Snapshot.At(m, Walking) && k < |live| == NUM_DATABASES
    && m.phase.save.walk == Some(w) && m.phase.save.dbs == live[..k]
    && WalkOf(w, live[k])
  }

  lemma Begins(m: Machine, live: seq<DB>, k: nat, first: Option<Bytes>)
    returns (a: Action, m': Machine, w: OpenWalk)
    requires Between(m, live, k, first) && k < NUM_DATABASES
    ensures Undisturbed(m, [a], m') && Within(m', live, k, w, first)
  {
    hide Listing, ValidOrders, AllFit, Produced, Finished, WalkOf, SaneSave;
    var texts := SomeOrder(live[k].store.Keys);
    a := Walk(Begin(texts));
    w := Started(live[k], texts, m.steps);
    StartedIs(live[k], texts, m.steps);
    m' := Next(m, a);
    OneStep(m, a, first);
    hide Undisturbed;
  }

  lemma Copies(m: Machine, live: seq<DB>, k: nat, w: OpenWalk, first: Option<Bytes>)
    returns (a: Action, m': Machine, w': OpenWalk)
    requires Within(m, live, k, w, first) && !AllDone(w)
    ensures Undisturbed(m, [a], m') && Within(m', live, k, w', first) && ToRead(w') < ToRead(w)
  {
    hide Listing, ValidOrders, AllFit, Produced, Finished, WalkOf, SaneSave, CanRead, AllDone, ToRead, Copied;
    var r := NextRead(w, live[k]);
    a := Walk(Copy(r));
    w' := Copied(w, live[k], r, m.steps);
    ReadOn(w, live[k], r, m.steps);
    m' := Next(m, a);
    OneStep(m, a, first);
    hide Undisturbed;
  }

  lemma Ends(m: Machine, live: seq<DB>, k: nat, w: OpenWalk, first: Option<Bytes>)
    returns (a: Action, m': Machine)
    requires Within(m, live, k, w, first) && AllDone(w)
    ensures Undisturbed(m, [a], m') && Between(m', live, k + 1, first)
  {
    hide ValidOrders, AllFit, Produced, Finished, WalkOf, SaneSave, AllDone;
    a := Walk(EndWalk);
    AllRead(w, live[k]);
    m' := Next(m, a);
    OneStep(m, a, first);
    hide Undisturbed;
    assert live[..k] + [live[k]] == live[..k + 1];
  }

  /** One database from the moment its walk has begun. */
  lemma {:induction false} WalksOn(m: Machine, live: seq<DB>, k: nat, w: OpenWalk, first: Option<Bytes>)
    returns (actions: seq<Action>, m': Machine)
    requires Within(m, live, k, w, first)
    ensures Undisturbed(m, actions, m') && Between(m', live, k + 1, first)
    decreases ToRead(w)
  {
    hide *;
    if AllDone(w) {
      var a;
      a, m' := Ends(m, live, k, w, first);
      actions := [a];
    } else {
      var a, mid, w' := Copies(m, live, k, w, first);
      actions, m' := WalksOn(mid, live, k, w', first);
      Together(m, [a], mid, actions, m');
      actions := [a] + actions;
    }
  }

  /** The databases that are left. */
  lemma {:induction false} WalksAll(m: Machine, live: seq<DB>, k: nat, first: Option<Bytes>)
    returns (actions: seq<Action>, m': Machine)
    requires Between(m, live, k, first) && k <= NUM_DATABASES
    ensures Undisturbed(m, actions, m') && Between(m', live, NUM_DATABASES, first)
    decreases NUM_DATABASES - k
  {
    hide *;
    if k == NUM_DATABASES {
      actions, m' := [], m;
      Already(m);
    } else {
      var a, mid, w := Begins(m, live, k, first);
      var here, next := WalksOn(mid, live, k, w, first);
      Together(m, [a], mid, here, next);
      actions, m' := WalksAll(next, live, k + 1, first);
      Together(m, [a] + here, next, actions, m');
      actions := [a] + here + actions;
    }
  }

  lemma Already(m: Machine)
    ensures Undisturbed(m, [], m)
  {
  }

  lemma Creates(m: Machine, first: Option<Bytes>) returns (m': Machine)
    requires Inv(m, first) && m.phase.Resting?
    ensures Undisturbed(m, [Create(true)], m') && Between(m', m.live, 0, first)
  {
    hide ValidOrders, AllFit, Produced, Finished, SaneSave;
    m' := Next(m, Create(true));
    OneStep(m, Create(true), first);
    hide Undisturbed;
    assert m.live[..0] == [];
  }

  lemma Flushes(m: Machine, live: seq<DB>, first: Option<Bytes>) returns (m': Machine)
    requires Between(m, live, NUM_DATABASES, first)
    ensures Undisturbed(m, [Flush(true, false)], m') && Inv(m', first)
    ensures Snapshot.At(m', Flushed) && m'.live == live && m'.phase.save.dbs == live
  {
    hide ValidOrders, AllFit, Produced, Finished, SaneSave;
    assert |live| == NUM_DATABASES && live[..NUM_DATABASES] == live;
    m' := Next(m, Flush(true, false));
    OneStep(m, Flush(true, false), first);
    hide Undisturbed;
  }

  lemma Replaces(m: Machine, first: Option<Bytes>) returns (m': Machine)
    requires Inv(m, first) && Snapshot.At(m, Flushed)
    ensures Undisturbed(m, [Sync(true, false)] + [Close(true, false)] + [Rename(true, false)], m') && Inv(m', first)
    ensures m'.phase.Resting? && m'.live == m.live && m'.last == Some(m.phase.save) && m'.disk.temp.None?
  {
    hide ValidOrders, AllFit, Produced, Finished, SaneSave;
    var synced := Next(m, Sync(true, false));
    OneStep(m, Sync(true, false), first);
    var closed := Next(synced, Close(true, false));
    OneStep(synced, Close(true, false), first);
    m' := Next(closed, Rename(true, false));
    OneStep(closed, Rename(true, false), first);
    hide Undisturbed;
    Together(m, [Sync(true, false)], synced, [Close(true, false)], closed);
    Together(m, [Sync(true, false)] + [Close(true, false)], closed, [Rename(true, false)], m');
  }

  lemma InPlace(m: Machine, first: Option<Bytes>)
    requires Inv(m, first) && m.last.Some?
    ensures m.disk.snapshot.Some? && LoadsAs(m.disk.snapshot.value, m.last.value.dbs)
  {
    hide Complete, Finished, Sane, TempFits, LoadsAs;
    FinishedLoads(m.last.value);
  }

  /**
   From every state of the machine in which no save is under way, a save whose steps succeed and that nothing
   disturbs can be run to its end, and what it leaves at the path loads as the live databases, empty containers
   aside.
   */
  lemma SaveCompletes(m: Machine, first: Option<Bytes>) returns (actions: seq<Action>, m': Machine)
    requires Inv(m, first) && m.phase.Resting?
    ensures Undisturbed(m, actions, m') && Inv(m', first)
    ensures m'.phase.Resting? && m'.live == m.live && m'.disk.temp.None?
    ensures m'.disk.snapshot.Some? && LoadsAs(m'.disk.snapshot.value, m.live)
  {
    assert 0 <= NUM_DATABASES;
    hide *;
    var created := Creates(m, first);
    var walks, walked := WalksAll(created, m.live, 0, first);
    Together(m, [Create(true)], created, walks, walked);
    var flushed := Flushes(walked, m.live, first);
    Together(m, [Create(true)] + walks, walked, [Flush(true, false)], flushed);
    m' := Replaces(flushed, first);
    actions := [Create(true)] + walks + [Flush(true, false)];
    var last := [Sync(true, false)] + [Close(true, false)] + [Rename(true, false)];
    Together(m, actions, flushed, last, m');
    actions := actions + last;
    InPlace(m', first);
  }

  // ------------------------------------------------------- failures and changes

  /**
   A save that fails leaves the file at the path and the databases alone; the temporary file goes if it can be
   removed.
   */
  lemma FailureLeaves(m: Machine, a: Action, removed: bool)
    requires Sane(m) && Enabled(m, a)
    requires a in {WriteError(removed), Flush(false, removed), Sync(false, removed), Close(false, removed),
                   Rename(false, removed)}
    ensures var m' := Next(m, a);
            && m'.phase.Resting? && m'.live == m.live && m'.last == m.last
            && m'.disk == Disk(m.disk.snapshot, if removed then None else m.disk.temp)
  {
    hide Enabled, Sane;
  }

  /**
   At any step any database may become any other, but for the one being walked, of which the containers may
   change, and the strings, the deadlines and the keys may not.
   */
  lemma AnythingMayChange(m: Machine, i: nat, db: DB)
    requires Sane(m) && i < 16 && Fits(db)
    ensures var walked := m.phase.Saving? && m.phase.stage == Walking && m.phase.save.walk.Some?
                          && |m.phase.save.dbs| == i;
            Enabled(m, Mutate(i, db)) <==>
            (walked ==>
               && db.store == m.live[i].store && db.expires == m.live[i].expires
               && db.lists.Keys == m.live[i].lists.Keys && db.sets.Keys == m.live[i].sets.Keys
               && db.hashes.Keys == m.live[i].hashes.Keys)
  {
    hide SaneSave, Fits, AllFit;
  }
}
