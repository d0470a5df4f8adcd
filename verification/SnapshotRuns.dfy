/**
 Runs of the snapshot machine: what the file at the snapshot path holds at any point of any run of saves,
 failures, crashes and changes to the databases, and how it relates to what was live.
 */
module SnapshotRuns {
  import opened Wrappers
  import opened GoText
  import opened Sequences
  import opened Containers
  import opened Keyspace
  import opened RdbCodec
  import opened RdbFile
  import opened RdbRoundTrip
  import opened RdbWalk
  import opened Snapshot

  /** A machine about to run: whatever is on the disk, no save under way. */
  ghost predicate Initial(m: Machine) {
    Sane(m) && m.phase.Resting? && m.steps == 0 && m.last.None?
  }

  /** A run: the machine before and after each of its actions. */
  ghost predicate IsRun(states: seq<Machine>, actions: seq<Action>) {
    && |states| == |actions| + 1
    && Initial(states[0])
    && forall i :: 0 <= i < |actions| ==> StepOf(states[i], actions[i], states[i + 1])
  }

  // ------------------------------------------------------------ what a walk saw

  /** The value of database `i` at a step of the run. */
  function LiveAt(states: seq<Machine>, t: nat, i: nat): DB
    requires t < |states| && i < |states[t].live|
  {
    states[t].live[i]
  }

  ghost predicate HasLive(states: seq<Machine>, n: nat, i: nat) {
    n < |states| && forall t :: 0 <= t <= n ==> i < |states[t].live|
  }

  /** Each list was copied at a step of its own after the walk began, and before step `n`. */
  ghost predicate ListsSeen(read: map<Bytes, seq<Bytes>>, at: map<Bytes, nat>, since: nat, i: nat,
                            states: seq<Machine>, n: nat)
    requires HasLive(states, n, i)
  {
    at.Keys == read.Keys && forall k :: k in read ==>
      since < at[k] < n && Find(LiveAt(states, at[k], i).lists, k) == Some(read[k])
  }

  ghost predicate SetsSeen(read: map<Bytes, set<Bytes>>, at: map<Bytes, nat>, since: nat, i: nat,
                           states: seq<Machine>, n: nat)
    requires HasLive(states, n, i)
  {
    at.Keys == read.Keys && forall k :: k in read ==>
      since < at[k] < n && Find(LiveAt(states, at[k], i).sets, k) == Some(read[k])
  }

  ghost predicate HashesSeen(read: map<Bytes, map<Bytes, Bytes>>, at: map<Bytes, nat>, since: nat, i: nat,
                             states: seq<Machine>, n: nat)
    requires HasLive(states, n, i)
  {
    at.Keys == read.Keys && forall k :: k in read ==>
      since < at[k] < n && Find(LiveAt(states, at[k], i).hashes, k) == Some(read[k])
  }

  /** From the step the walk began until step `n`, strings, deadlines and keys stayed as they were. */
  ghost predicate HeldStill(times: Times, i: nat, states: seq<Machine>, n: nat)
    requires HasLive(states, n, i)
  {
    times.since < n &&
    forall t :: times.since <= t <= n ==> Locked(LiveAt(states, times.since, i), LiveAt(states, t, i))
  }

  /** A walk of database `i`, still under way at step `n`, has read this much of it. */
  ghost predicate Seen(db: DB, times: Times, i: nat, states: seq<Machine>, n: nat) {
    && HasLive(states, n, i) && HeldStill(times, i, states, n)
    && db.store == LiveAt(states, times.since, i).store && db.expires == LiveAt(states, times.since, i).expires
    && ListsSeen(db.lists, times.lists, times.since, i, states, n)
    && SetsSeen(db.sets, times.sets, times.since, i, states, n)
    && HashesSeen(db.hashes, times.hashes, times.since, i, states, n)
  }

  /**
   What a finished walk wrote: all strings and all keys as of one moment, indeed of every moment of the walk, and
   each list, set and hash as it was at a moment of its own within the walk.
   */
  ghost predicate WalkSaw(db: DB, times: Times, i: nat, states: seq<Machine>) {
    Seen(db, times, i, states, times.until) && Locked(db, LiveAt(states, times.since, i))
  }

  /** Every database of the save was walked within it. */
  ghost predicate Witnessed(s: Save, states: seq<Machine>, now: nat) {
    && s.began < now <= |states| && |s.times| == |s.dbs|
    && (forall i :: 0 <= i < |s.dbs| ==>
          s.began < s.times[i].since && s.times[i].until < now && WalkSaw(s.dbs[i], s.times[i], i, states))
  }

  ghost predicate WalkingOn(s: Save, states: seq<Machine>, now: nat) {
    s.walk.Some? ==>
      var w := s.walk.value;
      s.began < w.times.since && Seen(w.read, w.times, |s.dbs|, states, now)
      && w.base == LiveAt(states, w.times.since, |s.dbs|)
  }

  ghost predicate Recorded(m: Machine, states: seq<Machine>, n: nat) {
    && m.steps == n
    && (m.phase.Saving? ==> m.phase.save.began < n && Witnessed(m.phase.save, states, n) &&
                            WalkingOn(m.phase.save, states, n))
    && (m.last.Some? ==> Witnessed(m.last.value, states, n))
  }

  lemma InitialInv(m: Machine)
    requires Initial(m)
    ensures Inv(m, m.disk.snapshot)
  {
  }

  lemma {:induction false} RunKeepsInv(states: seq<Machine>, actions: seq<Action>, n: nat)
    requires IsRun(states, actions) && n <= |actions|
    ensures Inv(states[n], states[0].disk.snapshot)
  {
    if n == 0 {
      InitialInv(states[0]);
    } else {
      var k := n - 1;
      RunKeepsInv(states, actions, k);
      StepKeepsInv(states[k], actions[k], states[k + 1], states[0].disk.snapshot);
    }
  }

  lemma AllLive(states: seq<Machine>, actions: seq<Action>, n: nat, i: nat)
    requires IsRun(states, actions) && n <= |actions| && i < NUM_DATABASES
    ensures HasLive(states, n, i)
  {
    forall t | 0 <= t <= n
      ensures i < |states[t].live|
    {
      RunKeepsInv(states, actions, t);
    }
  }

  /** One step later, the same has been read. */
  lemma SeenLater(db: DB, times: Times, i: nat, states: seq<Machine>, n: nat)
    requires Seen(db, times, i, states, n) && HasLive(states, n + 1, i)
    requires Locked(LiveAt(states, times.since, i), LiveAt(states, n + 1, i))
    ensures Seen(db, times, i, states, n + 1)
  {
    hide Locked;
  }

  lemma SeenAtFirst(states: seq<Machine>, n: nat, i: nat, texts: seq<Bytes>)
    requires HasLive(states, n + 1, i) && LiveAt(states, n + 1, i) == LiveAt(states, n, i)
    ensures var w := Started(LiveAt(states, n, i), texts, n); Seen(w.read, w.times, i, states, n + 1)
  {
  }

  lemma SeenOneMore(w: OpenWalk, r: Read, i: nat, states: seq<Machine>, n: nat)
    requires Seen(w.read, w.times, i, states, n) && HasLive(states, n + 1, i)
    requires CanRead(w, LiveAt(states, n, i), r) && LiveAt(states, n + 1, i) == LiveAt(states, n, i)
    ensures var w' := Copied(w, LiveAt(states, n, i), r, n); Seen(w'.read, w'.times, i, states, n + 1)
  {
    assert Locked(LiveAt(states, w.times.since, i), LiveAt(states, n, i));
    SeenLater(w.read, w.times, i, states, n);
    match r {
      case ReadList(key) => OneMoreList(w.read, w.times, key, i, states, n);
      case ReadSet(key, _) => OneMoreSet(w.read, w.times, key, i, states, n);
      case ReadHash(key, _) => OneMoreHash(w.read, w.times, key, i, states, n);
    }
  }

  lemma OneMoreList(db: DB, times: Times, key: Bytes, i: nat, states: seq<Machine>, n: nat)
    requires Seen(db, times, i, states, n + 1) && times.since < n && key in LiveAt(states, n, i).lists
    ensures Seen(WithList(db, key, LiveAt(states, n, i).lists[key]), times.(lists := times.lists[key := n]),
                 i, states, n + 1)
  {
    hide Locked, SetsSeen, HashesSeen, HeldStill;
    HeldAs(times, times.(lists := times.lists[key := n]), i, states, n + 1);
  }

  lemma OneMoreSet(db: DB, times: Times, key: Bytes, i: nat, states: seq<Machine>, n: nat)
    requires Seen(db, times, i, states, n + 1) && times.since < n && key in LiveAt(states, n, i).sets
    ensures Seen(WithSet(db, key, LiveAt(states, n, i).sets[key]), times.(sets := times.sets[key := n]),
                 i, states, n + 1)
  {
    hide Locked, ListsSeen, HashesSeen, HeldStill;
    HeldAs(times, times.(sets := times.sets[key := n]), i, states, n + 1);
  }

  lemma OneMoreHash(db: DB, times: Times, key: Bytes, i: nat, states: seq<Machine>, n: nat)
    requires Seen(db, times, i, states, n + 1) && times.since < n && key in LiveAt(states, n, i).hashes
    ensures Seen(WithHash(db, key, LiveAt(states, n, i).hashes[key]), times.(hashes := times.hashes[key := n]),
                 i, states, n + 1)
  {
    hide Locked, ListsSeen, SetsSeen, HeldStill;
    HeldAs(times, times.(hashes := times.hashes[key := n]), i, states, n + 1);
  }

  lemma HeldAs(times: Times, times': Times, i: nat, states: seq<Machine>, n: nat)
    requires HasLive(states, n, i) && HeldStill(times, i, states, n) && times'.since == times.since
    ensures HeldStill(times', i, states, n)
  {
    hide Locked;
  }

  // ----------------------------------------------------------- the record of a run

  /** Nothing of a walk is lost while another step is taken, since the lock is held. */
  lemma WalkGoesOn(s: Save, states: seq<Machine>, n: nat)
    requires Witnessed(s, states, n) && WalkingOn(s, states, n) && n + 1 < |states|
    requires s.walk.Some? ==>
               && HasLive(states, n + 1, |s.dbs|)
               && Locked(s.walk.value.base, LiveAt(states, n + 1, |s.dbs|))
    ensures Witnessed(s, states, n + 1) && WalkingOn(s, states, n + 1)
  {
    hide WalkSaw, Seen, Locked;
    if s.walk.Some? {
      var w := s.walk.value;
      SeenIsHeld(w.read, w.times, |s.dbs|, states, n);
      SeenLater(w.read, w.times, |s.dbs|, states, n);
    }
  }

  lemma SeenIsHeld(db: DB, times: Times, i: nat, states: seq<Machine>, n: nat)
    requires Seen(db, times, i, states, n)
    ensures HasLive(states, n, i) && times.since < n
  {
    hide Locked;
  }

  lemma EndWitnessed(s: Save, states: seq<Machine>, n: nat)
    requires Witnessed(s, states, n) && WalkingOn(s, states, n) && s.walk.Some? && n < |states|
    requires AllDone(s.walk.value) && SaneSave(s, states[n].live)
    ensures Witnessed(Ended(s, n), states, n + 1)
  {
    var w, i := s.walk.value, |s.dbs|;
    var times := w.times.(until := n);
    EndSeen(w, i, states, n);
    hide WalkSaw, Seen, SaneSave;
    var s' := Ended(s, n);
    forall k | 0 <= k < |s'.dbs|
      ensures s'.began < s'.times[k].since && s'.times[k].until < n + 1 && WalkSaw(s'.dbs[k], s'.times[k], k, states)
    {
      if k < i {
        assert s'.dbs[k] == s.dbs[k] && s'.times[k] == s.times[k];
      }
    }
  }

  lemma EndSeen(w: OpenWalk, i: nat, states: seq<Machine>, n: nat)
    requires Seen(w.read, w.times, i, states, n) && w.base == LiveAt(states, w.times.since, i)
    requires AllDone(w) && SaneWalk(w, LiveAt(states, n, i))
    ensures WalkSaw(w.read, w.times.(until := n), i, states)
  {
    HeldAs(w.times, w.times.(until := n), i, states, n);
    hide HeldStill, ListsSeen, SetsSeen, HashesSeen;
  }

  lemma WalkRecorded(s: Save, states: seq<Machine>, n: nat, ws: WalkStep)
    requires n + 1 < |states| && SaneSave(s, states[n].live) && CanStep(s, states[n].live, ws)
    requires states[n + 1].live == states[n].live && HasLive(states, n + 1, |s.dbs|)
    requires s.began < n && Witnessed(s, states, n) && WalkingOn(s, states, n)
    ensures var s' := Stepped(s, states[n].live, ws, n);
            Witnessed(s', states, n + 1) && WalkingOn(s', states, n + 1)
  {
    var i, live := |s.dbs|, states[n].live;
    match ws {
      case Begin(texts) =>
        assert LiveAt(states, n, i) == live[i] && LiveAt(states, n + 1, i) == live[i];
        SeenAtFirst(states, n, i, texts);
        hide WalkSaw, Seen, ValidOrder;
      case Copy(r) =>
        assert LiveAt(states, n, i) == live[i] && LiveAt(states, n + 1, i) == live[i];
        SeenOneMore(s.walk.value, r, i, states, n);
        CopyKeeps(s.walk.value, live[i], r, n);
        hide WalkSaw, Seen, SaneSave, Copied, CanRead;
      case EndWalk =>
        EndWitnessed(s, states, n);
    }
  }

  lemma CopyKeeps(w: OpenWalk, now: DB, r: Read, step: nat)
    requires CanRead(w, now, r)
    ensures Copied(w, now, r, step).base == w.base && Copied(w, now, r, step).times.since == w.times.since
  {
  }

  lemma WitnessedLater(s: Save, states: seq<Machine>, n: nat)
    requires Witnessed(s, states, n) && n < |states|
    ensures Witnessed(s, states, n + 1)
  {
    hide WalkSaw;
  }

  /** What a step does to the save under way and to the last one. */
  lemma StepSave(m: Machine, a: Action, m': Machine)
    requires StepOf(m, a, m')
    ensures m'.steps == m.steps + 1
    ensures m'.last == m.last || (m.phase.Saving? && AllWalked(m.phase.save) && m'.last == Some(m.phase.save))
    ensures m'.phase.Saving? ==>
              || (a.Create? && m'.phase.save == Save([], [], m.steps, [], None))
              || (m.phase.Saving? && m'.phase.save == m.phase.save)
              || (a.Walk? && m.phase.Saving? && m'.live == m.live && CanStep(m.phase.save, m.live, a.step)
                  && m'.phase.save == Stepped(m.phase.save, m.live, a.step, m.steps))
  {
    hide SaneSave, Produced, Finished, AllFit;
  }

  lemma SaveRecorded(states: seq<Machine>, actions: seq<Action>, n: nat)
    requires IsRun(states, actions) && n < |actions| && Recorded(states[n], states, n)
    requires states[n + 1].phase.Saving?
    ensures var s := states[n + 1].phase.save;
            s.began < n + 1 && Witnessed(s, states, n + 1) && WalkingOn(s, states, n + 1)
  {
    var m, a, m' := states[n], actions[n], states[n + 1];
    assert StepOf(m, a, m');
    RunKeepsInv(states, actions, n);
    RunKeepsInv(states, actions, n + 1);
    if m.phase.Saving? && |m.phase.save.dbs| < NUM_DATABASES {
      AllLive(states, actions, n + 1, |m.phase.save.dbs|);
    }
    StepSave(m, a, m');
    hide Witnessed, WalkingOn, Stepped, CanStep, StepOf, HasLive, SaneWalk, Produced, Finished, AllFit;
    var s' := m'.phase.save;
    if a.Create? && s' == Save([], [], m.steps, [], None) {
      FreshWitnessed(states, n);
    } else if m.phase.Saving? && s' == m.phase.save {
      if s'.walk.Some? {
        SaneIsLocked(s'.walk.value, m'.live[|s'.dbs|]);
      }
      WalkGoesOn(s', states, n);
    } else {
      WalkRecorded(m.phase.save, states, n, a.step);
      SteppedBegan(m.phase.save, m.live, a.step, n);
    }
  }

  lemma FreshWitnessed(states: seq<Machine>, n: nat)
    requires n + 1 < |states|
    ensures Witnessed(Save([], [], n, [], None), states, n + 1) && WalkingOn(Save([], [], n, [], None), states, n + 1)
  {
  }

  lemma SaneIsLocked(w: OpenWalk, now: DB)
    requires SaneWalk(w, now)
    ensures Locked(w.base, now)
  {
  }

  lemma SteppedBegan(s: Save, live: seq<DB>, ws: WalkStep, step: nat)
    requires SaneSave(s, live) && CanStep(s, live, ws)
    ensures Stepped(s, live, ws, step).began == s.began
  {
  }

  lemma StepRecorded(states: seq<Machine>, actions: seq<Action>, n: nat)
    requires IsRun(states, actions) && n < |actions| && Recorded(states[n], states, n)
    ensures Recorded(states[n + 1], states, n + 1)
  {
    var m, m' := states[n], states[n + 1];
    assert StepOf(m, actions[n], m');
    StepSave(m, actions[n], m');
    hide Witnessed, WalkingOn, StepOf, CanStep, Stepped;
    if m'.phase.Saving? {
      SaveRecorded(states, actions, n);
    }
    if m.last.Some? {
      WitnessedLater(m.last.value, states, n);
    }
    if m.phase.Saving? {
      WitnessedLater(m.phase.save, states, n);
    }
  }

  lemma {:induction false} RunRecorded(states: seq<Machine>, actions: seq<Action>, n: nat)
    requires IsRun(states, actions) && n <= |actions|
    ensures Recorded(states[n], states, n)
  {
    if n > 0 {
      RunRecorded(states, actions, n - 1);
      StepRecorded(states, actions, n - 1);
    }
  }

  // ------------------------------------------------------------------- theorems

  /** Loading the file finds every database of the save, without containers that were empty. */
  ghost predicate LoadsAs(file: Bytes, dbs: seq<DB>) {
    forall now: int ::
      var r := LoadFile(file, FreshDBs(NUM_DATABASES), now);
      r.error == None && forall i :: 0 <= i < |dbs| <= NUM_DATABASES ==> r.dbs[i] == Pruned(dbs[i])
  }

  lemma FinishedLoads(s: Save)
    requires Complete(s)
    ensures LoadsAs(Finished(s), s.dbs)
  {
    forall now: int
      ensures var r := LoadFile(Finished(s), FreshDBs(NUM_DATABASES), now);
              r.error == None && forall i :: 0 <= i < NUM_DATABASES ==> r.dbs[i] == Pruned(s.dbs[i])
    {
      SnapshotRoundTrip(s.dbs, s.orders, now);
    }
  }

  /**
   Replacement is atomic: after any run of saves, failures, crashes and changes to the databases, the file at
   the snapshot path is the one that was there at first, as long as no save has completed, and otherwise a
   complete encoding that loads. Within the last completed save, each of its databases has the strings and the
   keys of one moment, and every list, set and hash as it was at a moment of its own.
   */
  lemma SnapshotIsAtomic(states: seq<Machine>, actions: seq<Action>, n: nat)
    requires IsRun(states, actions) && n <= |actions|
    ensures states[n].last.None? ==> states[n].disk.snapshot == states[0].disk.snapshot
    ensures states[n].last.Some? ==>
              var s := states[n].last.value;
              && states[n].disk.snapshot.Some?
              && |s.dbs| == NUM_DATABASES && Witnessed(s, states, n)
              && LoadsAs(states[n].disk.snapshot.value, s.dbs)
  {
    RunKeepsInv(states, actions, n);
    RunRecorded(states, actions, n);
    hide IsRun, Witnessed, WalkingOn, LoadsAs, Sane, TempFits;
    if states[n].last.Some? {
      FinishedLoads(states[n].last.value);
    }
  }

  /** Nothing in the database changed from one step to the other. */
  ghost predicate Undisturbed(states: seq<Machine>, i: nat, from: nat, to: nat)
    requires HasLive(states, to, i)
  {
    forall t :: from <= t <= to ==> LiveAt(states, t, i) == LiveAt(states, from, i)
  }

  /** If no container changed while its database was walked, that database is in the file as it was at one moment. */
  lemma UndisturbedIsOneMoment(db: DB, times: Times, i: nat, states: seq<Machine>)
    requires WalkSaw(db, times, i, states) && Undisturbed(states, i, times.since, times.until)
    ensures db == LiveAt(states, times.since, i)
  {
    var live := LiveAt(states, times.since, i);
    forall k
      ensures Find(db.lists, k) == Find(live.lists, k) && Find(db.sets, k) == Find(live.sets, k)
      ensures Find(db.hashes, k) == Find(live.hashes, k)
    {
      assert k in db.lists <==> k in live.lists;
      assert k in db.sets <==> k in live.sets;
      assert k in db.hashes <==> k in live.hashes;
    }
    SameMap(db.lists, live.lists);
    SameMap(db.sets, live.sets);
    SameMap(db.hashes, live.hashes);
  }

  /** The file changes at a rename that succeeds and at no other step, a crash included. */
  lemma OnlyRenameReplaces(m: Machine, a: Action)
    requires Sane(m) && Enabled(m, a)
    ensures Next(m, a).disk.snapshot != m.disk.snapshot || Next(m, a).last != m.last ==> a.Rename? && a.renamed
  {
    hide SaneSave, Produced, Finished, AllFit, Stepped;
  }

  // ------------------------------------------------- why the rename has to wait

  /** A file that lacks its end marker, cut anywhere, is reported as cut short. */
  lemma WithoutEnd(items: seq<Item>, temp: Bytes, now: int)
    requires Loadable(items, NUM_DATABASES) && temp <= HEADER + WriteItems(items)
    ensures LoadFile(temp, FreshDBs(NUM_DATABASES), now).error == Some(CutShort)
  {
    var start, n := Loading(0, FreshDBs(NUM_DATABASES)), |temp|;
    WriteItemsConcat(items, [End]);
    assert |WriteItems([End])| > 0;
    var body := WriteItems(items + [End]);
    assert body == WriteItems(items) + WriteItems([End]);
    Assoc(HEADER, WriteItems(items), WriteItems([End]));
    assert temp == (HEADER + body)[..n];
    if n < |HEADER| {
      LoadCutHeader(body, n, FreshDBs(NUM_DATABASES), now);
    } else {
      var _ := LoadCut(items, End, n - |HEADER|, start, now);
      TakeOfAppend(HEADER, body, n);
      LoadBody(body[..n - |HEADER|], FreshDBs(NUM_DATABASES), now);
    }
  }

  lemma MoreDatabases(items: seq<Item>, few: nat)
    requires Loadable(items, few) && few <= NUM_DATABASES
    ensures Loadable(items, NUM_DATABASES)
  {
  }

  lemma WalkLoadable(index: nat, w: OpenWalk, now: DB)
    requires SaneWalk(w, now) && index < NUM_DATABASES
    ensures Loadable(WalkItems(index, w), NUM_DATABASES)
  {
    RecordsLoadable(w.read, w.order, NUM_DATABASES);
    MarkersLoadable(index, TotalKeys(w.base), NUM_DATABASES);
    hide ValidOrder, Fits, Records, Locked;
    if TotalKeys(w.base) != 0 {
      LoadableConcat([SelectDB(index), Resize(TotalKeys(w.base), 0)], Records(w.read, w.order), NUM_DATABASES);
    }
  }

  lemma ItemsLoadable(s: Save, live: seq<DB>)
    requires SaneSave(s, live)
    ensures Loadable(AllItems(s, live), NUM_DATABASES)
  {
    SavedLoadable(s.dbs, s.orders);
    MoreDatabases(SavedItems(s.dbs, s.orders), |s.dbs|);
    if s.walk.Some? {
      WalkLoadable(|s.dbs|, s.walk.value, live[|s.dbs|]);
      LoadableConcat(SavedItems(s.dbs, s.orders), WalkItems(|s.dbs|, s.walk.value), NUM_DATABASES);
    } else {
      assert SavedItems(s.dbs, s.orders) + [] == SavedItems(s.dbs, s.orders);
    }
  }

  /** Until the flush, the temporary file would not load: every load of it reports that it is cut short. */
  lemma UnflushedNeverLoads(m: Machine, first: Option<Bytes>, now: int)
    requires Inv(m, first) && Snapshot.At(m, Walking)
    ensures LoadFile(m.disk.temp.value, FreshDBs(NUM_DATABASES), now).error == Some(CutShort)
  {
    ItemsLoadable(m.phase.save, m.live);
    WithoutEnd(AllItems(m.phase.save, m.live), m.disk.temp.value, now);
  }
}
