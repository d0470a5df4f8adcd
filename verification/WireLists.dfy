/** The list commands and the blocking pops in the words on the wire. */
module WireLists {
  import opened Wrappers
  import opened GoText
  import opened Containers
  import opened Keyspace
  import opened Commands
  import opened Wire

  /** The items under a key; a missing list has none. */
  function ListAt(db: DB, k: Bytes): seq<Bytes> {
    if k in db.lists then db.lists[k] else []
  }

  /** The database with these items under the key, which goes when there are none. */
  function Keeping(db: DB, k: Bytes, items: seq<Bytes>): DB {
    db.(lists := if items == [] then db.lists - {k} else db.lists[k := items])
  }

  lemma ListSlot(k: Bytes, db: DB, e: Env, items: seq<Bytes>)
    requires Live(db, k, e.now)
    ensures var s := At(db, k);
            && Evict(s, e.now) == s && s.list.GetOr([]) == ListAt(db, k) && (s.list.Some? <==> k in db.lists)
            && With(db, k, s.(list := Some(items))) == db.(lists := db.lists[k := items])
            && With(db, k, s.(list := None)) == db.(lists := db.lists - {k})
  {
    LiveIsKept(db, k, e.now);
    OnePart(db, k, At(db, k).(list := Some(items)));
    OnePart(db, k, At(db, k).(list := None));
    hide With, Evict, EvictKey;
  }

  // --------------------------------------------------------------------- pushing

  lemma PushSlots(k: Bytes, vs: seq<Bytes>, db: DB, e: Env)
    requires vs != [] && Live(db, k, e.now)
    ensures OnKey(OnList(LPUSH), [k] + vs, At(db, k), e) ==
            (At(db, k).(list := Some(LPushed(ListAt(db, k), vs))), Int(|LPushed(ListAt(db, k), vs)|))
    ensures OnKey(OnList(RPUSH), [k] + vs, At(db, k), e) ==
            (At(db, k).(list := Some(ListAt(db, k) + vs)), Int(|ListAt(db, k) + vs|))
  {
    ListSlot(k, db, e, []);
    assert ([k] + vs)[1..] == vs;
    hide With, Evict, LPushed;
  }

  lemma PushingAt(name: Bytes, op: ListOp, k: Bytes, vs: seq<Bytes>, db: DB, e: Env, items: seq<Bytes>)
    requires Says(name, OnList(op)) && Live(db, k, e.now)
    requires SingleKey(OnList(op)) ==>
               OnKey(OnList(op), [k] + vs, At(db, k), e) == (At(db, k).(list := Some(items)), Int(|items|))
    ensures Ask([name, k] + vs, db, e) == (db.(lists := db.lists[k := items]), Int(|items|))
  {
    hide *;
    IsSingle(OnList(op));
    ListSlot(k, db, e, items);
    assert [name, k] + vs == [name] + ([k] + vs);
    AsksKey(name, [k] + vs, OnList(op), db, e, At(db, k).(list := Some(items)), Int(|items|));
  }

  lemma PushingLeft(k: Bytes, vs: seq<Bytes>, db: DB, e: Env)
    requires vs != [] && Live(db, k, e.now)
    ensures Ask(["LPUSH", k] + vs, db, e) ==
            (db.(lists := db.lists[k := Reversed(vs) + ListAt(db, k)]), Int(|ListAt(db, k)| + |vs|))
  {
    hide *;
    ListNames();
    PushSlots(k, vs, db, e);
    LPushedReverses(ListAt(db, k), vs);
    PushingAt("LPUSH", LPUSH, k, vs, db, e, LPushed(ListAt(db, k), vs));
  }

  lemma PushingRight(k: Bytes, vs: seq<Bytes>, db: DB, e: Env)
    requires vs != [] && Live(db, k, e.now)
    ensures Ask(["RPUSH", k] + vs, db, e) ==
            (db.(lists := db.lists[k := ListAt(db, k) + vs]), Int(|ListAt(db, k)| + |vs|))
  {
    hide *;
    ListNames();
    PushSlots(k, vs, db, e);
    PushingAt("RPUSH", RPUSH, k, vs, db, e, ListAt(db, k) + vs);
  }

  /** LPUSH puts its values one by one at the head, RPUSH at the tail; both answer the new length. */
  lemma Pushing(k: Bytes, vs: seq<Bytes>, db: DB, e: Env)
    requires vs != [] && Live(db, k, e.now)
    ensures Ask(["LPUSH", k] + vs, db, e) ==
            (db.(lists := db.lists[k := Reversed(vs) + ListAt(db, k)]), Int(|ListAt(db, k)| + |vs|))
    ensures Ask(["RPUSH", k] + vs, db, e) ==
            (db.(lists := db.lists[k := ListAt(db, k) + vs]), Int(|ListAt(db, k)| + |vs|))
  {
    hide *;
    PushingLeft(k, vs, db, e);
    PushingRight(k, vs, db, e);
  }

  // --------------------------------------------------------------------- popping

  lemma PopSlot(k: Bytes, db: DB, e: Env, x: Bytes, rest: seq<Bytes>, left: bool) returns (s: Slot)
    requires Live(db, k, e.now) && ListAt(db, k) == if left then [x] + rest else rest + [x]
    ensures PopEnd(At(db, k), left) == (s, Some(x)) && With(db, k, s) == Keeping(db, k, rest)
    ensures Evict(At(db, k), e.now) == At(db, k)
  {
    ListSlot(k, db, e, rest);
    s := At(db, k).(list := ListOrNone(rest));
    assert if left then ([x] + rest)[1..] == rest else (rest + [x])[..|rest|] == rest;
    hide With, Evict, At;
  }

  lemma PopsAre(k: Bytes, s: Slot, e: Env)
    requires Evict(s, e.now) == s
    ensures OnKey(OnList(LPOP), [k], s, e) ==
            (PopEnd(s, true).0, if PopEnd(s, true).1.Some? then Bulk(PopEnd(s, true).1.value) else Nil)
    ensures OnKey(OnList(RPOP), [k], s, e) ==
            (PopEnd(s, false).0, if PopEnd(s, false).1.Some? then Bulk(PopEnd(s, false).1.value) else Nil)
  {
    hide PopEnd, Evict;
  }

  /** LPOP takes the first item, RPOP the last; the key goes with the last one left. */
  lemma Popping(k: Bytes, db: DB, e: Env, x: Bytes, rest: seq<Bytes>)
    requires Live(db, k, e.now)
    ensures ListAt(db, k) == [x] + rest ==> Ask(["LPOP", k], db, e) == (Keeping(db, k, rest), Bulk(x))
    ensures ListAt(db, k) == rest + [x] ==> Ask(["RPOP", k], db, e) == (Keeping(db, k, rest), Bulk(x))
  {
    hide *;
    ListNames();
    IsSingle(OnList(LPOP));
    IsSingle(OnList(RPOP));
    assert ["LPOP", k] == ["LPOP"] + [k] && ["RPOP", k] == ["RPOP"] + [k];
    if ListAt(db, k) == [x] + rest {
      var s := PopSlot(k, db, e, x, rest, true);
      PopsAre(k, At(db, k), e);
      AsksKey("LPOP", [k], OnList(LPOP), db, e, s, Bulk(x));
    }
    if ListAt(db, k) == rest + [x] {
      var s := PopSlot(k, db, e, x, rest, false);
      PopsAre(k, At(db, k), e);
      AsksKey("RPOP", [k], OnList(RPOP), db, e, s, Bulk(x));
    }
  }

  lemma NothingToPop(k: Bytes, db: DB, e: Env)
    requires Live(db, k, e.now) && ListAt(db, k) == []
    ensures PopEnd(At(db, k), true) == PopEnd(At(db, k), false) == (At(db, k), None)
    ensures Evict(At(db, k), e.now) == At(db, k)
  {
    ListSlot(k, db, e, []);
    hide With, Evict;
  }

  lemma PoppingNothing(k: Bytes, db: DB, e: Env)
    requires Live(db, k, e.now) && ListAt(db, k) == []
    ensures Ask(["LPOP", k], db, e) == (db, Nil) && Ask(["RPOP", k], db, e) == (db, Nil)
  {
    hide *;
    ListNames();
    IsSingle(OnList(LPOP));
    IsSingle(OnList(RPOP));
    assert ["LPOP", k] == ["LPOP"] + [k] && ["RPOP", k] == ["RPOP"] + [k];
    NothingToPop(k, db, e);
    PopsAre(k, At(db, k), e);
    AsksOnly("LPOP", [k], OnList(LPOP), db, e, Nil);
    AsksOnly("RPOP", [k], OnList(RPOP), db, e, Nil);
  }

  // --------------------------------------------------------------------- looking

  lemma RangeSlot(k: Bytes, from: Bytes, to: Bytes, db: DB, e: Env)
    requires Live(db, k, e.now)
    ensures OnKey(OnList(LRANGE), [k, from, to], At(db, k), e) ==
            (At(db, k), if Atoi(from).None? || Atoi(to).None? then Fail(NotAnInteger)
                        else Many(Bulks(RangeOf(ListAt(db, k), Atoi(from).value, Atoi(to).value))))
    ensures OnKey(OnList(LLEN), [k], At(db, k), e) == (At(db, k), Int(|ListAt(db, k)|))
  {
    ListSlot(k, db, e, []);
    hide With, Evict, RangeOf, Atoi;
  }

  /**
   LRANGE answers, in order, exactly the items between its two positions, both ends included; a position below
   zero is that far from the end of the list. From 0 to -1 is the whole list.
   */
  lemma Ranging(k: Bytes, from: Bytes, to: Bytes, db: DB, e: Env, start: int64, stop: int64)
    returns (lo: nat, hi: nat)
    requires Live(db, k, e.now) && Atoi(from) == Some(start) && Atoi(to) == Some(stop)
    ensures lo <= hi <= |ListAt(db, k)|
    ensures Ask(["LRANGE", k, from, to], db, e) == (db, Many(Bulks(ListAt(db, k)[lo..hi])))
    ensures forall p :: 0 <= p < |ListAt(db, k)| ==> (Between(p, start, stop, |ListAt(db, k)|) <==> lo <= p < hi)
    ensures start == 0 && stop == -1 ==> lo == 0 && hi == |ListAt(db, k)|
  {
    lo, hi := Selected(ListAt(db, k), start, stop);
    hide *;
    ListNames();
    IsSingle(OnList(LRANGE));
    RangeSlot(k, from, to, db, e);
    assert ["LRANGE", k, from, to] == ["LRANGE"] + [k, from, to];
    AsksOnly("LRANGE", [k, from, to], OnList(LRANGE), db, e, Many(Bulks(ListAt(db, k)[lo..hi])));
  }

  lemma Selected(items: seq<Bytes>, start: int64, stop: int64) returns (lo: nat, hi: nat)
    ensures lo <= hi <= |items| && RangeOf(items, start, stop) == items[lo..hi]
    ensures forall p :: 0 <= p < |items| ==> (Between(p, start, stop, |items|) <==> lo <= p < hi)
    ensures start == 0 && stop == -1 ==> lo == 0 && hi == |items|
  {
    if start == 0 && stop == -1 {
      WholeRange(items);
      lo, hi := 0, |items|;
    } else {
      lo, hi := RangeSelects(items, start, stop);
    }
  }

  lemma Counting(k: Bytes, db: DB, e: Env)
    requires Live(db, k, e.now)
    ensures Ask(["LLEN", k], db, e) == (db, Int(|ListAt(db, k)|))
  {
    hide *;
    ListNames();
    IsSingle(OnList(LLEN));
    RangeSlot(k, "", "", db, e);
    assert ["LLEN", k] == ["LLEN"] + [k];
    AsksOnly("LLEN", [k], OnList(LLEN), db, e, Int(|ListAt(db, k)|));
  }

  /** The item a position names: from the head, or below zero from the tail. */
  ghost predicate Names(items: seq<Bytes>, index: int, p: nat) {
    p < |items| && (index == p || index == p - |items|)
  }

  lemma IndexSlots(k: Bytes, at: Bytes, v: Bytes, db: DB, e: Env, index: int64, p: nat)
    requires Live(db, k, e.now) && Atoi(at) == Some(index) && Names(ListAt(db, k), index, p)
    ensures OnKey(OnList(LINDEX), [k, at], At(db, k), e) == (At(db, k), Bulk(ListAt(db, k)[p]))
    ensures OnKey(OnList(LSET), [k, at, v], At(db, k), e) ==
            (At(db, k).(list := Some(ListAt(db, k)[p := v])), OK)
  {
    ListSlot(k, db, e, []);
    hide With, Evict, Atoi;
  }

  /** LINDEX answers and LSET replaces the item at a position, and at the same item's other position. */
  lemma Indexing(k: Bytes, at: Bytes, v: Bytes, db: DB, e: Env, index: int64, p: nat)
    requires Live(db, k, e.now) && Atoi(at) == Some(index)
    requires p < |ListAt(db, k)| && (index == p || index == p - |ListAt(db, k)|)
    ensures Ask(["LINDEX", k, at], db, e) == (db, Bulk(ListAt(db, k)[p]))
    ensures Ask(["LSET", k, at, v], db, e) == (db.(lists := db.lists[k := ListAt(db, k)[p := v]]), OK)
  {
    assert Names(ListAt(db, k), index, p);
    hide *;
    IndexSlots(k, at, v, db, e, index, p);
    LookingAt(k, at, db, e, Bulk(ListAt(db, k)[p]));
    SettingAt(k, at, v, db, e, ListAt(db, k)[p := v]);
  }

  lemma LookingAt(k: Bytes, at: Bytes, db: DB, e: Env, r: Reply)
    requires SingleKey(OnList(LINDEX)) ==> OnKey(OnList(LINDEX), [k, at], At(db, k), e) == (At(db, k), r)
    ensures Ask(["LINDEX", k, at], db, e) == (db, r)
  {
    hide *;
    ListNames();
    IsSingle(OnList(LINDEX));
    assert ["LINDEX", k, at] == ["LINDEX"] + [k, at];
    AsksOnly("LINDEX", [k, at], OnList(LINDEX), db, e, r);
  }

  lemma SettingAt(k: Bytes, at: Bytes, v: Bytes, db: DB, e: Env, items: seq<Bytes>)
    requires Live(db, k, e.now)
    requires SingleKey(OnList(LSET)) ==>
               OnKey(OnList(LSET), [k, at, v], At(db, k), e) == (At(db, k).(list := Some(items)), OK)
    ensures Ask(["LSET", k, at, v], db, e) == (db.(lists := db.lists[k := items]), OK)
  {
    hide *;
    ListNames();
    IsSingle(OnList(LSET));
    ListSlot(k, db, e, items);
    assert ["LSET", k, at, v] == ["LSET"] + [k, at, v];
    AsksKey("LSET", [k, at, v], OnList(LSET), db, e, At(db, k).(list := Some(items)), OK);
  }

  lemma OutsideSlots(k: Bytes, at: Bytes, v: Bytes, db: DB, e: Env, index: int64)
    requires Live(db, k, e.now) && Atoi(at) == Some(index) && (index >= |ListAt(db, k)| || index < 0 - |ListAt(db, k)|)
    ensures OnKey(OnList(LINDEX), [k, at], At(db, k), e) == (At(db, k), Nil)
    ensures OnKey(OnList(LSET), [k, at, v], At(db, k), e) ==
            (At(db, k), Fail(if k in db.lists then IndexOutOfRange else NoSuchKey))
  {
    ListSlot(k, db, e, []);
    hide With, Evict, Atoi;
  }

  /** Outside the list LINDEX answers nothing and LSET says why it changes nothing. */
  lemma IndexingOutside(k: Bytes, at: Bytes, v: Bytes, db: DB, e: Env, index: int64)
    requires Live(db, k, e.now) && Atoi(at) == Some(index)
    requires index >= |ListAt(db, k)| || index < 0 - |ListAt(db, k)|
    ensures Ask(["LINDEX", k, at], db, e) == (db, Nil)
    ensures Ask(["LSET", k, at, v], db, e) == (db, Fail(if k in db.lists then IndexOutOfRange else NoSuchKey))
  {
    hide *;
    ListNames();
    IsSingle(OnList(LINDEX));
    IsSingle(OnList(LSET));
    OutsideSlots(k, at, v, db, e, index);
    assert ["LINDEX", k, at] == ["LINDEX"] + [k, at] && ["LSET", k, at, v] == ["LSET"] + [k, at, v];
    AsksOnly("LINDEX", [k, at], OnList(LINDEX), db, e, Nil);
    AsksOnly("LSET", [k, at, v], OnList(LSET), db, e, Fail(if k in db.lists then IndexOutOfRange else NoSuchKey));
  }

  /** Position -(i + 1) of a list is position i of the list turned round. */
  lemma IndexingFromEnd(k: Bytes, at: Bytes, back: Bytes, db: DB, e: Env, i: int64)
    requires Live(db, k, e.now) && i >= 0 && Atoi(at) == Some(i) && Atoi(back) == Some(-1 - i)
    ensures Ask(["LINDEX", k, back], db, e).1 ==
            Ask(["LINDEX", k, at], db.(lists := db.lists[k := Reversed(ListAt(db, k))]), e).1
  {
    var items, turned, down := ListAt(db, k), TurnedAt(db, k), -1 - i;
    TurnedList(db, k, e.now);
    assert i < |items| ==> Reversed(items)[i] == items[|items| - 1 - i];
    hide *;
    if i < |items| {
      Indexing(k, back, "", db, e, down, |items| - 1 - i);
      Indexing(k, at, "", turned, e, i, i);
    } else {
      IndexingOutside(k, back, "", db, e, down);
      IndexingOutside(k, at, "", turned, e, i);
    }
  }

  /** The database with one list turned round. */
  function TurnedAt(db: DB, k: Bytes): DB {
    db.(lists := db.lists[k := Reversed(ListAt(db, k))])
  }

  lemma TurnedList(db: DB, k: Bytes, now: int)
    ensures ListAt(TurnedAt(db, k), k) == Reversed(ListAt(db, k)) && |Reversed(ListAt(db, k))| == |ListAt(db, k)|
    ensures Live(db, k, now) ==> Live(TurnedAt(db, k), k, now)
    ensures TurnedAt(db, k) == db.(lists := db.lists[k := Reversed(ListAt(db, k))])
  {
  }

  lemma NoIndexSlots(k: Bytes, a: Bytes, b: Bytes, v: Bytes, db: DB, e: Env)
    ensures Atoi(a).None? || Atoi(b).None? ==>
              OnKey(OnList(LRANGE), [k, a, b], At(db, k), e) == (At(db, k), Fail(NotAnInteger))
    ensures Atoi(a).None? ==>
              && OnKey(OnList(LINDEX), [k, a], At(db, k), e) == (At(db, k), Fail(NotAnInteger))
              && OnKey(OnList(LSET), [k, a, v], At(db, k), e) == (At(db, k), Fail(NotAnInteger))
  {
    hide Atoi, At, Evict, RangeOf, Position;
  }

  /** Positions that are no integers are refused before the key is looked at. */
  lemma IndexingRefused(k: Bytes, a: Bytes, b: Bytes, v: Bytes, db: DB, e: Env)
    ensures Atoi(a).None? || Atoi(b).None? ==> Ask(["LRANGE", k, a, b], db, e) == (db, Fail(NotAnInteger))
    ensures Atoi(a).None? ==> Ask(["LINDEX", k, a], db, e) == (db, Fail(NotAnInteger))
    ensures Atoi(a).None? ==> Ask(["LSET", k, a, v], db, e) == (db, Fail(NotAnInteger))
  {
    hide *;
    ListNames();
    NoIndexSlots(k, a, b, v, db, e);
    IsSingle(OnList(LRANGE));
    IsSingle(OnList(LINDEX));
    IsSingle(OnList(LSET));
    assert ["LRANGE", k, a, b] == ["LRANGE"] + [k, a, b];
    assert ["LINDEX", k, a] == ["LINDEX"] + [k, a] && ["LSET", k, a, v] == ["LSET"] + [k, a, v];
    if Atoi(a).None? || Atoi(b).None? {
      AsksOnly("LRANGE", [k, a, b], OnList(LRANGE), db, e, Fail(NotAnInteger));
    }
    if Atoi(a).None? {
      AsksOnly("LINDEX", [k, a], OnList(LINDEX), db, e, Fail(NotAnInteger));
      AsksOnly("LSET", [k, a, v], OnList(LSET), db, e, Fail(NotAnInteger));
    }
  }

  // -------------------------------------------------------------------- removing

  lemma RemoveSlot(k: Bytes, count: Bytes, v: Bytes, db: DB, e: Env, n: int64)
    requires Live(db, k, e.now) && Atoi(count) == Some(n) && k in db.lists
    ensures var left := Remaining(ListAt(db, k), n, v);
            OnKey(OnList(LREM), [k, count, v], At(db, k), e) ==
            (At(db, k).(list := ListOrNone(left)), Int(|ListAt(db, k)| - |left|))
  {
    ListSlot(k, db, e, []);
    hide With, Evict, Atoi, Remaining, ListOrNone;
  }

  lemma KeepingIs(k: Bytes, db: DB, e: Env, items: seq<Bytes>)
    requires Live(db, k, e.now)
    ensures With(db, k, At(db, k).(list := ListOrNone(items))) == Keeping(db, k, items)
  {
    ListSlot(k, db, e, items);
    hide With, Evict, At;
  }

  /**
   LREM takes the first `count` copies, or for a negative count the last, or for zero all, leaves everything else
   in its place, and answers how many went; the key goes with the last item. The count -2^63 takes none.
   */
  lemma Removing(k: Bytes, count: Bytes, v: Bytes, db: DB, e: Env, n: int64) returns (left: seq<Bytes>)
    requires Live(db, k, e.now) && Atoi(count) == Some(n) && k in db.lists
    ensures Ask(["LREM", k, count, v], db, e) == (Keeping(db, k, left), Int(|db.lists[k]| - |left|))
    ensures n == 0 ==> left == Without(db.lists[k], v)
    ensures n > 0 ==> TrimmedAtHead(db.lists[k], n, v, left)
    ensures -0x8000_0000_0000_0000 < n < 0 ==> TrimmedAtTail(db.lists[k], 0 - n, v, left)
    ensures n == -0x8000_0000_0000_0000 ==> left == db.lists[k]
  {
    hide Remaining, Without, TrimmedAtHead, TrimmedAtTail, Ask, Keeping, Atoi, Live, Quota, Occurrences;
    left := Remaining(db.lists[k], n, v);
    LRemDirectional(db.lists[k], n, v);
    assert ListAt(db, k) == db.lists[k];
    RemovingTo(k, count, v, db, e, n, left);
  }

  lemma RemovingTo(k: Bytes, count: Bytes, v: Bytes, db: DB, e: Env, n: int64, left: seq<Bytes>)
    requires Live(db, k, e.now) && Atoi(count) == Some(n) && k in db.lists
    requires left == Remaining(ListAt(db, k), n, v)
    ensures Ask(["LREM", k, count, v], db, e) == (Keeping(db, k, left), Int(|ListAt(db, k)| - |left|))
  {
    hide *;
    ListNames();
    IsSingle(OnList(LREM));
    RemoveSlot(k, count, v, db, e, n);
    KeepingIs(k, db, e, left);
    assert ["LREM", k, count, v] == ["LREM"] + [k, count, v];
    AsksKey("LREM", [k, count, v], OnList(LREM), db, e, At(db, k).(list := ListOrNone(left)),
            Int(|ListAt(db, k)| - |left|));
  }

  /** A missing list has nothing to remove, and a count that is no integer is refused. */
  lemma RemovingNothing(k: Bytes, count: Bytes, v: Bytes, db: DB, e: Env)
    requires Live(db, k, e.now)
    ensures Atoi(count).None? ==> Ask(["LREM", k, count, v], db, e) == (db, Fail(NotAnInteger))
    ensures Atoi(count).Some? && k !in db.lists ==> Ask(["LREM", k, count, v], db, e) == (db, Int(0))
  {
    var r := if Atoi(count).None? then Fail(NotAnInteger) else Int(0);
    NoRemoveSlot(k, count, v, db, e);
    hide *;
    ListNames();
    IsSingle(OnList(LREM));
    assert ["LREM", k, count, v] == ["LREM"] + [k, count, v];
    if Atoi(count).None? || k !in db.lists {
      AsksOnly("LREM", [k, count, v], OnList(LREM), db, e, r);
    }
  }

  lemma NoRemoveSlot(k: Bytes, count: Bytes, v: Bytes, db: DB, e: Env)
    requires Live(db, k, e.now)
    ensures Atoi(count).None? || k !in db.lists ==>
              OnKey(OnList(LREM), [k, count, v], At(db, k), e) ==
              (At(db, k), if Atoi(count).None? then Fail(NotAnInteger) else Int(0))
  {
    ListSlot(k, db, e, []);
    hide With, Evict, Atoi, Remaining;
  }

  // --------------------------------------------------------------- blocking pops

  lemma BlockingIs(name: Bytes, op: KeysOp, ks: seq<Bytes>, timeout: Bytes, db: DB, e: Env)
    requires Says(name, OnKeys(op)) && (op == BLPOP || op == BRPOP) && ks != []
    ensures Ask([name] + ks + [timeout], db, e) ==
            if !e.timeoutOk then (db, Fail(BadTimeout))
            else
              var (db', popped) := ScanPop(ks, db, op == BLPOP, e.now);
              (db', if popped.Some? then Many([Bulk(popped.value.0), Bulk(popped.value.1)]) else Nil)
  {
    var a := ks + [timeout];
    assert [name] + ks + [timeout] == [name] + a && a[..|a| - 1] == ks;
    hide Says, ScanPop, FindCommand;
    Asks(name, a, OnKeys(op), db, e);
  }

  lemma {:induction false} ScanFinds(ks: seq<Bytes>, j: nat, db: DB, e: Env, x: Bytes, rest: seq<Bytes>, left: bool)
    requires j < |ks| && forall i :: 0 <= i <= j ==> Live(db, ks[i], e.now)
    requires forall i :: 0 <= i < j ==> ListAt(db, ks[i]) == []
    requires ListAt(db, ks[j]) == if left then [x] + rest else rest + [x]
    ensures ScanPop(ks, db, left, e.now) == (Keeping(db, ks[j], rest), Some((ks[j], x)))
    decreases j
  {
    hide ListAt, Keeping, Evict, With, At;
    if j == 0 {
      var _ := PopSlot(ks[0], db, e, x, rest, left);
    } else {
      NothingToPop(ks[0], db, e);
      SelfWith(db, ks[0]);
      ScanFinds(ks[1..], j - 1, db, e, x, rest, left);
    }
  }

  lemma {:induction false} ScanFindsNothing(ks: seq<Bytes>, db: DB, e: Env, left: bool)
    requires forall i :: 0 <= i < |ks| ==> Live(db, ks[i], e.now) && ListAt(db, ks[i]) == []
    ensures ScanPop(ks, db, left, e.now) == (db, None)
  {
    hide ListAt, Evict, With, At;
    if ks != [] {
      NothingToPop(ks[0], db, e);
      SelfWith(db, ks[0]);
      ScanFindsNothing(ks[1..], db, e, left);
    }
  }

  /**
   BLPOP and BRPOP take from the first of their keys that has an item, BLPOP its first and BRPOP its last, and
   answer the key with it; when none has one until the time is up, they answer nothing.
   */
  lemma BlockingPops(ks: seq<Bytes>, timeout: Bytes, j: nat, db: DB, e: Env, x: Bytes, rest: seq<Bytes>)
    requires e.timeoutOk && j < |ks| && forall i :: 0 <= i <= j ==> Live(db, ks[i], e.now)
    requires forall i :: 0 <= i < j ==> ListAt(db, ks[i]) == []
    ensures ListAt(db, ks[j]) == [x] + rest ==>
              Ask(["BLPOP"] + ks + [timeout], db, e) == (Keeping(db, ks[j], rest), Many([Bulk(ks[j]), Bulk(x)]))
    ensures ListAt(db, ks[j]) == rest + [x] ==>
              Ask(["BRPOP"] + ks + [timeout], db, e) == (Keeping(db, ks[j], rest), Many([Bulk(ks[j]), Bulk(x)]))
  {
    KeysNames();
    BlockingIs("BLPOP", BLPOP, ks, timeout, db, e);
    BlockingIs("BRPOP", BRPOP, ks, timeout, db, e);
    hide Says, Ask, ListAt, Keeping, ScanPop;
    if ListAt(db, ks[j]) == [x] + rest {
      ScanFinds(ks, j, db, e, x, rest, true);
    }
    if ListAt(db, ks[j]) == rest + [x] {
      ScanFinds(ks, j, db, e, x, rest, false);
    }
  }

  lemma BlockingPopsNothing(ks: seq<Bytes>, timeout: Bytes, db: DB, e: Env)
    requires ks != [] && forall i :: 0 <= i < |ks| ==> Live(db, ks[i], e.now) && ListAt(db, ks[i]) == []
    ensures Ask(["BLPOP"] + ks + [timeout], db, e) == (db, if e.timeoutOk then Nil else Fail(BadTimeout))
    ensures Ask(["BRPOP"] + ks + [timeout], db, e) == (db, if e.timeoutOk then Nil else Fail(BadTimeout))
  {
    KeysNames();
    BlockingIs("BLPOP", BLPOP, ks, timeout, db, e);
    BlockingIs("BRPOP", BRPOP, ks, timeout, db, e);
    hide Says, Ask, ScanPop;
    ScanFindsNothing(ks, db, e, true);
    ScanFindsNothing(ks, db, e, false);
  }
}
