/**
 The three container types: List, Set and Hash.

 Each class holds one collection that its methods replace. The functions before each class say what
 the methods leave behind, and the lemmas say what those functions mean.
 */
module Containers {
  import opened Wrappers
  import opened GoText
  import opened Sequences

  // -------------------------------------------------------------------- lists

  /** The list after pushing each value in turn onto its head. */
  function LPushed(items: seq<Bytes>, values: seq<Bytes>): seq<Bytes>
    decreases values
  {
    if values == [] then items else LPushed([values[0]] + items, values[1..])
  }

  lemma {:induction false} LPushedReverses(items: seq<Bytes>, values: seq<Bytes>)
    ensures LPushed(items, values) == Reversed(values) + items
    decreases values
  {
    if values != [] {
      LPushedReverses([values[0]] + items, values[1..]);
      Assoc(Reversed(values[1..]), [values[0]], items);
    }
  }

  /** A negative position counts from the end. */
  function Position(index: int, length: nat): int {
    if index < 0 then length + index else index
  }

  lemma PositionIs(index: int, length: nat)
    ensures Position(index, length) == if index < 0 then length + index else index
  {
  }

  /** The stretch LRANGE selects: both ends included, out-of-range ends clamped. */
  function RangeOf(items: seq<Bytes>, start: int, stop: int): seq<Bytes> {
    var first := var p := Position(start, |items|); if p < 0 then 0 else p;
    var last := var p := Position(stop, |items|); if p >= |items| then |items| - 1 else p;
    if first > last then [] else items[first..last + 1]
  }

  /** An end below zero is that far from the end of the list. */
  predicate Between(p: int, start: int, stop: int, length: nat) {
    && (if start < 0 then length + start else start) <= p
    && p <= (if stop < 0 then length + stop else stop)
  }

  /** LRANGE selects exactly the items between its two positions, in order, whatever the arguments. */
  lemma RangeSelects(items: seq<Bytes>, start: int, stop: int) returns (lo: nat, hi: nat)
    ensures lo <= hi <= |items| && RangeOf(items, start, stop) == items[lo..hi]
    ensures forall p :: 0 <= p < |items| ==>
              (Between(p, start, stop, |items|) <==> lo <= p < hi)
  {
    var first := var p := Position(start, |items|); if p < 0 then 0 else p;
    var last := var p := Position(stop, |items|); if p >= |items| then |items| - 1 else p;
    if first <= last {
      lo, hi := first, last + 1;
    } else {
      lo, hi := 0, 0;
    }
  }

  /** From the first to the last is the whole list, and each item has two positions. */
  lemma WholeRange(items: seq<Bytes>)
    ensures RangeOf(items, 0, -1) == items
    ensures forall i :: 0 <= i < |items| ==>
              RangeOf(items, i, i) == [items[i]] == RangeOf(items, i - |items|, i - |items|)
  {
  }

  /** Position -j is the j-th from the end: what position j - 1 is in the reversed list. */
  lemma PositionFromEnd(items: seq<Bytes>, j: int)
    requires j >= 1
    ensures var p, q := Position(0 - j, |items|), Position(j - 1, |items|);
            && (0 <= p < |items| <==> j <= |items|)
            && (0 <= q < |items| <==> j <= |items|)
            && (j <= |items| ==> p == |items| - j && items[p] == Reversed(items)[q])
  {
  }

  function Occurrences(items: seq<Bytes>, value: Bytes): nat {
    if items == [] then 0 else (if items[0] == value then 1 else 0) + Occurrences(items[1..], value)
  }

  function Without(items: seq<Bytes>, value: Bytes): seq<Bytes> {
    if items == [] then []
    else if items[0] == value then Without(items[1..], value)
    else [items[0]] + Without(items[1..], value)
  }

  /** Drops the first `n` copies of `value`, scanning from the head. */
  function HeadRem(items: seq<Bytes>, n: int, value: Bytes): seq<Bytes> {
    if items == [] then []
    else if items[0] == value && n > 0 then HeadRem(items[1..], n - 1, value)
    else [items[0]] + HeadRem(items[1..], n, value)
  }

  /** Drops the last `n` copies of `value`, scanning from the tail. */
  function TailRem(items: seq<Bytes>, n: int, value: Bytes): seq<Bytes> {
    if items == [] then []
    else
      var init, last := items[..|items| - 1], items[|items| - 1];
      if last == value && n > 0 then TailRem(init, n - 1, value) else TailRem(init, n, value) + [last]
  }

  /** What LREM leaves; a negative count is negated with wrap-around first. */
  function Remaining(items: seq<Bytes>, count: int64, value: Bytes): seq<Bytes> {
    if count == 0 then Without(items, value)
    else if count > 0 then HeadRem(items, count, value)
    else TailRem(items, Wrap(0 - count), value)
  }

  function Min(a: int, b: int): int {
    if a < b then a else b
  }

  lemma {:induction false} OccurrencesConcat(a: seq<Bytes>, b: seq<Bytes>, value: Bytes)
    ensures Occurrences(a + b, value) == Occurrences(a, value) + Occurrences(b, value)
  {
    if a == [] {
      assert a + b == b;
    } else {
      OccurrencesConcat(a[1..], b, value);
      assert (a + b)[1..] == a[1..] + b;
    }
  }

  lemma {:induction false} WithoutConcat(a: seq<Bytes>, b: seq<Bytes>, value: Bytes)
    ensures Without(a + b, value) == Without(a, value) + Without(b, value)
  {
    if a == [] {
      assert a + b == b;
    } else {
      WithoutConcat(a[1..], b, value);
      CutAppended(a, b, 1);
      Assoc([a[0]], Without(a[1..], value), Without(b, value));
    }
  }

  lemma {:induction false} ReversedConcat(a: seq<Bytes>, b: seq<Bytes>)
    ensures Reversed(a + b) == Reversed(b) + Reversed(a)
  {
  }

  lemma {:induction false} WithoutReversed(items: seq<Bytes>, value: Bytes)
    ensures Without(Reversed(items), value) == Reversed(Without(items, value))
    ensures Occurrences(Reversed(items), value) == Occurrences(items, value)
  {
    if items != [] {
      WithoutReversed(items[1..], value);
      WithoutConcat(Reversed(items[1..]), [items[0]], value);
      OccurrencesConcat(Reversed(items[1..]), [items[0]], value);
      assert Without([items[0]], value) == if items[0] == value then [] else [items[0]];
    }
  }

  /** Scanning from the tail is scanning the reversed list from its head. */
  lemma {:induction false} TailRemIsMirrored(items: seq<Bytes>, n: int, value: Bytes)
    ensures TailRem(items, n, value) == Reversed(HeadRem(Reversed(items), n, value))
  {
    if items != [] {
      var init, last := items[..|items| - 1], items[|items| - 1];
      assert items == init + [last];
      ReversedConcat(init, [last]);
      assert Reversed(items) == [last] + Reversed(init);
      assert Reversed(items)[1..] == Reversed(init);
      if last == value && n > 0 {
        TailRemIsMirrored(init, n - 1, value);
      } else {
        TailRemIsMirrored(init, n, value);
        ReversedConcat([last], HeadRem(Reversed(init), n, value));
      }
    }
  }

  lemma {:induction false} WithoutBounds(items: seq<Bytes>, value: Bytes)
    ensures |Without(items, value)| == |items| - Occurrences(items, value)
    ensures Occurrences(Without(items, value), value) == 0
    ensures value !in Without(items, value)
  {
    if items != [] {
      WithoutBounds(items[1..], value);
    }
  }

  /** A cut point: every copy before it is gone, and from it on nothing was touched. */
  ghost predicate HeadCut(items: seq<Bytes>, n: nat, value: Bytes, result: seq<Bytes>, cut: nat) {
    && cut <= |items|
    && Occurrences(items[..cut], value) == Min(n, Occurrences(items, value))
    && result == Without(items[..cut], value) + items[cut..]
  }

  ghost predicate TrimmedAtHead(items: seq<Bytes>, n: nat, value: Bytes, result: seq<Bytes>) {
    exists cut :: HeadCut(items, n, value, result, cut)
  }

  lemma {:induction false} HeadRemCut(items: seq<Bytes>, n: nat, value: Bytes) returns (cut: nat)
    ensures HeadCut(items, n, value, HeadRem(items, n, value), cut)
  {
    if items == [] || n == 0 {
      cut := 0;
      HeadRemNone(items, value);
    } else {
      var rest := items[1..];
      var c := HeadRemCut(rest, if items[0] == value then n - 1 else n, value);
      cut := c + 1;
      assert items[..cut] == [items[0]] + rest[..c];
      assert items[cut..] == rest[c..];
    }
  }

  lemma {:induction false} HeadRemNone(items: seq<Bytes>, value: Bytes)
    ensures HeadRem(items, 0, value) == items
  {
    if items != [] {
      HeadRemNone(items[1..], value);
    }
  }

  /** How many copies LREM should remove. */
  function Quota(count: int64, occurrences: nat): int {
    if count == 0 then occurrences
    else if count == MIN64 then 0
    else Min(if count < 0 then 0 - count else count, occurrences)
  }

  ghost predicate TailCut(items: seq<Bytes>, n: nat, value: Bytes, result: seq<Bytes>, cut: nat) {
    && cut <= |items|
    && Occurrences(items[cut..], value) == Min(n, Occurrences(items, value))
    && result == items[..cut] + Without(items[cut..], value)
  }

  ghost predicate TrimmedAtTail(items: seq<Bytes>, n: nat, value: Bytes, result: seq<Bytes>) {
    exists cut :: TailCut(items, n, value, result, cut)
  }

  lemma TailRemCut(items: seq<Bytes>, n: nat, value: Bytes) returns (cut: nat)
    ensures TailCut(items, n, value, TailRem(items, n, value), cut)
  {
    var mirror := Reversed(items);
    var c := HeadRemCut(mirror, n, value);
    cut := |items| - c;
    TailRemIsMirrored(items, n, value);
    WithoutReversed(items, value);
    MirrorHalves(items, cut);
    WithoutReversed(items[cut..], value);
    ReversedConcat(Reversed(Without(items[cut..], value)), Reversed(items[..cut]));
    ReversedTwice(Without(items[cut..], value));
    ReversedTwice(items[..cut]);
  }

  lemma MirrorHalves(items: seq<Bytes>, cut: nat)
    requires cut <= |items|
    ensures Reversed(items)[..|items| - cut] == Reversed(items[cut..])
    ensures Reversed(items)[|items| - cut..] == Reversed(items[..cut])
  {
    var a, b := items[..cut], items[cut..];
    assert items == a + b;
    ReversedConcat(a, b);
    Halves(Reversed(b), Reversed(a));
  }

  lemma LRemCounts(items: seq<Bytes>, cut: nat, value: Bytes)
    requires cut <= |items|
    ensures Without(Without(items[..cut], value) + items[cut..], value) == Without(items, value)
    ensures Without(items[..cut] + Without(items[cut..], value), value) == Without(items, value)
    ensures |Without(items[..cut], value)| == cut - Occurrences(items[..cut], value)
    ensures |Without(items[cut..], value)| == |items| - cut - Occurrences(items[cut..], value)
  {
    var a, b := items[..cut], items[cut..];
    assert items == a + b;
    WithoutConcat(a, b, value);
    WithoutConcat(Without(a, value), b, value);
    WithoutConcat(a, Without(b, value), value);
    WithoutBounds(a, value);
    WithoutBounds(b, value);
    WithoutIdle(Without(a, value), value);
    WithoutIdle(Without(b, value), value);
  }

  lemma LRemFromHead(items: seq<Bytes>, n: nat, value: Bytes)
    ensures var left := HeadRem(items, n, value);
            && TrimmedAtHead(items, n, value, left)
            && Without(left, value) == Without(items, value)
            && |left| == |items| - Min(n, Occurrences(items, value))
  {
    var cut := HeadRemCut(items, n, value);
    LRemCounts(items, cut, value);
  }

  lemma LRemFromTail(items: seq<Bytes>, n: nat, value: Bytes)
    ensures var left := TailRem(items, n, value);
            && TrimmedAtTail(items, n, value, left)
            && Without(left, value) == Without(items, value)
            && |left| == |items| - Min(n, Occurrences(items, value))
  {
    var cut := TailRemCut(items, n, value);
    LRemCounts(items, cut, value);
  }

  /** Negating the least count wraps back to it, so the scan's quota is never positive. */
  lemma LRemLeastCount(items: seq<Bytes>, value: Bytes)
    ensures Remaining(items, MIN64, value) == items
  {
    NegateLeast();
    TailRemIdle(items, MIN64, value);
  }

  /**
   LREM removes the first copies for a positive count, the last copies for a negative one and all copies
   for zero, and everything else keeps its place. The least 64-bit count removes nothing.
   */
  lemma LRemDirectional(items: seq<Bytes>, count: int64, value: Bytes)
    ensures count == 0 ==> Remaining(items, count, value) == Without(items, value)
    ensures count > 0 ==> TrimmedAtHead(items, count, value, Remaining(items, count, value))
    ensures MIN64 < count < 0 ==> TrimmedAtTail(items, 0 - count, value, Remaining(items, count, value))
    ensures count == MIN64 ==> Remaining(items, count, value) == items
    ensures Without(Remaining(items, count, value), value) == Without(items, value)
    ensures |Remaining(items, count, value)| == |items| - Quota(count, Occurrences(items, value))
  {
    WithoutBounds(items, value);
    assert MIN64 < count < 0 ==> Wrap(0 - count) == 0 - count;
    hide Wrap;
    if count == 0 {
      WithoutIdle(Without(items, value), value);
    } else if count > 0 {
      LRemFromHead(items, count, value);
    } else if count == MIN64 {
      LRemLeastCount(items, value);
    } else {
      LRemFromTail(items, 0 - count, value);
    }
  }

  lemma {:induction false} WithoutIdle(items: seq<Bytes>, value: Bytes)
    requires value !in items
    ensures Without(items, value) == items
  {
    if items != [] {
      WithoutIdle(items[1..], value);
    }
  }

  lemma {:induction false} TailRemIdle(items: seq<Bytes>, n: int, value: Bytes)
    requires n <= 0
    ensures TailRem(items, n, value) == items
  {
    if items != [] {
      TailRemIdle(items[..|items| - 1], n, value);
    }
  }

  /**
   For a negative count, LREM equals removing from the reversed list and reversing back exactly when the
   count can be negated or there is nothing to remove.
   */
  lemma LRemNegativeMirrors(items: seq<Bytes>, count: int64, value: Bytes)
    requires count < 0
    ensures Remaining(items, count, value) == Reversed(HeadRem(Reversed(items), 0 - count, value))
            <==> count != MIN64 || Occurrences(items, value) == 0
  {
    var n := 0 - count;
    TailRemIsMirrored(items, n, value);
    if count == MIN64 {
      LRemLeastCount(items, value);
      if Occurrences(items, value) == 0 {
        NoOccurrences(items, value);
        TailRemSpares(items, n, value);
      } else {
        LRemFromTail(items, n, value);
      }
    }
  }

  lemma {:induction false} TailRemSpares(items: seq<Bytes>, n: int, value: Bytes)
    requires value !in items
    ensures TailRem(items, n, value) == items
  {
    if items != [] {
      TailRemSpares(items[..|items| - 1], n, value);
    }
  }

  lemma {:induction false} NoOccurrences(items: seq<Bytes>, value: Bytes)
    requires Occurrences(items, value) == 0
    ensures value !in items
  {
    if items != [] {
      NoOccurrences(items[1..], value);
    }
  }

  class List {
    var items: seq<Bytes>

    constructor ()
      ensures items == []
    {
      items := [];
    }

    method LPush(values: seq<Bytes>) returns (length: nat)
      modifies this
      ensures items == LPushed(old(items), values)
      ensures length == |items|
    {
      var i := 0;
      while i < |values|
        invariant 0 <= i <= |values|
        invariant LPushed(old(items), values) == LPushed(items, values[i..])
      {
        items := [values[i]] + items;
        i := i + 1;
      }
      return |items|;
    }

    method RPush(values: seq<Bytes>) returns (length: nat)
      modifies this
      ensures items == old(items) + values
      ensures length == |items|
    {
      items := items + values;
      return |items|;
    }

    method LPop() returns (value: Option<Bytes>)
      modifies this
      ensures old(items) == [] ==> value == None && items == []
      ensures old(items) != [] ==> value.Some? && [value.value] + items == old(items)
    {
      if items == [] {
        return None;
      }
      value := Some(items[0]);
      items := items[1..];
    }

    method RPop() returns (value: Option<Bytes>)
      modifies this
      ensures old(items) == [] ==> value == None && items == []
      ensures old(items) != [] ==> value.Some? && items + [value.value] == old(items)
    {
      if items == [] {
        return None;
      }
      value := Some(items[|items| - 1]);
      items := items[..|items| - 1];
    }

    method LRange(start: int64, stop: int64) returns (r: seq<Bytes>)
      ensures r == RangeOf(items, start, stop)
      ensures start == 0 && stop == -1 ==> r == items
    {
      var length := |items|;
      if length == 0 {
        return [];
      }
      var first: int, last: int := start, stop;
      if first < 0 {
        first := length + first;
      }
      if last < 0 {
        last := length + last;
      }
      if first < 0 {
        first := 0;
      }
      if last >= length {
        last := length - 1;
      }
      if first > last || first >= length {
        return [];
      }
      return items[first..last + 1];
    }

    method LLen() returns (n: nat)
      ensures n == |items|
    {
      return |items|;
    }

    method LIndex(index: int64) returns (value: Option<Bytes>)
      ensures value == if 0 <= index < |items| then Some(items[index])
                       else if index < 0 <= |items| + index then Some(items[|items| + index])
                       else None
    {
      var p: int := index;
      if p < 0 {
        p := |items| + p;
      }
      if p < 0 || p >= |items| {
        return None;
      }
      return Some(items[p]);
    }

    method LSet(index: int64, value: Bytes) returns (ok: bool)
      modifies this
      ensures ok <==> 0 - |old(items)| <= index < |old(items)|
      ensures items == if !ok then old(items)
                       else old(items)[(if index < 0 then |old(items)| + index else index) := value]
    {
      var p: int := index;
      if p < 0 {
        p := |items| + p;
      }
      if p < 0 || p >= |items| {
        return false;
      }
      items := items[p := value];
      return true;
    }

    method RemAll(value: Bytes) returns (newItems: seq<Bytes>, removed: nat)
      ensures newItems == Without(items, value)
      ensures removed == |items| - |newItems|
    {
      newItems, removed := [], 0;
      var i := 0;
      while i < |items|
        invariant 0 <= i <= |items|
        invariant Without(items, value) == newItems + Without(items[i..], value)
        invariant removed == i - |newItems|
      {
        if items[i] != value {
          newItems := newItems + [items[i]];
        } else {
          removed := removed + 1;
        }
        i := i + 1;
      }
    }

    method RemFromHead(count: int, value: Bytes) returns (newItems: seq<Bytes>, removed: nat)
      requires count > 0
      ensures newItems == HeadRem(items, count, value)
      ensures removed == |items| - |newItems|
    {
      newItems, removed := [], 0;
      var i := 0;
      while i < |items|
        invariant 0 <= i <= |items|
        invariant HeadRem(items, count, value) == newItems + HeadRem(items[i..], count - removed, value)
        invariant removed == i - |newItems|
      {
        if items[i] == value && removed < count {
          removed := removed + 1;
        } else {
          newItems := newItems + [items[i]];
        }
        i := i + 1;
      }
    }

    method RemFromTail(count: int, value: Bytes) returns (newItems: seq<Bytes>, removed: nat)
      ensures newItems == TailRem(items, count, value)
      ensures removed == |items| - |newItems|
    {
      newItems, removed := [], 0;
      var i := |items|;
      assert items[..i] == items;
      while i > 0
        invariant 0 <= i <= |items|
        invariant TailRem(items, count, value) == TailRem(items[..i], count - removed, value) + newItems
        invariant removed == |items| - i - |newItems|
      {
        i := i - 1;
        assert items[..i + 1][..i] == items[..i];
        if items[i] == value && removed < count {
          removed := removed + 1;
        } else {
          newItems := [items[i]] + newItems;
        }
      }
    }

    method LRem(count: int64, value: Bytes) returns (removed: nat)
      modifies this
      ensures items == Remaining(old(items), count, value)
      ensures removed == |old(items)| - |items|
    {
      var newItems: seq<Bytes>;
      if count == 0 {
        newItems, removed := RemAll(value);
      } else if count > 0 {
        newItems, removed := RemFromHead(count, value);
      } else {
        newItems, removed := RemFromTail(Wrap(0 - count), value);
      }
      items := newItems;
    }
  }

  // --------------------------------------------------------------------- sets

  function Elements(members: seq<Bytes>): (r: set<Bytes>)
    ensures forall m :: m in r <==> m in members
  {
    set m | m in members
  }

  lemma ElementsStep(members: seq<Bytes>, i: nat)
    requires i < |members|
    ensures Elements(members[..i + 1]) == Elements(members[..i]) + {members[i]}
  {
    assert members[..i + 1] == members[..i] + [members[i]];
  }

  /** A listing names every element once, in some order. */
  ghost predicate Listing<T(!new)>(order: seq<T>, elements: set<T>) {
    && (forall x :: x in order <==> x in elements)
    && forall i, j :: 0 <= i < j < |order| ==> order[i] != order[j]
  }

  lemma ListingSnoc<T(!new)>(order: seq<T>, done: set<T>, x: T)
    requires Listing(order, done) && x !in done
    ensures Listing(order + [x], done + {x})
  {
  }

  /** Every element once, in the order map iteration happens to yield them. */
  method ListAll(elements: set<Bytes>) returns (order: seq<Bytes>)
    ensures Listing(order, elements)
  {
    order := [];
    var left := elements;
    while left != {}
      invariant left <= elements && Listing(order, elements - left)
      decreases left
    {
      var x :| x in left;
      ListingSnoc(order, elements - left, x);
      left := left - {x};
      order := order + [x];
    }
  }

  ghost predicate InAll(m: Bytes, sets: seq<Set>)
    reads sets
  {
    forall i :: 0 <= i < |sets| ==> m in sets[i].items
  }

  ghost predicate InSome(m: Bytes, sets: seq<Set>)
    reads sets
  {
    exists i :: 0 <= i < |sets| && m in sets[i].items
  }

  class Set {
    var items: set<Bytes>

    constructor ()
      ensures items == {}
    {
      items := {};
    }

    method SAdd(members: seq<Bytes>) returns (added: nat)
      modifies this
      ensures items == old(items) + Elements(members)
      ensures added == |items| - |old(items)|
    {
      added := 0;
      var i := 0;
      ghost var seen: set<Bytes> := {};
      while i < |members|
        invariant 0 <= i <= |members|
        invariant seen == Elements(members[..i])
        invariant items == old(items) + seen
        invariant added == |items| - |old(items)|
      {
        ElementsStep(members, i);
        seen := seen + {members[i]};
        if members[i] !in items {
          items := items + {members[i]};
          added := added + 1;
        }
        i := i + 1;
      }
      assert members[..i] == members;
    }

    method SRem(members: seq<Bytes>) returns (removed: nat)
      modifies this
      ensures items == old(items) - Elements(members)
      ensures removed == |old(items)| - |items|
    {
      removed := 0;
      var i := 0;
      ghost var seen: set<Bytes> := {};
      while i < |members|
        invariant 0 <= i <= |members|
        invariant seen == Elements(members[..i])
        invariant items == old(items) - seen
        invariant removed == |old(items)| - |items|
      {
        ElementsStep(members, i);
        seen := seen + {members[i]};
        if members[i] in items {
          items := items - {members[i]};
          removed := removed + 1;
        }
        i := i + 1;
      }
      assert members[..i] == members;
    }

    method SIsMember(member: Bytes) returns (r: bool)
      ensures r <==> member in items
    {
      return member in items;
    }

    method SMembers() returns (members: seq<Bytes>)
      ensures Listing(members, items)
    {
      members := ListAll(items);
    }

    method SCard() returns (n: nat)
      ensures n == |items|
    {
      return |items|;
    }

    method SInter(others: seq<Set>) returns (result: seq<Bytes>)
      ensures forall m :: m in result <==> m in items && InAll(m, others)
    {
      if others == [] {
        result := SMembers();
        return;
      }
      result := [];
      var left := items;
      while left != {}
        invariant left <= items
        invariant forall m :: m in result <==> m in items && m !in left && InAll(m, others)
        decreases left
      {
        var member :| member in left;
        left := left - {member};
        var inAll, i := true, 0;
        while inAll && i < |others|
          invariant 0 <= i <= |others|
          invariant if inAll then forall k :: 0 <= k < i ==> member in others[k].items else !InAll(member, others)
        {
          inAll := others[i].SIsMember(member);
          i := i + 1;
        }
        if inAll {
          result := result + [member];
        }
      }
    }

    method SUnion(others: seq<Set>) returns (result: seq<Bytes>)
      ensures forall m :: m in result <==> m in items || InSome(m, others)
    {
      var seen := items;
      var i := 0;
      while i < |others|
        invariant 0 <= i <= |others|
        invariant forall m :: m in seen <==> m in items || exists k :: 0 <= k < i && m in others[k].items
      {
        var members := others[i].SMembers();
        seen := seen + Elements(members);
        i := i + 1;
      }
      result := ListAll(seen);
    }

    method SDiff(others: seq<Set>) returns (result: seq<Bytes>)
      ensures forall m :: m in result <==> m in items && !InSome(m, others)
    {
      result := [];
      var left := items;
      while left != {}
        invariant left <= items
        invariant forall m :: m in result <==> m in items && m !in left && !InSome(m, others)
        decreases left
      {
        var member :| member in left;
        left := left - {member};
        var inOther, i := false, 0;
        while !inOther && i < |others|
          invariant 0 <= i <= |others|
          invariant if inOther then InSome(member, others) else forall k :: 0 <= k < i ==> member !in others[k].items
        {
          inOther := others[i].SIsMember(member);
          i := i + 1;
        }
        if !inOther {
          result := result + [member];
        }
      }
    }

    /** Map iteration decides which member goes. */
    method SPop() returns (member: Option<Bytes>)
      modifies this
      ensures old(items) == {} ==> member == None && items == {}
      ensures old(items) != {} ==> member.Some? && member.value in old(items) && items == old(items) - {member.value}
    {
      if items == {} {
        return None;
      }
      var m :| m in items;
      items := items - {m};
      return Some(m);
    }
  }

  // ------------------------------------------------------------------- hashes

  /** Field/value pairs as HMSET builds them: a repeated field keeps its last value. */
  function Pairs(args: seq<Bytes>): map<Bytes, Bytes> {
    if |args| < 2 then map[] else map[args[0] := args[1]] + Pairs(args[2..])
  }

  /** A field given more than once keeps the value it was given last. */
  lemma {:induction false} LastValueWins(args: seq<Bytes>, i: nat)
    requires i % 2 == 0 && i + 1 < |args|
    requires forall j :: i < j < |args| - 1 && j % 2 == 0 ==> args[j] != args[i]
    ensures args[i] in Pairs(args) && Pairs(args)[args[i]] == args[i + 1]
  {
    var rest := args[2..];
    if i > 0 {
      forall j | i - 2 < j < |rest| - 1 && j % 2 == 0
        ensures rest[j] != rest[i - 2]
      {
        assert args[j + 2] != args[i];
      }
      LastValueWins(rest, i - 2);
    } else {
      OnlyNamedFields(rest, args[0]);
    }
  }

  lemma {:induction false} OnlyNamedFields(args: seq<Bytes>, field: Bytes)
    requires forall j :: 0 <= j < |args| - 1 && j % 2 == 0 ==> args[j] != field
    ensures field !in Pairs(args)
  {
    if |args| >= 2 {
      forall j | 0 <= j < |args[2..]| - 1 && j % 2 == 0
        ensures args[2..][j] != field
      {
        assert args[j + 2] != field;
      }
      OnlyNamedFields(args[2..], field);
    }
  }

  /** HINCRBY: the new value, or nothing when the stored one is not an integer. */
  function Bumped(fields: map<Bytes, Bytes>, field: Bytes, increment: int64): Option<int64> {
    match LooseInt(if field in fields then fields[field] else "0")
    case None => None
    case Some(n) => Some(Wrap(n + increment))
  }

  lemma DropMore(m: map<Bytes, Bytes>, gone: set<Bytes>, name: Bytes)
    ensures m - (gone + {name}) == if name in m - gone then (m - gone) - {name} else m - gone
  {
  }

  /** Dropping one name more. */
  lemma DropNext(m: map<Bytes, Bytes>, gone: set<Bytes>, name: Bytes)
    ensures m - (gone + {name}) == if name in m - gone then (m - gone) - {name} else m - gone
    ensures name in m - gone ==> |(m - gone) - {name}| == |m - gone| - 1
  {
    DropMore(m, gone, name);
    if name in m - gone {
      DropOne(m - gone, name);
    }
  }

  lemma NoElements(names: seq<Bytes>)
    ensures Elements(names[..0]) == {} && names[..|names|] == names
  {
  }

  lemma DropOne(fields: map<Bytes, Bytes>, name: Bytes)
    requires name in fields
    ensures |fields - {name}| == |fields| - 1
  {
    assert fields == (fields - {name})[name := fields[name]];
  }

  /** The values of a map, each as often as it occurs. */
  ghost function ValueBag(fields: map<Bytes, Bytes>): multiset<Bytes> {
    if fields == map[] then multiset{}
    else
      var f :| f in fields;
      multiset{fields[f]} + ValueBag(fields - {f})
  }

  lemma TakeOne(fields: map<Bytes, Bytes>) returns (f: Bytes)
    requires fields != map[]
    ensures f in fields && ValueBag(fields) == multiset{fields[f]} + ValueBag(fields - {f})
  {
    f :| f in fields && ValueBag(fields) == multiset{fields[f]} + ValueBag(fields - {f});
  }

  lemma DropBoth(fields: map<Bytes, Bytes>, f: Bytes, g: Bytes)
    requires f in fields && g in fields && f != g
    ensures fields - {f} - {g} == fields - {g} - {f}
    ensures f in fields - {g} && (fields - {g})[f] == fields[f]
    ensures g in fields - {f} && (fields - {f})[g] == fields[g]
    ensures |fields - {f}| < |fields| && |fields - {g}| < |fields|
  {
    DropOne(fields, f);
    DropOne(fields, g);
  }

  /** Whichever field is taken first. */
  lemma {:induction false} ValueBagStep(fields: map<Bytes, Bytes>, f: Bytes)
    requires f in fields
    ensures ValueBag(fields) == multiset{fields[f]} + ValueBag(fields - {f})
    decreases |fields|
  {
    hide ValueBag;
    var g := TakeOne(fields);
    if g != f {
      DropBoth(fields, f, g);
      ValueBagStep(fields - {g}, f);
      ValueBagStep(fields - {f}, g);
    }
  }

  lemma NoValues()
    ensures ValueBag(map[]) == multiset{}
  {
  }

  class Hash {
    var fields: map<Bytes, Bytes>

    constructor ()
      ensures fields == map[]
    {
      fields := map[];
    }

    method HSet(field: Bytes, value: Bytes) returns (isNew: bool)
      modifies this
      ensures isNew <==> field !in old(fields)
      ensures fields == old(fields)[field := value]
    {
      isNew := field !in fields;
      fields := fields[field := value];
    }

    method HGet(field: Bytes) returns (value: Option<Bytes>)
      ensures value == if field in fields then Some(fields[field]) else None
    {
      return if field in fields then Some(fields[field]) else None;
    }

    method HDel(names: seq<Bytes>) returns (deleted: nat)
      modifies this
      ensures fields == old(fields) - Elements(names)
      ensures deleted == |old(fields)| - |fields|
    {
      hide Elements;
      NoElements(names);
      deleted := 0;
      var i := 0;
      ghost var seen: set<Bytes> := {};
      while i < |names|
        invariant 0 <= i <= |names|
        invariant seen == Elements(names[..i])
        invariant fields == old(fields) - seen
        invariant deleted == |old(fields)| - |fields|
      {
        ElementsStep(names, i);
        DropNext(old(fields), seen, names[i]);
        seen := seen + {names[i]};
        if names[i] in fields {
          fields := fields - {names[i]};
          deleted := deleted + 1;
        }
        i := i + 1;
      }
      assert names[..i] == names;
    }

    method HExists(field: Bytes) returns (found: bool)
      ensures found <==> field in fields
    {
      return field in fields;
    }

    method HGetAll() returns (result: map<Bytes, Bytes>)
      ensures result == fields
    {
      result := map[];
      var left := fields.Keys;
      while left != {}
        invariant left <= fields.Keys
        invariant result == fields - left
        decreases left
      {
        var f :| f in left;
        left := left - {f};
        result := result[f := fields[f]];
      }
    }

    method HKeys() returns (names: seq<Bytes>)
      ensures Listing(names, fields.Keys)
    {
      names := ListAll(fields.Keys);
    }

    method HVals() returns (values: seq<Bytes>)
      ensures multiset(values) == ValueBag(fields)
    {
      hide ValueBag;
      values := [];
      var left := fields.Keys;
      ghost var rest := fields;
      while left != {}
        invariant rest.Keys == left <= fields.Keys
        invariant forall f :: f in rest ==> rest[f] == fields[f]
        invariant ValueBag(fields) == multiset(values) + ValueBag(rest)
        decreases left
      {
        var f :| f in left;
        ValueBagStep(rest, f);
        left, rest := left - {f}, rest - {f};
        values := values + [fields[f]];
      }
      assert rest == map[];
      NoValues();
    }

    /** A missing field gives the empty text. */
    method HMGet(names: seq<Bytes>) returns (values: seq<Bytes>)
      ensures |values| == |names|
      ensures forall i :: 0 <= i < |names| ==> values[i] == if names[i] in fields then fields[names[i]] else ""
    {
      values := [];
      var i := 0;
      while i < |names|
        invariant 0 <= i <= |names| && |values| == i
        invariant forall k :: 0 <= k < i ==> values[k] == if names[k] in fields then fields[names[k]] else ""
      {
        values := values + [if names[i] in fields then fields[names[i]] else ""];
        i := i + 1;
      }
    }

    method HMSet(pairs: map<Bytes, Bytes>)
      modifies this
      ensures fields == old(fields) + pairs
    {
      var left := pairs.Keys;
      while left != {}
        invariant left <= pairs.Keys
        invariant fields == old(fields) + (pairs - left)
        decreases left
      {
        var f :| f in left;
        left := left - {f};
        fields := fields[f := pairs[f]];
      }
      assert pairs - left == pairs;
    }

    method HLen() returns (n: nat)
      ensures n == |fields|
    {
      return |fields|;
    }

    method HIncrBy(field: Bytes, increment: int64) returns (r: Option<int64>)
      modifies this
      ensures r == Bumped(old(fields), field, increment)
      ensures field !in old(fields) ==> r == Some(increment)
      ensures field in old(fields) && LooseInt(old(fields)[field]).Some? ==>
                r == Some(Wrap(LooseInt(old(fields)[field]).value + increment))
      ensures fields == if r.Some? then old(fields)[field := LooseText(r.value)] else old(fields)
    {
      var current: int64 := 0;
      if field in fields {
        var parsed := ParseInt(fields[field]);
        if parsed.None? {
          return None;
        }
        current := parsed.value;
      } else {
        assert LooseInt("0") == Some(0) by {
          AtoiOfItoa(0);
          ParseIntAgreesWithAtoi("0");
        }
      }
      var newValue := Wrap(current + increment);
      var text := IntToString(newValue);
      fields := fields[field := text];
      return Some(newValue);
    }
  }
}
