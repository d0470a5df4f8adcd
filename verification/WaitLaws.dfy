/**
 What a blocked popper is owed: it comes back with an item or after its deadline and for no other reason, nothing
 in the list is lost or handed out twice, no timer goes off early, and a push can reach a popper that waits.
 */
module WaitLaws {
  import opened Wrappers
  import opened BlockingWait

  predicate ReturnedAt(s: State, p: nat) {
    p < |s.poppers| && s.poppers[p].phase.Returned?
  }

  /** The popper looks, and there is something for it. */
  predicate Serves(s: State, a: Step) {
    a.Scan? && s.items > 0
  }

  /** The popper looks in vain, strictly after its deadline. */
  predicate TimesOut(s: State, a: Step)
    requires Enabled(s, a)
  {
    a.Scan? && s.items == 0 && s.poppers[a.p].deadline.Some? && s.poppers[a.p].deadline.value < s.now
  }

  /** A popper returns in a step that gives it an item, or once its deadline has passed and the list is empty. */
  lemma ReturnsOnlyWith(s: State, a: Step, p: nat)
    requires Enabled(s, a) && !ReturnedAt(s, p)
    ensures ReturnedAt(Next(s, a), p) <==> a == Scan(p) && (Serves(s, a) || TimesOut(s, a))
  {
  }

  /** The list changes only by pushes and by the items handed out, one at a time. */
  lemma ItemsAre(s: State, a: Step)
    requires Enabled(s, a)
    ensures Next(s, a).items == s.items + (if a.Push? then 1 else 0) - (if Serves(s, a) then 1 else 0)
  {
  }

  /** A popper that has returned stays so, and keeps its deadline in any case. */
  lemma ReturnIsFinal(s: State, a: Step, p: nat)
    requires Enabled(s, a) && p < |s.poppers|
    ensures p < |Next(s, a).poppers| && Next(s, a).poppers[p].deadline == s.poppers[p].deadline
    ensures ReturnedAt(s, p) ==> ReturnedAt(Next(s, a), p)
  {
  }

  // ------------------------------------------------------------------- accounts

  function Pushes(steps: seq<Step>): nat {
    if steps == [] then 0 else (if steps[0].Push? then 1 else 0) + Pushes(steps[1..])
  }

  function Served(s: State, steps: seq<Step>): nat
    requires After(s, steps).Some?
    decreases steps
  {
    if steps == [] then 0
    else (if Serves(s, steps[0]) then 1 else 0) + Served(Next(s, steps[0]), steps[1..])
  }

  function TimedOut(s: State, steps: seq<Step>): nat
    requires After(s, steps).Some?
    decreases steps
  {
    if steps == [] then 0
    else (if TimesOut(s, steps[0]) then 1 else 0) + TimedOut(Next(s, steps[0]), steps[1..])
  }

  function Count(poppers: seq<Popper>): nat {
    if poppers == [] then 0
    else Count(poppers[..|poppers| - 1]) + (if poppers[|poppers| - 1].phase.Returned? then 1 else 0)
  }

  lemma {:induction false} SameCount(x: seq<Popper>, y: seq<Popper>)
    requires |x| == |y| && forall i :: 0 <= i < |x| ==> (x[i].phase.Returned? <==> y[i].phase.Returned?)
    ensures Count(x) == Count(y)
  {
    if x != [] {
      SameCount(x[..|x| - 1], y[..|y| - 1]);
    }
  }

  lemma {:induction false} OneMoreCounts(x: seq<Popper>, y: seq<Popper>, p: nat)
    requires p < |x| == |y| && !x[p].phase.Returned? && y[p].phase.Returned?
    requires forall i :: 0 <= i < |x| && i != p ==> (x[i].phase.Returned? <==> y[i].phase.Returned?)
    ensures Count(y) == Count(x) + 1
  {
    if p == |x| - 1 {
      SameCount(x[..p], y[..p]);
    } else {
      OneMoreCounts(x[..|x| - 1], y[..|y| - 1], p);
    }
  }

  lemma CountStep(s: State, a: Step)
    requires Enabled(s, a)
    ensures Count(Next(s, a).poppers) == Count(s.poppers) + if Serves(s, a) || TimesOut(s, a) then 1 else 0
  {
    var s' := Next(s, a);
    forall p | 0 <= p < |s.poppers|
      ensures p < |s'.poppers|
      ensures s'.poppers[p].phase.Returned? <==>
              s.poppers[p].phase.Returned? || (a == Scan(p) && (Serves(s, a) || TimesOut(s, a)))
    {
      ReturnIsFinal(s, a, p);
      if !ReturnedAt(s, p) {
        ReturnsOnlyWith(s, a, p);
      }
    }
    if a.Arrive? {
      assert s'.poppers[..|s'.poppers| - 1] == s.poppers;
    } else if Serves(s, a) || TimesOut(s, a) {
      OneMoreCounts(s.poppers, s'.poppers, a.p);
    } else {
      SameCount(s.poppers, s'.poppers);
    }
  }

  /**
   In every run, what was pushed is what was handed out and what is left, and as many poppers have returned as
   were handed an item or came to their deadline.
   */
  lemma {:induction false} Accounts(s: State, steps: seq<Step>)
    requires After(s, steps).Some?
    ensures var end := After(s, steps).value;
            && end.items + Served(s, steps) == s.items + Pushes(steps)
            && Count(end.poppers) == Count(s.poppers) + Served(s, steps) + TimedOut(s, steps)
    decreases steps
  {
    if steps != [] {
      ItemsAre(s, steps[0]);
      CountStep(s, steps[0]);
      hide Enabled, Next;
      Accounts(Next(s, steps[0]), steps[1..]);
    }
  }

  // --------------------------------------------------------------------- timers

  /** A timer that has gone off was due. */
  ghost predicate OnTime(s: State) {
    forall t :: 0 <= t < |s.timers| ==>
      s.timers[t].herald.Pending? || s.timers[t].herald.Stopped? || s.timers[t].due <= s.now
  }

  lemma OnTimeStep(s: State, a: Step)
    requires OnTime(s) && Enabled(s, a)
    ensures OnTime(Next(s, a))
  {
  }

  lemma {:induction false} OnTimeRun(s: State, steps: seq<Step>)
    requires OnTime(s) && After(s, steps).Some?
    ensures OnTime(After(s, steps).value)
    decreases steps
  {
    if steps != [] {
      OnTimeStep(s, steps[0]);
      hide Enabled, Next, OnTime;
      OnTimeRun(Next(s, steps[0]), steps[1..]);
    }
  }

  /**
   In every interleaving, a parked popper is woken by a push or by a timer whose time has come, and by its own
   timer not before its own deadline.
   */
  lemma WokenForAReason(s: State, a: Step, p: nat)
    requires Reachable(s) && Enabled(s, a) && ParkedAt(s, p) && !ParkedAt(Next(s, a), p)
    ensures a.PushBroadcast? || (a.TimerBroadcast? && s.timers[a.t].due <= s.now)
    ensures a.TimerBroadcast? && s.poppers[p].phase.timer == Some(a.t) ==>
              s.poppers[p].deadline.Some? && s.poppers[p].deadline.value <= s.now
  {
    var steps :| After(START, steps) == Some(s);
    OnTimeRun(START, steps);
    OnlyBroadcastReleases(s, a, p);
    if s.poppers[p].deadline.Some? {
      ParkedHasTimer(s, p);
    } else {
      NoDeadlineNoTimer(s, p);
    }
  }

  lemma NoDeadlineNoTimer(s: State, p: nat)
    requires Reachable(s) && ParkedAt(s, p) && s.poppers[p].deadline.None?
    ensures s.poppers[p].phase.timer.None?
  {
    ReachableInv(s);
    assert TimerFits(s, p);
  }

  // ------------------------------------------------------------ waiting, and an end to it

  /** A popper that found nothing and can take the mutex parks, with a timer exactly if it has a deadline. */
  lemma Parks(s: State, p: nat) returns (s': State)
    requires p < |s.poppers| && s.poppers[p].phase.Wanting? && s.mutex.None?
    requires s.poppers[p].deadline.Some? ==> s.now < s.poppers[p].deadline.value
    ensures After(s, [Lock(p), Arm(p), Park(p)]) == Some(s')
    ensures ParkedAt(s', p) && s'.mutex.None? && s'.items == s.items && s'.now == s.now && s'.pushers == s.pushers
    ensures forall i :: 0 <= i < |s.poppers| && i != p ==> i < |s'.poppers| && s'.poppers[i] == s.poppers[i]
    ensures var d := s.poppers[p].deadline;
            s'.timers == if d.Some? then s.timers + [Timer(Pending, d.value, p)] else s.timers
  {
    var held := Next(s, Lock(p));
    var armed := Next(held, Arm(p));
    s' := Next(armed, Park(p));
    OneStep(s, Lock(p));
    OneStep(held, Arm(p));
    OneStep(armed, Park(p));
    Chain(s, [Lock(p)], held, [Arm(p)]);
    assert [Lock(p)] + [Arm(p)] == [Lock(p), Arm(p)];
    Chain(s, [Lock(p), Arm(p)], armed, [Park(p)]);
    assert [Lock(p), Arm(p)] + [Park(p)] == [Lock(p), Arm(p), Park(p)];
  }

  /** The steps of a push, from the item to the mutex given up. */
  function PushSteps(q: nat): seq<Step> {
    [Push, PushLock(q), PushBroadcast(q), PushUnlock(q)]
  }

  lemma FourSteps(s: State, a: Step, b: Step, c: Step, d: Step)
    requires Enabled(s, a) && Enabled(Next(s, a), b) && Enabled(Next(Next(s, a), b), c)
    requires Enabled(Next(Next(Next(s, a), b), c), d)
    ensures After(s, [a, b, c, d]) == Some(Next(Next(Next(Next(s, a), b), c), d))
  {
    hide Enabled, Next;
    var all := [a, b, c, d];
    var s1 := Next(s, a);
    var s2 := Next(s1, b);
    var s3 := Next(s2, c);
    assert all[1..] == [b, c, d] && [b, c, d][1..] == [c, d] && [c, d][1..] == [d];
    OneStep(s3, d);
    assert After(s2, [c, d]) == After(s3, [d]);
    assert After(s1, [b, c, d]) == After(s2, [c, d]);
  }

  lemma PushWakes(s: State, p: nat) returns (s': State)
    requires ParkedAt(s, p) && s.mutex.None?
    ensures After(s, PushSteps(|s.pushers|)) == Some(s')
    ensures s'.items == s.items + 1 && s'.mutex.None? && s'.now == s.now && s'.timers == s.timers
    ensures p < |s'.poppers| && s'.poppers[p] == s.poppers[p].(phase := Woken(s.poppers[p].phase.timer))
  {
    var q := |s.pushers|;
    var pushed := Next(s, Push);
    var locked := Next(pushed, PushLock(q));
    var told := Next(locked, PushBroadcast(q));
    s' := Next(told, PushUnlock(q));
    FourSteps(s, Push, PushLock(q), PushBroadcast(q), PushUnlock(q));
  }

  lemma WokenTakes(s: State, p: nat) returns (s': State)
    requires p < |s.poppers| && s.poppers[p].phase.Woken? && s.mutex.None? && s.items > 0
    ensures After(s, [Wake(p), Leave(p), Scan(p)]) == Some(s')
    ensures ReturnedAt(s', p) && s'.items == s.items - 1
  {
    var awake := Next(s, Wake(p));
    var free := Next(awake, Leave(p));
    s' := Next(free, Scan(p));
    OneStep(s, Wake(p));
    OneStep(awake, Leave(p));
    OneStep(free, Scan(p));
    Chain(s, [Wake(p)], awake, [Leave(p)]);
    assert [Wake(p)] + [Leave(p)] == [Wake(p), Leave(p)];
    Chain(s, [Wake(p), Leave(p)], free, [Scan(p)]);
    assert [Wake(p), Leave(p)] + [Scan(p)] == [Wake(p), Leave(p), Scan(p)];
  }

  /** Wherever a popper is parked and the mutex is free, a push and three steps of the popper hand it an item. */
  lemma PushReachesParked(s: State, p: nat) returns (s': State)
    requires ParkedAt(s, p) && s.mutex.None?
    ensures After(s, PushSteps(|s.pushers|) + [Wake(p), Leave(p), Scan(p)]) == Some(s')
    ensures ReturnedAt(s', p) && s'.items == s.items
  {
    var told := PushWakes(s, p);
    s' := WokenTakes(told, p);
    hide *;
    Chain(s, PushSteps(|s.pushers|), told, [Wake(p), Leave(p), Scan(p)]);
  }

  lemma ScansInVain(d: int) returns (s: State)
    requires d > 0
    ensures After(START, [Arrive(Some(d)), Scan(0)]) == Some(s)
    ensures SameState(s, State(0, 0, None, [Popper(Wanting, Some(d), false)], [], []))
  {
    var here := Next(START, Arrive(Some(d)));
    s := Next(here, Scan(0));
    OneStep(START, Arrive(Some(d)));
    OneStep(here, Scan(0));
    Chain(START, [Arrive(Some(d))], here, [Scan(0)]);
    assert [Arrive(Some(d))] + [Scan(0)] == [Arrive(Some(d)), Scan(0)];
  }

  /** And there is such a popper: it comes with a deadline, parks, waits, and is handed what is pushed before then. */
  lemma WaitsAndIsServed(d: int, t: int) returns (steps: seq<Step>, parked: State, s: State)
    requires 0 <= t < d
    ensures steps == [Arrive(Some(d)), Scan(0)] + [Lock(0), Arm(0), Park(0)] + [Tick(t)]
    ensures After(START, steps) == Some(parked) && Reachable(parked)
    ensures ParkedAt(parked, 0) && parked.items == 0 && parked.now == t
    ensures After(parked, PushSteps(0) + [Wake(0), Leave(0), Scan(0)]) == Some(s)
    ensures ReturnedAt(s, 0) && s.items == 0
  {
    var vain := ScansInVain(d);
    var parks := Parks(vain, 0);
    parked := Next(parks, Tick(t));
    OneStep(parks, Tick(t));
    steps := [Arrive(Some(d)), Scan(0)] + [Lock(0), Arm(0), Park(0)];
    Chain(START, [Arrive(Some(d)), Scan(0)], vain, [Lock(0), Arm(0), Park(0)]);
    Chain(START, steps, parks, [Tick(t)]);
    steps := steps + [Tick(t)];
    s := PushReachesParked(parked, 0);
  }

  // ------------------------------------------------------------- no stray timers

  /** A timer still to go off belongs to a popper that is waiting with it. */
  ghost predicate NoStrays(s: State) {
    forall t :: 0 <= t < |s.timers| && s.timers[t].herald.Pending? ==>
      var p := s.timers[t].popper;
      p < |s.poppers| && HasTimer(s.poppers[p].phase) && s.poppers[p].phase.timer == Some(t)
  }

  lemma NoStraysStep(s: State, a: Step)
    requires NoStrays(s) && Inv(s) && Enabled(s, a)
    ensures NoStrays(Next(s, a))
  {
    if a.Leave? {
      assert TimerFits(s, a.p);
    }
  }

  lemma {:induction false} NoStraysRun(s: State, steps: seq<Step>)
    requires NoStrays(s) && Inv(s) && After(s, steps).Some?
    ensures NoStrays(After(s, steps).value)
    decreases steps
  {
    if steps != [] {
      NoStraysStep(s, steps[0]);
      StepKeepsInv(s, steps[0]);
      hide Enabled, Next, NoStrays, Inv;
      NoStraysRun(Next(s, steps[0]), steps[1..]);
    }
  }

  /** In every interleaving, a popper that scans or has returned has no timer left to go off. */
  lemma TimersAreStopped(s: State, t: nat)
    requires Reachable(s) && t < |s.timers| && s.timers[t].herald.Pending?
    ensures var p := s.timers[t].popper;
            p < |s.poppers| && !s.poppers[p].phase.Scanning? && !s.poppers[p].phase.Returned?
  {
    var steps :| After(START, steps) == Some(s);
    NoStraysRun(START, steps);
  }

  /** A popper comes scanning, whatever is going on. */
  lemma ComesScanning(s: State, deadline: Option<int>)
    ensures Next(s, Arrive(deadline)) == s.(poppers := s.poppers + [Popper(Scanning, deadline, false)])
  {
  }

  /** A push is missed by a popper only between its scan and its taking the mutex, and until its next scan. */
  lemma MissedMeans(s: State, a: Step, p: nat)
    requires Enabled(s, a) && p < |s.poppers|
    ensures !s.poppers[p].missed ==>
              (Next(s, a).poppers[p].missed <==> a.PushBroadcast? && s.poppers[p].phase.Wanting?)
    ensures s.poppers[p].missed && a == Scan(p) && !ReturnedAt(Next(s, a), p) ==> !Next(s, a).poppers[p].missed
  {
  }

  /** A popper that gets the mutex at its deadline or later goes back to scan, and leaves nothing behind. */
  lemma TurnsBack(s: State, p: nat) returns (s': State)
    requires p < |s.poppers| && s.poppers[p].phase.Wanting? && s.mutex.None?
    requires s.poppers[p].deadline.Some? && s.poppers[p].deadline.value <= s.now
    ensures After(s, [Lock(p), Arm(p), Leave(p)]) == Some(s')
    ensures s' == s.(poppers := s.poppers[p := s.poppers[p].(phase := Scanning)])
  {
    var held := Next(s, Lock(p));
    var turned := Next(held, Arm(p));
    s' := Next(turned, Leave(p));
    OneStep(s, Lock(p));
    OneStep(held, Arm(p));
    OneStep(turned, Leave(p));
    Chain(s, [Lock(p)], held, [Arm(p)]);
    assert [Lock(p)] + [Arm(p)] == [Lock(p), Arm(p)];
    Chain(s, [Lock(p), Arm(p)], turned, [Leave(p)]);
    assert [Lock(p), Arm(p)] + [Leave(p)] == [Lock(p), Arm(p), Leave(p)];
  }
}
