/**
 The wait of BLPOP and BRPOP: a mutex, a condition variable, and a timer that broadcasts at the deadline.

 Poppers, pushers and timer callbacks are goroutines; here each atomic section between two operations on the
 mutex is a step, and a run is any interleaving of steps. One list is enough: `items` counts what is in it.
 */
module BlockingWait {
  import opened Wrappers

  /**
   A popper scans; finding nothing it wants the mutex, holds it, arms a timer if it has a deadline, and parks,
   which gives the mutex up. Woken, it takes the mutex again, stops its timer, leaves and scans once more.
   */
  datatype PopperPhase =
    | Scanning
    | Wanting
    | Holding
    | Armed(timer: Option<nat>)
    | Parked(timer: Option<nat>)
    | Woken(timer: Option<nat>)
    | Leaving(timer: Option<nat>)
    | Returned

  /** `missed`: since its last scan a push has broadcast before this popper could hear it. */
  datatype Popper = Popper(phase: PopperPhase, deadline: Option<int>, missed: bool)

  /** A goroutine that takes the mutex only to broadcast: a pusher, or a timer's callback once it has fired. */
  datatype Herald = Pending | Calling | Inside | Announced | Over | Stopped

  datatype Timer = Timer(herald: Herald, due: int, popper: nat)

  datatype Owner = OfPopper(p: nat) | OfTimer(t: nat) | OfPusher(q: nat)

  datatype State = State(
    items: nat,
    now: int,
    mutex: Option<Owner>,
    poppers: seq<Popper>,
    timers: seq<Timer>,
    pushers: seq<Herald>)

  datatype Step =
    | Arrive(deadline: Option<int>)
    | Tick(to: int)
    | Scan(p: nat)
    | Lock(p: nat)
    | Arm(p: nat)
    | Park(p: nat)
    | Wake(p: nat)
    | Leave(p: nat)
    | Fire(t: nat)
    | TimerLock(t: nat)
    | TimerBroadcast(t: nat)
    | TimerUnlock(t: nat)
    | Push
    | PushLock(q: nat)
    | PushBroadcast(q: nat)
    | PushUnlock(q: nat)

  const START := State(0, 0, None, [], [], [])

  // ------------------------------------------------------------------ the steps

  predicate PopperAt(s: State, p: nat) {
    p < |s.poppers|
  }

  predicate TimerIs(s: State, t: nat, h: Herald) {
    t < |s.timers| && s.timers[t].herald == h
  }

  predicate PusherIs(s: State, q: nat, h: Herald) {
    q < |s.pushers| && s.pushers[q] == h
  }

  predicate Enabled(s: State, a: Step) {
    match a
    case Arrive(_) => true
    case Tick(to) => s.now <= to
    case Scan(p) => PopperAt(s, p) && s.poppers[p].phase.Scanning?
    case Lock(p) => PopperAt(s, p) && s.poppers[p].phase.Wanting? && s.mutex.None?
    case Arm(p) => PopperAt(s, p) && s.poppers[p].phase.Holding?
    case Park(p) => PopperAt(s, p) && s.poppers[p].phase.Armed?
    case Wake(p) => PopperAt(s, p) && s.poppers[p].phase.Woken? && s.mutex.None?
    case Leave(p) => PopperAt(s, p) && s.poppers[p].phase.Leaving?
    case Fire(t) => TimerIs(s, t, Pending) && s.timers[t].due <= s.now
    case TimerLock(t) => TimerIs(s, t, Calling) && s.mutex.None?
    case TimerBroadcast(t) => TimerIs(s, t, Inside)
    case TimerUnlock(t) => TimerIs(s, t, Announced)
    case Push => true
    case PushLock(q) => PusherIs(s, q, Calling) && s.mutex.None?
    case PushBroadcast(q) => PusherIs(s, q, Inside)
    case PushUnlock(q) => PusherIs(s, q, Announced)
  }

  function SetPhase(s: State, p: nat, phase: PopperPhase): State
    requires p < |s.poppers|
  {
    s.(poppers := s.poppers[p := s.poppers[p].(phase := phase)])
  }

  function SetTimer(s: State, t: nat, h: Herald): State
    requires t < |s.timers|
  {
    s.(timers := s.timers[t := s.timers[t].(herald := h)])
  }

  /** One pass over the keys, the deadline check after it, and the decision to wait. */
  function Scanned(s: State, p: nat): State
    requires p < |s.poppers|
  {
    var popper := s.poppers[p];
    if s.items > 0 then SetPhase(s, p, Returned).(items := s.items - 1)
    else if popper.deadline.Some? && popper.deadline.value < s.now then SetPhase(s, p, Returned)
    else s.(poppers := s.poppers[p := popper.(phase := Wanting, missed := false)])
  }

  /** A popper whose deadline is here leaves at once; one without a deadline needs no timer. */
  function ArmedAt(s: State, p: nat): State
    requires p < |s.poppers|
  {
    match s.poppers[p].deadline
    case None => SetPhase(s, p, Armed(None))
    case Some(d) =>
      if d <= s.now then SetPhase(s, p, Leaving(None))
      else SetPhase(s, p, Armed(Some(|s.timers|))).(timers := s.timers + [Timer(Pending, d, p)])
  }

  function Released(popper: Popper): Popper {
    if popper.phase.Parked? then popper.(phase := Woken(popper.phase.timer)) else popper
  }

  /** A broadcast wakes everyone parked, and only them. */
  function Broadcast(s: State): State {
    s.(poppers := seq(|s.poppers|, i requires 0 <= i < |s.poppers| => Released(s.poppers[i])))
  }

  /** A push's broadcast passes over the poppers that have scanned but do not hold the mutex yet. */
  function PassOver(s: State): State {
    s.(poppers := seq(|s.poppers|, i requires 0 <= i < |s.poppers| =>
      var popper := s.poppers[i]; if popper.phase.Wanting? then popper.(missed := true) else popper))
  }

  function Left(s: State, p: nat): State
    requires p < |s.poppers| && s.poppers[p].phase.Leaving?
  {
    var t := s.poppers[p].phase.timer;
    var stopped := if t.Some? && TimerIs(s, t.value, Pending) then SetTimer(s, t.value, Stopped) else s;
    SetPhase(stopped, p, Scanning).(mutex := None)
  }

  function Next(s: State, a: Step): State
    requires Enabled(s, a)
  {
    match a
    case Arrive(deadline) => s.(poppers := s.poppers + [Popper(Scanning, deadline, false)])
    case Tick(to) => s.(now := to)
    case Scan(p) => Scanned(s, p)
    case Lock(p) => SetPhase(s, p, Holding).(mutex := Some(OfPopper(p)))
    case Arm(p) => ArmedAt(s, p)
    case Park(p) => SetPhase(s, p, Parked(s.poppers[p].phase.timer)).(mutex := None)
    case Wake(p) => SetPhase(s, p, Leaving(s.poppers[p].phase.timer)).(mutex := Some(OfPopper(p)))
    case Leave(p) => Left(s, p)
    case Fire(t) => SetTimer(s, t, Calling)
    case TimerLock(t) => SetTimer(s, t, Inside).(mutex := Some(OfTimer(t)))
    case TimerBroadcast(t) => SetTimer(Broadcast(s), t, Announced)
    case TimerUnlock(t) => SetTimer(s, t, Over).(mutex := None)
    case Push => s.(items := s.items + 1, pushers := s.pushers + [Calling])
    case PushLock(q) => s.(pushers := s.pushers[q := Inside], mutex := Some(OfPusher(q)))
    case PushBroadcast(q) => PassOver(Broadcast(s)).(pushers := s.pushers[q := Announced])
    case PushUnlock(q) => s.(pushers := s.pushers[q := Over], mutex := None)
  }

  // -------------------------------------------------------------- the invariant

  predicate Owns(popper: Popper) {
    popper.phase.Holding? || popper.phase.Armed? || popper.phase.Leaving?
  }

  predicate HeraldOwns(h: Herald) {
    h.Inside? || h.Announced?
  }

  /** The mutex has the owner it says it has, and no other goroutine is in a section it protects. */
  ghost predicate MutexHolds(s: State) {
    && (forall p :: 0 <= p < |s.poppers| ==> (Owns(s.poppers[p]) <==> s.mutex == Some(OfPopper(p))))
    && (forall t :: 0 <= t < |s.timers| ==> (HeraldOwns(s.timers[t].herald) <==> s.mutex == Some(OfTimer(t))))
    && (forall q :: 0 <= q < |s.pushers| ==> (HeraldOwns(s.pushers[q]) <==> s.mutex == Some(OfPusher(q))))
    && match s.mutex
       case None => true
       case Some(OfPopper(p)) => p < |s.poppers|
       case Some(OfTimer(t)) => t < |s.timers|
       case Some(OfPusher(q)) => q < |s.pushers|
  }

  /** The timer has still to broadcast. */
  predicate ToCome(h: Herald) {
    h.Pending? || h.Calling? || h.Inside?
  }

  predicate HasTimer(phase: PopperPhase) {
    phase.Armed? || phase.Parked? || phase.Woken? || phase.Leaving?
  }

  /** The popper's timer is its own, set for its deadline, and while the popper waits still to broadcast. */
  predicate TimerFits(s: State, p: nat)
    requires p < |s.poppers|
  {
    var popper := s.poppers[p];
    && (HasTimer(popper.phase) && popper.phase.timer.Some? ==>
         && var t := popper.phase.timer.value;
         && t < |s.timers|
         && s.timers[t].popper == p
         && popper.deadline == Some(s.timers[t].due)
         && (popper.phase.Armed? || popper.phase.Parked? ==> ToCome(s.timers[t].herald)))
    && (popper.phase.Armed? || popper.phase.Parked? ==> (popper.phase.timer.None? <==> popper.deadline.None?))
  }

  ghost predicate TimersFit(s: State) {
    forall p :: 0 <= p < |s.poppers| ==> TimerFits(s, p)
  }

  predicate Announcing(h: Herald) {
    h.Calling? || h.Inside?
  }

  ghost predicate PushToCome(s: State) {
    exists q :: 0 <= q < |s.pushers| && Announcing(s.pushers[q])
  }

  predicate Waiting(phase: PopperPhase) {
    phase.Wanting? || phase.Holding? || phase.Armed? || phase.Parked?
  }

  /** Something in the list while a popper waits: a broadcast is still to come, or one passed it over. */
  ghost predicate NewsFits(s: State) {
    s.items > 0 && !PushToCome(s) ==>
      forall p :: 0 <= p < |s.poppers| && Waiting(s.poppers[p].phase) ==> s.poppers[p].missed
  }

  ghost predicate Inv(s: State) {
    MutexHolds(s) && TimersFit(s) && NewsFits(s)
  }

  // -------------------------------------------------- every step keeps the invariant

  lemma PopperStepKeepsMutex(s: State, a: Step)
    requires MutexHolds(s) && Enabled(s, a)
    requires a.Arrive? || a.Tick? || a.Scan? || a.Lock? || a.Arm? || a.Park? || a.Wake? || a.Leave?
    ensures MutexHolds(Next(s, a))
  {
  }

  lemma HeraldStepKeepsMutex(s: State, a: Step)
    requires MutexHolds(s) && Enabled(s, a)
    requires !(a.Arrive? || a.Tick? || a.Scan? || a.Lock? || a.Arm? || a.Park? || a.Wake? || a.Leave?)
    ensures MutexHolds(Next(s, a))
  {
  }

  lemma PopperStepKeepsTimers(s: State, a: Step)
    requires MutexHolds(s) && TimersFit(s) && Enabled(s, a)
    requires a.Arrive? || a.Tick? || a.Scan? || a.Lock? || a.Arm? || a.Park? || a.Wake? || a.Leave?
    ensures TimersFit(Next(s, a))
  {
    forall p | 0 <= p < |Next(s, a).poppers|
      ensures TimerFits(Next(s, a), p)
    {
      assert p < |s.poppers| ==> TimerFits(s, p);
      if a.Leave? {
        assert TimerFits(s, a.p);
      }
    }
  }

  lemma HeraldStepKeepsTimers(s: State, a: Step)
    requires MutexHolds(s) && TimersFit(s) && Enabled(s, a)
    requires !(a.Arrive? || a.Tick? || a.Scan? || a.Lock? || a.Arm? || a.Park? || a.Wake? || a.Leave?)
    ensures TimersFit(Next(s, a))
  {
    forall p | 0 <= p < |Next(s, a).poppers|
      ensures TimerFits(Next(s, a), p)
    {
      assert TimerFits(s, p);
    }
  }

  lemma SamePushes(s: State, s': State)
    requires s.pushers == s'.pushers
    ensures PushToCome(s) == PushToCome(s')
  {
  }

  lemma PopperStepKeepsNews(s: State, a: Step)
    requires MutexHolds(s) && NewsFits(s) && Enabled(s, a)
    requires a.Arrive? || a.Tick? || a.Scan? || a.Lock? || a.Arm? || a.Park? || a.Wake? || a.Leave?
    ensures NewsFits(Next(s, a))
  {
    SamePushes(s, Next(s, a));
  }

  lemma HeraldStepKeepsNews(s: State, a: Step)
    requires MutexHolds(s) && NewsFits(s) && Enabled(s, a)
    requires !(a.Arrive? || a.Tick? || a.Scan? || a.Lock? || a.Arm? || a.Park? || a.Wake? || a.Leave?)
    ensures NewsFits(Next(s, a))
  {
    var s' := Next(s, a);
    match a {
      case Push => assert Announcing(s'.pushers[|s.pushers|]);
      case PushLock(q) => assert Announcing(s'.pushers[q]);
      case PushBroadcast(q) =>
      case PushUnlock(q) => StillToCome(s, s', q);
      case _ => SamePushes(s, s');
    }
  }

  lemma StillToCome(s: State, s': State, q: nat)
    requires q < |s.pushers| && !Announcing(s.pushers[q]) && s'.pushers == s.pushers[q := Over]
    ensures PushToCome(s) ==> PushToCome(s')
  {
    if PushToCome(s) {
      var k :| 0 <= k < |s.pushers| && Announcing(s.pushers[k]);
      assert Announcing(s'.pushers[k]);
    }
  }

  lemma StepKeepsInv(s: State, a: Step)
    requires Inv(s) && Enabled(s, a)
    ensures Inv(Next(s, a))
  {
    if a.Arrive? || a.Tick? || a.Scan? || a.Lock? || a.Arm? || a.Park? || a.Wake? || a.Leave? {
      PopperStepKeepsMutex(s, a);
      PopperStepKeepsTimers(s, a);
      PopperStepKeepsNews(s, a);
    } else {
      HeraldStepKeepsMutex(s, a);
      HeraldStepKeepsTimers(s, a);
      HeraldStepKeepsNews(s, a);
    }
  }

  // ----------------------------------------------------------------------- runs

  /** The state after some steps, if each was enabled in its turn. */
  function After(s: State, steps: seq<Step>): Option<State>
    decreases steps
  {
    if steps == [] then Some(s)
    else if Enabled(s, steps[0]) then After(Next(s, steps[0]), steps[1..])
    else None
  }

  lemma {:induction false} RunsKeepInv(s: State, steps: seq<Step>)
    requires Inv(s) && After(s, steps).Some?
    ensures Inv(After(s, steps).value)
    decreases steps
  {
    if steps != [] {
      StepKeepsInv(s, steps[0]);
      RunsKeepInv(Next(s, steps[0]), steps[1..]);
    }
  }

  ghost predicate Reachable(s: State) {
    exists steps :: After(START, steps) == Some(s)
  }

  lemma ReachableInv(s: State)
    requires Reachable(s)
    ensures Inv(s)
  {
    var steps :| After(START, steps) == Some(s);
    RunsKeepInv(START, steps);
  }

  predicate ParkedAt(s: State, p: nat) {
    p < |s.poppers| && s.poppers[p].phase.Parked?
  }

  /**
   In every interleaving, a popper parked with a deadline has a timer of its own, set for that deadline, whose
   broadcast is still to come: the callback needs the mutex, which was held from arming to parking.
   */
  lemma ParkedHasTimer(s: State, p: nat)
    requires Reachable(s) && ParkedAt(s, p) && s.poppers[p].deadline.Some?
    ensures s.poppers[p].phase.timer.Some?
    ensures var t := s.poppers[p].phase.timer.value;
            t < |s.timers| && s.timers[t].due == s.poppers[p].deadline.value && ToCome(s.timers[t].herald)
  {
    ReachableInv(s);
    assert TimerFits(s, p);
  }

  /** Every broadcast, a pusher's or a timer's, releases all poppers already parked. */
  lemma BroadcastReleasesAll(s: State, a: Step, p: nat)
    requires Enabled(s, a) && (a.PushBroadcast? || a.TimerBroadcast?) && ParkedAt(s, p)
    ensures Next(s, a).poppers[p].phase == Woken(s.poppers[p].phase.timer)
    ensures forall k :: !ParkedAt(Next(s, a), k)
  {
  }

  /** Nothing but a broadcast releases a parked popper. */
  lemma OnlyBroadcastReleases(s: State, a: Step, p: nat)
    requires Enabled(s, a) && ParkedAt(s, p) && !ParkedAt(Next(s, a), p)
    ensures a.PushBroadcast? || a.TimerBroadcast?
  {
  }

  // ------------------------------------------------------------- never stranded

  /** Steps that bring no new push and no new popper. */
  predicate Unaided(steps: seq<Step>) {
    forall i :: 0 <= i < |steps| ==> !steps[i].Push? && !steps[i].Arrive?
  }

  /** The popper is where it was, or a broadcast has woken it. */
  predicate WokenOrSame(s: State, s': State, p: nat) {
    && p < |s.poppers| && p < |s'.poppers|
    && (s'.poppers[p].phase.Woken? || s'.poppers[p] == s.poppers[p])
  }

  /** Whoever holds the mutex gives it up within two steps of its own. */
  lemma MutexIsGivenUp(s: State, p: nat) returns (steps: seq<Step>, s': State)
    requires Inv(s) && ParkedAt(s, p)
    ensures |steps| <= 2 && Unaided(steps) && After(s, steps) == Some(s') && WokenOrSame(s, s', p)
    ensures s'.mutex.None? || s'.poppers[p].phase.Woken?
  {
    steps, s' := [], s;
    match s.mutex {
      case None =>
      case Some(OfPopper(h)) =>
        assert Owns(s.poppers[h]);
        steps, s' := HolderLeaves(s, h, p);
      case Some(OfTimer(t)) =>
        assert HeraldOwns(s.timers[t].herald);
        steps := [if s.timers[t].herald.Inside? then TimerBroadcast(t) else TimerUnlock(t)];
        s' := Next(s, steps[0]);
        OneStep(s, steps[0]);
      case Some(OfPusher(q)) =>
        assert HeraldOwns(s.pushers[q]);
        steps := [if s.pushers[q].Inside? then PushBroadcast(q) else PushUnlock(q)];
        s' := Next(s, steps[0]);
        OneStep(s, steps[0]);
    }
  }

  lemma OneStep(s: State, a: Step)
    requires Enabled(s, a)
    ensures After(s, [a]) == Some(Next(s, a))
  {
    assert After(Next(s, a), [a][1..]) == Some(Next(s, a));
  }

  lemma {:induction false} Chain(s: State, first: seq<Step>, mid: State, more: seq<Step>)
    requires After(s, first) == Some(mid)
    ensures After(s, first + more) == After(mid, more)
    decreases first
  {
    if first == [] {
      assert first + more == more;
    } else {
      assert (first + more)[1..] == first[1..] + more;
      Chain(Next(s, first[0]), first[1..], mid, more);
    }
  }

  lemma HolderLeaves(s: State, h: nat, p: nat) returns (steps: seq<Step>, s': State)
    requires Inv(s) && ParkedAt(s, p) && h < |s.poppers| && Owns(s.poppers[h])
    ensures |steps| <= 2 && Unaided(steps) && After(s, steps) == Some(s') && WokenOrSame(s, s', p) && s'.mutex.None?
  {
    var mid, first := s, [];
    if s.poppers[h].phase.Holding? {
      first, mid := [Arm(h)], Next(s, Arm(h));
      OneStep(s, Arm(h));
    }
    var last := if mid.poppers[h].phase.Armed? then Park(h) else Leave(h);
    steps, s' := first + [last], Next(mid, last);
    Chain(s, first, mid, [last]);
    OneStep(mid, last);
  }

  /** With the mutex free, the popper's own timer needs at most the deadline to come and three steps. */
  lemma TimerReleases(s: State, p: nat) returns (steps: seq<Step>, s': State)
    requires Inv(s) && ParkedAt(s, p) && s.poppers[p].deadline.Some? && s.mutex.None?
    ensures |steps| <= 4 && Unaided(steps) && After(s, steps) == Some(s')
    ensures p < |s'.poppers| && s'.poppers[p].phase.Woken?
  {
    assert TimerFits(s, p);
    var t := s.poppers[p].phase.timer.value;
    var mid, first := s, [];
    if s.timers[t].herald.Pending? {
      var due := s.timers[t].due;
      var tick := Tick(if s.now < due then due else s.now);
      mid, first := Next(Next(s, tick), Fire(t)), [tick] + [Fire(t)];
      OneStep(s, tick);
      OneStep(Next(s, tick), Fire(t));
      Chain(s, [tick], Next(s, tick), [Fire(t)]);
    }
    var inside := Next(mid, TimerLock(t));
    s' := Next(inside, TimerBroadcast(t));
    steps := first + ([TimerLock(t)] + [TimerBroadcast(t)]);
    OneStep(mid, TimerLock(t));
    OneStep(inside, TimerBroadcast(t));
    Chain(mid, [TimerLock(t)], inside, [TimerBroadcast(t)]);
    Chain(s, first, mid, [TimerLock(t)] + [TimerBroadcast(t)]);
  }

  /**
   A popper parked with a deadline is never stranded: from every reachable state, without any push and without
   any step of the popper's own, at most six steps of the others and of the clock wake it.
   */
  lemma NeverStranded(s: State, p: nat) returns (steps: seq<Step>, s': State)
    requires Reachable(s) && ParkedAt(s, p) && s.poppers[p].deadline.Some?
    ensures |steps| <= 6 && Unaided(steps) && After(s, steps) == Some(s')
    ensures p < |s'.poppers| && s'.poppers[p].phase.Woken?
  {
    ReachableInv(s);
    var free;
    steps, free := MutexIsGivenUp(s, p);
    s' := free;
    if !free.poppers[p].phase.Woken? {
      RunsKeepInv(s, steps);
      var more;
      more, s' := TimerReleases(free, p);
      Chain(s, steps, free, more);
      steps := steps + more;
    }
  }

  // -------------------------------------------------------------- the lost push

  /**
   When a popper waits although there is something in the list and no push has yet to broadcast, it is because
   a push broadcast between this popper's scan and its taking the mutex.
   */
  lemma WaitsOnlyIfMissed(s: State, p: nat)
    requires Reachable(s) && p < |s.poppers| && Waiting(s.poppers[p].phase)
    requires s.items > 0 && !PushToCome(s)
    ensures s.poppers[p].missed
  {
    ReachableInv(s);
  }

  /** The only popper is parked without a timer, and no pusher is about to broadcast. */
  ghost predicate Stuck(s: State) {
    && |s.poppers| == 1 && s.poppers[0].phase == Parked(None)
    && s.timers == [] && s.mutex.None?
    && forall q :: 0 <= q < |s.pushers| ==> s.pushers[q] == Over
  }

  lemma StuckStep(s: State, a: Step)
    requires Stuck(s) && Enabled(s, a) && !a.Push? && !a.Arrive?
    ensures Stuck(Next(s, a)) && Next(s, a).items == s.items
  {
  }

  /** Until someone pushes again or another popper comes, a stuck popper stays parked beside its item. */
  lemma {:induction false} StuckForever(s: State, steps: seq<Step>)
    requires Stuck(s) && After(s, steps).Some? && Unaided(steps)
    ensures Stuck(After(s, steps).value) && After(s, steps).value.items == s.items
    decreases steps
  {
    if steps != [] {
      StuckStep(s, steps[0]);
      StuckForever(Next(s, steps[0]), steps[1..]);
    }
  }

  predicate SameState(s: State, t: State) {
    && s.items == t.items && s.now == t.now && s.mutex == t.mutex
    && s.poppers == t.poppers && s.timers == t.timers && s.pushers == t.pushers
  }

  lemma ReachNext(s: State, a: Step, s': State)
    requires Reachable(s) && Enabled(s, a) && SameState(Next(s, a), s')
    ensures Reachable(s')
  {
    var steps :| After(START, steps) == Some(s);
    Chain(START, steps, s, [a]);
    OneStep(s, a);
  }

  lemma ScannedInVain() returns (s: State)
    ensures Reachable(s)
    ensures s == State(0, 0, None, [Popper(Wanting, None, false)], [], [])
  {
    assert After(START, []) == Some(START);
    var scanning := State(0, 0, None, [Popper(Scanning, None, false)], [], []);
    ReachNext(START, Arrive(None), scanning);
    s := State(0, 0, None, [Popper(Wanting, None, false)], [], []);
    ReachNext(scanning, Scan(0), s);
  }

  lemma PusherInside(pushed: State) returns (s: State)
    requires Reachable(pushed)
    requires pushed == State(1, 0, None, [Popper(Wanting, None, false)], [], [Calling])
    ensures Reachable(s)
    ensures s == State(1, 0, Some(OfPusher(0)), [Popper(Wanting, None, false)], [], [Inside])
  {
    s := State(1, 0, Some(OfPusher(0)), [Popper(Wanting, None, false)], [], [Inside]);
    ReachNext(pushed, PushLock(0), s);
  }

  /** A popper that has scanned in vain, and a push that has put an item in and signalled it to nobody. */
  lemma PassedOver() returns (s: State)
    ensures Reachable(s)
    ensures s == State(1, 0, None, [Popper(Wanting, None, true)], [], [Over])
  {
    var wanting := ScannedInVain();
    var pushed := State(1, 0, None, [Popper(Wanting, None, false)], [], [Calling]);
    ReachNext(wanting, Push, pushed);
    var inside := PusherInside(pushed);
    var passed := State(1, 0, Some(OfPusher(0)), [Popper(Wanting, None, true)], [], [Announced]);
    ReachNext(inside, PushBroadcast(0), passed);
    s := State(1, 0, None, [Popper(Wanting, None, true)], [], [Over]);
    ReachNext(passed, PushUnlock(0), s);
  }

  /** A push can be lost: it comes between a popper's scan and its lock, and the popper then parks for good. */
  lemma PushCanBeLost() returns (s: State)
    ensures Reachable(s) && Stuck(s) && s.items == 1
  {
    s := PassedOver();
    var held := State(1, 0, Some(OfPopper(0)), [Popper(Holding, None, true)], [], [Over]);
    ReachNext(s, Lock(0), held);
    var armed := State(1, 0, Some(OfPopper(0)), [Popper(Armed(None), None, true)], [], [Over]);
    ReachNext(held, Arm(0), armed);
    s := State(1, 0, None, [Popper(Parked(None), None, true)], [], [Over]);
    ReachNext(armed, Park(0), s);
  }
}
