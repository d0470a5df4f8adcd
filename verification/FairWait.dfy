/**
 Liveness of BLPOP and BRPOP: on every fair run a popper with a deadline answers.

 Fair means that the clock runs on, that a goroutine which can take its next step is not passed over for ever,
 and that one asking for the mutex gets it if it is free again and again.
 */
module FairWait {
  import opened Wrappers
  import opened BlockingWait

  type Trace = nat -> State
  type Schedule = nat -> Step

  ghost predicate StepAt(tr: Trace, sch: Schedule, n: nat) {
    Enabled(tr(n), sch(n)) && tr(n + 1) == Next(tr(n), sch(n))
  }

  /** An infinite run from the start: what the state is and which step is taken at every moment. */
  ghost predicate IsTrace(tr: Trace, sch: Schedule) {
    tr(0) == START && forall n: nat :: StepAt(tr, sch, n)
  }

  ghost predicate ClockPasses(tr: Trace, d: int) {
    exists n: nat :: d < tr(n).now
  }

  ghost predicate ClockRuns(tr: Trace) {
    forall d: int :: ClockPasses(tr, d)
  }

  ghost predicate Taken(sch: Schedule, a: Step, from: nat) {
    exists n: nat :: from <= n && sch(n) == a
  }

  ghost predicate Lasting(tr: Trace, a: Step, from: nat) {
    forall n: nat :: from <= n ==> Enabled(tr(n), a)
  }

  ghost predicate AgainFrom(tr: Trace, a: Step, n: nat) {
    exists k: nat :: n <= k && Enabled(tr(k), a)
  }

  ghost predicate Recurring(tr: Trace, a: Step, from: nat) {
    forall n: nat :: from <= n ==> AgainFrom(tr, a, n)
  }

  /** A step that asks for the mutex. */
  predicate AsksForMutex(a: Step) {
    a.Lock? || a.Wake? || a.TimerLock? || a.PushLock?
  }

  /** A step of a goroutine that has begun: not a new popper, a new push or the clock. */
  predicate Continues(a: Step) {
    !a.Arrive? && !a.Tick? && !a.Push?
  }

  ghost predicate Fair(tr: Trace, sch: Schedule) {
    && ClockRuns(tr)
    && (forall a: Step, n: nat :: Continues(a) && Lasting(tr, a, n) ==> Taken(sch, a, n))
    && (forall a: Step, n: nat :: AsksForMutex(a) && Recurring(tr, a, n) ==> Taken(sch, a, n))
  }

  // ------------------------------------------------------------------ stepping on

  lemma {:induction false} TraceInv(tr: Trace, sch: Schedule, n: nat)
    requires IsTrace(tr, sch)
    ensures Inv(tr(n)) && StepAt(tr, sch, n)
  {
    if n > 0 {
      TraceInv(tr, sch, n - 1);
      assert StepAt(tr, sch, n - 1);
      hide Inv, Enabled, Next;
      StepKeepsInv(tr(n - 1), sch(n - 1));
    }
  }

  /** The first time a step is taken. */
  lemma {:induction false} FirstTaken(sch: Schedule, a: Step, from: nat) returns (n: nat)
    requires Taken(sch, a, from)
    ensures from <= n && sch(n) == a && forall k: nat :: from <= k < n ==> sch(k) != a
  {
    var last: nat :| from <= last && sch(last) == a;
    n := from;
    while sch(n) != a
      invariant from <= n <= last && forall k: nat :: from <= k < n ==> sch(k) != a
      decreases last - n
    {
      n := n + 1;
    }
  }

  // ----------------------------------------------------------- the mutex comes free

  /** The step of whoever holds the mutex. */
  function OwnerStep(s: State): Option<Step> {
    match s.mutex
    case None => None
    case Some(OfPopper(p)) => if p < |s.poppers| then OwnStep(s.poppers[p].phase, p) else None
    case Some(OfTimer(t)) =>
      if t >= |s.timers| then None
      else if s.timers[t].herald.Inside? then Some(TimerBroadcast(t)) else Some(TimerUnlock(t))
    case Some(OfPusher(q)) =>
      if q >= |s.pushers| then None
      else if s.pushers[q].Inside? then Some(PushBroadcast(q)) else Some(PushUnlock(q))
  }

  /** What a popper does next by itself; while parked or after its answer, nothing. */
  function OwnStep(phase: PopperPhase, p: nat): Option<Step> {
    match phase
    case Scanning => Some(Scan(p))
    case Wanting => Some(Lock(p))
    case Holding => Some(Arm(p))
    case Armed(_) => Some(Park(p))
    case Woken(_) => Some(Wake(p))
    case Leaving(_) => Some(Leave(p))
    case _ => None
  }

  /** How many steps the holder of the mutex still has to take. */
  function Hold(s: State): nat {
    match OwnerStep(s)
    case None => 0
    case Some(a) => if a.Arm? || a.TimerBroadcast? || a.PushBroadcast? then 2 else 1
  }

  lemma OwnerCanStep(s: State)
    requires Inv(s) && s.mutex.Some?
    ensures OwnerStep(s).Some? && Enabled(s, OwnerStep(s).value) && Continues(OwnerStep(s).value)
  {
    match s.mutex.value {
      case OfPopper(p) => assert Owns(s.poppers[p]);
      case OfTimer(t) => assert HeraldOwns(s.timers[t].herald);
      case OfPusher(q) => assert HeraldOwns(s.pushers[q]);
    }
  }

  /** Until the owner steps, it stays the owner, at the same step. */
  lemma OwnerStays(s: State, b: Step)
    requires Inv(s) && s.mutex.Some? && Enabled(s, b) && OwnerStep(s) != Some(b)
    ensures Next(s, b).mutex == s.mutex && OwnerStep(Next(s, b)) == OwnerStep(s)
  {
    match s.mutex.value {
      case OfPopper(p) => assert Owns(s.poppers[p]);
      case OfTimer(t) => assert HeraldOwns(s.timers[t].herald);
      case OfPusher(q) => assert HeraldOwns(s.pushers[q]);
    }
  }

  /** Each step of the owner brings it nearer to giving the mutex up. */
  lemma OwnerAdvances(s: State)
    requires Inv(s) && s.mutex.Some? && OwnerStep(s).Some? && Enabled(s, OwnerStep(s).value)
    ensures var s' := Next(s, OwnerStep(s).value); s'.mutex.None? || Hold(s') < Hold(s)
  {
  }

  /** As long as its step is not taken, the owner waits to take it. */
  lemma {:induction false} OwnerWaits(tr: Trace, sch: Schedule, n: nat, m: nat, a: Step)
    requires IsTrace(tr, sch) && n <= m && tr(n).mutex.Some? && OwnerStep(tr(n)) == Some(a)
    requires forall k: nat :: n <= k < m ==> sch(k) != a
    ensures tr(m).mutex.Some? && OwnerStep(tr(m)) == Some(a) && Enabled(tr(m), a)
    decreases m - n
  {
    hide Enabled, Next, Inv, OwnerStep, IsTrace;
    TraceInv(tr, sch, m);
    if n < m {
      OwnerWaits(tr, sch, n, m - 1, a);
      TraceInv(tr, sch, m - 1);
      assert sch(m - 1) != a;
      OwnerStays(tr(m - 1), sch(m - 1));
    }
    OwnerCanStep(tr(m));
  }

  lemma OwnerLasts(tr: Trace, sch: Schedule, n: nat, a: Step)
    requires IsTrace(tr, sch) && tr(n).mutex.Some? && OwnerStep(tr(n)) == Some(a)
    ensures Taken(sch, a, n) || Lasting(tr, a, n)
  {
    hide Enabled, OwnerStep;
    if !Taken(sch, a, n) {
      forall k: nat | n <= k
        ensures Enabled(tr(k), a)
      {
        OwnerWaits(tr, sch, n, k, a);
      }
    }
  }

  lemma OwnerMoves(tr: Trace, sch: Schedule, n: nat) returns (m: nat)
    requires IsTrace(tr, sch) && Fair(tr, sch) && tr(n).mutex.Some?
    ensures n < m && (tr(m).mutex.None? || Hold(tr(m)) < Hold(tr(n)))
  {
    TraceInv(tr, sch, n);
    OwnerCanStep(tr(n));
    hide Enabled, Next, Inv, OwnerStep, Continues;
    var a := OwnerStep(tr(n)).value;
    OwnerLasts(tr, sch, n, a);
    var k := FirstTaken(sch, a, n);
    OwnerWaits(tr, sch, n, k, a);
    TraceInv(tr, sch, k);
    OwnerAdvances(tr(k));
    m := k + 1;
  }

  /** The mutex is free again and again. */
  lemma {:induction false} MutexComesFree(tr: Trace, sch: Schedule, n: nat) returns (m: nat)
    requires IsTrace(tr, sch) && Fair(tr, sch)
    ensures n <= m && tr(m).mutex.None?
    decreases Hold(tr(n))
  {
    hide Fair, IsTrace, OwnerStep;
    m := n;
    if tr(n).mutex.Some? {
      m := OwnerMoves(tr, sch, n);
      if tr(m).mutex.Some? {
        m := MutexComesFree(tr, sch, m);
      }
    }
  }

  // -------------------------------------------------------------- poppers move on

  /** The popper is there, has this deadline, and is in this phase. */
  predicate PopperIs(s: State, p: nat, d: int, phase: PopperPhase) {
    p < |s.poppers| && s.poppers[p].deadline == Some(d) && s.poppers[p].phase == phase
  }

  /** A popper that is not parked stays in its phase until its own step. */
  lemma PhaseStays(s: State, b: Step, p: nat, d: int, phase: PopperPhase)
    requires Enabled(s, b) && PopperIs(s, p, d, phase) && !phase.Parked? && OwnStep(phase, p) != Some(b)
    ensures PopperIs(Next(s, b), p, d, phase)
  {
  }

  lemma OwnStepEnabled(s: State, p: nat, d: int, phase: PopperPhase)
    requires PopperIs(s, p, d, phase) && OwnStep(phase, p).Some?
    ensures Continues(OwnStep(phase, p).value)
    ensures AsksForMutex(OwnStep(phase, p).value) ==> phase.Wanting? || phase.Woken?
    ensures Enabled(s, OwnStep(phase, p).value) <== !AsksForMutex(OwnStep(phase, p).value) || s.mutex.None?
  {
  }

  lemma {:induction false} PopperWaits(tr: Trace, sch: Schedule, n: nat, m: nat, p: nat, d: int, phase: PopperPhase)
    requires IsTrace(tr, sch) && n <= m && PopperIs(tr(n), p, d, phase) && OwnStep(phase, p).Some?
    requires forall k: nat :: n <= k < m ==> sch(k) != OwnStep(phase, p).value
    ensures PopperIs(tr(m), p, d, phase)
    decreases m - n
  {
    hide Enabled, Next, PopperIs, OwnStep;
    if n < m {
      PopperWaits(tr, sch, n, m - 1, p, d, phase);
      assert StepAt(tr, sch, m - 1);
      StepsItself(phase, p);
      PhaseStays(tr(m - 1), sch(m - 1), p, d, phase);
    }
  }

  lemma StepsItself(phase: PopperPhase, p: nat)
    requires OwnStep(phase, p).Some?
    ensures !phase.Parked?
  {
  }

  /** A popper's step stays enabled, or is enabled whenever the mutex comes free, until it is taken. */
  lemma PopperLasts(tr: Trace, sch: Schedule, n: nat, p: nat, d: int, phase: PopperPhase, a: Step)
    requires IsTrace(tr, sch) && Fair(tr, sch) && PopperIs(tr(n), p, d, phase) && OwnStep(phase, p) == Some(a)
    ensures Taken(sch, a, n) || (if AsksForMutex(a) then Recurring(tr, a, n) else Lasting(tr, a, n))
  {
    hide Fair, Enabled, PopperIs, OwnStep, AsksForMutex;
    if !Taken(sch, a, n) {
      if AsksForMutex(a) {
        forall k: nat | n <= k
          ensures AgainFrom(tr, a, k)
        {
          var free := MutexComesFree(tr, sch, k);
          PopperWaits(tr, sch, n, free, p, d, phase);
          OwnStepEnabled(tr(free), p, d, phase);
        }
      } else {
        forall k: nat | n <= k
          ensures Enabled(tr(k), a)
        {
          PopperWaits(tr, sch, n, k, p, d, phase);
          OwnStepEnabled(tr(k), p, d, phase);
        }
      }
    }
  }

  /** A popper that can go on by itself does. */
  lemma PopperMoves(tr: Trace, sch: Schedule, n: nat, p: nat, d: int, phase: PopperPhase) returns (m: nat)
    requires IsTrace(tr, sch) && Fair(tr, sch) && PopperIs(tr(n), p, d, phase) && OwnStep(phase, p).Some?
    ensures n <= m && PopperIs(tr(m), p, d, phase)
    ensures sch(m) == OwnStep(phase, p).value && StepAt(tr, sch, m)
  {
    var a := OwnStep(phase, p).value;
    OwnStepEnabled(tr(n), p, d, phase);
    hide Enabled, Next, PopperIs, OwnStep, Continues, AsksForMutex;
    PopperLasts(tr, sch, n, p, d, phase, a);
    m := FirstTaken(sch, a, n);
    PopperWaits(tr, sch, n, m, p, d, phase);
    assert StepAt(tr, sch, m);
  }

  // ------------------------------------------------------------ timers go off

  predicate TimerAt(s: State, t: nat, due: int, h: Herald) {
    TimerIs(s, t, h) && s.timers[t].due == due
  }

  /** A popper parked with a deadline, and its timer still to broadcast. */
  predicate ParkedWith(s: State, p: nat, t: nat, d: int, h: Herald) {
    PopperIs(s, p, d, Parked(Some(t))) && TimerAt(s, t, d, h) && ToCome(h)
  }

  lemma ParkedHasIts(s: State, p: nat, d: int, phase: PopperPhase) returns (t: nat)
    requires Inv(s) && PopperIs(s, p, d, phase) && phase.Parked?
    ensures phase == Parked(Some(t)) && t < |s.timers| && ParkedWith(s, p, t, d, s.timers[t].herald)
  {
    assert TimerFits(s, p);
    t := phase.timer.value;
  }

  predicate Broadcasts(a: Step) {
    a.TimerBroadcast? || a.PushBroadcast?
  }

  /** While nothing is broadcast, the popper stays parked and its timer where it is, but for the timer's own steps. */
  lemma ParkedStays(s: State, b: Step, p: nat, t: nat, d: int, h: Herald)
    requires Inv(s) && Enabled(s, b) && ParkedWith(s, p, t, d, h) && !Broadcasts(b)
    ensures b != Fire(t) && b != TimerLock(t) ==> ParkedWith(Next(s, b), p, t, d, h)
    ensures b == Fire(t) ==> h.Pending? && ParkedWith(Next(s, b), p, t, d, Calling)
    ensures b == TimerLock(t) ==> h.Calling? && ParkedWith(Next(s, b), p, t, d, Inside)
  {
    assert TimerFits(s, p);
    if b.Leave? {
      assert TimerFits(s, b.p);
    }
  }

  lemma BroadcastWakes(s: State, b: Step, p: nat, d: int, phase: PopperPhase)
    requires Enabled(s, b) && Broadcasts(b) && PopperIs(s, p, d, phase) && phase.Parked?
    ensures PopperIs(Next(s, b), p, d, Woken(phase.timer))
  {
    BroadcastReleasesAll(s, b, p);
  }

  /** The timer's next step. */
  function TimerStep(t: nat, h: Herald): Step {
    if h.Pending? then Fire(t) else if h.Calling? then TimerLock(t) else TimerBroadcast(t)
  }

  ghost predicate Quiet(sch: Schedule, from: nat, to: nat) {
    forall k: nat :: from <= k < to ==> !Broadcasts(sch(k))
  }

  lemma {:induction false} ParkedWaits(tr: Trace, sch: Schedule, n: nat, m: nat, p: nat, t: nat, d: int, h: Herald)
    requires IsTrace(tr, sch) && n <= m && ParkedWith(tr(n), p, t, d, h) && Quiet(sch, n, m)
    requires forall k: nat :: n <= k < m ==> sch(k) != TimerStep(t, h)
    ensures ParkedWith(tr(m), p, t, d, h)
    decreases m - n
  {
    if n < m {
      hide Enabled, Next, ParkedWith, Inv;
      ParkedWaits(tr, sch, n, m - 1, p, t, d, h);
      TraceInv(tr, sch, m - 1);
      assert !Broadcasts(sch(m - 1));
      ParkedStays(tr(m - 1), sch(m - 1), p, t, d, h);
    }
  }

  lemma TimerCanStep(s: State, p: nat, t: nat, d: int, h: Herald)
    requires ParkedWith(s, p, t, d, h)
    ensures Continues(TimerStep(t, h)) && (AsksForMutex(TimerStep(t, h)) <==> h.Calling?)
    ensures h.Inside? ==> Enabled(s, TimerStep(t, h))
    ensures h.Calling? && s.mutex.None? ==> Enabled(s, TimerStep(t, h))
    ensures h.Pending? && d <= s.now ==> Enabled(s, TimerStep(t, h))
  {
  }

  lemma {:induction false} ClockKeeps(tr: Trace, sch: Schedule, n: nat, m: nat)
    requires IsTrace(tr, sch) && n <= m
    ensures tr(n).now <= tr(m).now
    decreases m - n
  {
    if n < m {
      ClockKeeps(tr, sch, n, m - 1);
      assert StepAt(tr, sch, m - 1);
      hide Inv;
      NowGrows(tr(m - 1), sch(m - 1));
    }
  }

  lemma NowGrows(s: State, a: Step)
    requires Enabled(s, a)
    ensures s.now <= Next(s, a).now
  {
  }

  ghost predicate NeverBroadcasts(sch: Schedule, from: nat) {
    forall k: nat :: from <= k ==> !Broadcasts(sch(k))
  }

  /** Without a broadcast, and past the deadline, the timer's step stays due until it is taken. */
  lemma TimerLasts(tr: Trace, sch: Schedule, n: nat, p: nat, t: nat, d: int, h: Herald)
    requires IsTrace(tr, sch) && Fair(tr, sch) && ParkedWith(tr(n), p, t, d, h) && d <= tr(n).now
    requires NeverBroadcasts(sch, n)
    ensures var a := TimerStep(t, h);
            Taken(sch, a, n) || (if AsksForMutex(a) then Recurring(tr, a, n) else Lasting(tr, a, n))
  {
    var a := TimerStep(t, h);
    TimerCanStep(tr(n), p, t, d, h);
    hide Fair, Enabled, ParkedWith, TimerStep, AsksForMutex, IsTrace;
    if !Taken(sch, a, n) {
      if AsksForMutex(a) {
        forall k: nat | n <= k
          ensures AgainFrom(tr, a, k)
        {
          var free := MutexComesFree(tr, sch, k);
          ParkedWaits(tr, sch, n, free, p, t, d, h);
          TimerCanStep(tr(free), p, t, d, h);
        }
      } else {
        forall k: nat | n <= k
          ensures Enabled(tr(k), a)
        {
          ParkedWaits(tr, sch, n, k, p, t, d, h);
          ClockKeeps(tr, sch, n, k);
          TimerCanStep(tr(k), p, t, d, h);
        }
      }
    }
  }

  function TimerRank(h: Herald): nat {
    if h.Pending? then 2 else if h.Calling? then 1 else 0
  }

  /** So there is a broadcast: the timer's own, if no other comes before it. */
  lemma {:induction false} TimerGoesOff(tr: Trace, sch: Schedule, n: nat, p: nat, t: nat, d: int, h: Herald)
    requires IsTrace(tr, sch) && Fair(tr, sch) && ParkedWith(tr(n), p, t, d, h) && d <= tr(n).now
    ensures !NeverBroadcasts(sch, n)
    decreases TimerRank(h)
  {
    if NeverBroadcasts(sch, n) {
      var a := TimerStep(t, h);
      TimerLasts(tr, sch, n, p, t, d, h);
      TimerCanStep(tr(n), p, t, d, h);
      var k := FirstTaken(sch, a, n);
      ParkedWaits(tr, sch, n, k, p, t, d, h);
      TraceInv(tr, sch, k);
      ClockKeeps(tr, sch, n, k + 1);
      if h.Inside? {
        assert false;
      } else {
        ParkedStays(tr(k), sch(k), p, t, d, h);
        TimerGoesOff(tr, sch, k + 1, p, t, d, if h.Pending? then Calling else Inside);
        assert false;
      }
    }
  }

  lemma ParkedStep(s: State, b: Step, p: nat, d: int, phase: PopperPhase)
    requires Enabled(s, b) && !Broadcasts(b) && PopperIs(s, p, d, phase) && phase.Parked?
    ensures PopperIs(Next(s, b), p, d, phase)
  {
    if !ParkedAt(Next(s, b), p) {
      OnlyBroadcastReleases(s, b, p);
    }
  }

  lemma {:induction false} ParkedUntil(tr: Trace, sch: Schedule, n: nat, m: nat, p: nat, d: int, phase: PopperPhase)
    requires IsTrace(tr, sch) && n <= m && PopperIs(tr(n), p, d, phase) && phase.Parked? && Quiet(sch, n, m)
    ensures PopperIs(tr(m), p, d, phase)
    decreases m - n
  {
    hide Enabled, Next, PopperIs, Broadcasts;
    if n < m {
      ParkedUntil(tr, sch, n, m - 1, p, d, phase);
      assert StepAt(tr, sch, m - 1);
      assert !Broadcasts(sch(m - 1));
      ParkedStep(tr(m - 1), sch(m - 1), p, d, phase);
    }
  }

  lemma FirstBroadcast(sch: Schedule, n: nat) returns (m: nat)
    requires !NeverBroadcasts(sch, n)
    ensures n <= m && Broadcasts(sch(m)) && Quiet(sch, n, m)
  {
    var last: nat :| n <= last && Broadcasts(sch(last));
    m := n;
    while !Broadcasts(sch(m))
      invariant n <= m <= last && Quiet(sch, n, m)
      decreases last - m
    {
      m := m + 1;
    }
  }

  /** Past its deadline, a parked popper is woken. */
  lemma ParkedIsWoken(tr: Trace, sch: Schedule, n: nat, p: nat, d: int, phase: PopperPhase) returns (m: nat)
    requires IsTrace(tr, sch) && Fair(tr, sch) && PopperIs(tr(n), p, d, phase) && phase.Parked? && d <= tr(n).now
    ensures n <= m && PopperIs(tr(m), p, d, Woken(phase.timer))
  {
    TraceInv(tr, sch, n);
    hide Enabled, Next, PopperIs, Broadcasts, Inv, Fair, ParkedWith;
    var t := ParkedHasIts(tr(n), p, d, phase);
    TimerGoesOff(tr, sch, n, p, t, d, tr(n).timers[t].herald);
    var k := FirstBroadcast(sch, n);
    ParkedUntil(tr, sch, n, k, p, d, phase);
    assert StepAt(tr, sch, k);
    BroadcastWakes(tr(k), sch(k), p, d, phase);
    m := k + 1;
  }

  /** How far a popper past its deadline is from its answer. */
  function Distance(phase: PopperPhase): nat {
    match phase
    case Wanting => 7
    case Holding => 6
    case Armed(_) => 5
    case Parked(_) => 4
    case Woken(_) => 3
    case Leaving(_) => 2
    case Scanning => 1
    case Returned => 0
  }

  /** Past its deadline every step of a popper brings it nearer: it waits no second time. */
  lemma LateStep(s: State, p: nat, d: int, phase: PopperPhase) returns (next: PopperPhase)
    requires PopperIs(s, p, d, phase) && d < s.now && OwnStep(phase, p).Some? && Enabled(s, OwnStep(phase, p).value)
    ensures PopperIs(Next(s, OwnStep(phase, p).value), p, d, next) && Distance(next) < Distance(phase)
  {
    next := Next(s, OwnStep(phase, p).value).poppers[p].phase;
  }

  lemma NoOwnStep(phase: PopperPhase, p: nat)
    ensures OwnStep(phase, p).None? <==> phase.Parked? || phase.Returned?
  {
  }

  lemma {:induction false} LateAnswers(tr: Trace, sch: Schedule, n: nat, p: nat, d: int, phase: PopperPhase)
    returns (m: nat)
    requires IsTrace(tr, sch) && Fair(tr, sch) && PopperIs(tr(n), p, d, phase) && d < tr(n).now
    ensures n <= m && PopperIs(tr(m), p, d, Returned)
    decreases Distance(phase)
  {
    NoOwnStep(phase, p);
    hide PopperIs, Fair, Enabled, Next, OwnStep;
    if phase.Returned? {
      m := n;
    } else if phase.Parked? {
      var k := ParkedIsWoken(tr, sch, n, p, d, phase);
      ClockKeeps(tr, sch, n, k);
      m := LateAnswers(tr, sch, k, p, d, Woken(phase.timer));
    } else {
      var k := PopperMoves(tr, sch, n, p, d, phase);
      ClockKeeps(tr, sch, n, k);
      ClockKeeps(tr, sch, n, k + 1);
      var next := LateStep(tr(k), p, d, phase);
      m := LateAnswers(tr, sch, k + 1, p, d, next);
    }
  }

  lemma PopperKept(s: State, b: Step, p: nat, d: int)
    requires Enabled(s, b) && p < |s.poppers| && s.poppers[p].deadline == Some(d)
    ensures p < |Next(s, b).poppers| && Next(s, b).poppers[p].deadline == Some(d)
  {
  }

  lemma {:induction false} PopperStays(tr: Trace, sch: Schedule, n: nat, m: nat, p: nat, d: int)
    requires IsTrace(tr, sch) && n <= m && p < |tr(n).poppers| && tr(n).poppers[p].deadline == Some(d)
    ensures p < |tr(m).poppers| && tr(m).poppers[p].deadline == Some(d)
    decreases m - n
  {
    if n < m {
      PopperStays(tr, sch, n, m - 1, p, d);
      assert StepAt(tr, sch, m - 1);
      hide Enabled, Next;
      PopperKept(tr(m - 1), sch(m - 1), p, d);
    }
  }

  /**
   On every fair run, every BLPOP or BRPOP with a deadline answers, wherever it is in its wait and whatever
   poppers, pushes and timers there are besides.
   */
  lemma DeadlineAnswers(tr: Trace, sch: Schedule, n: nat, p: nat) returns (m: nat)
    requires IsTrace(tr, sch) && Fair(tr, sch) && p < |tr(n).poppers| && tr(n).poppers[p].deadline.Some?
    ensures n <= m && p < |tr(m).poppers| && tr(m).poppers[p].phase.Returned?
  {
    var d := tr(n).poppers[p].deadline.value;
    assert ClockPasses(tr, d);
    var k: nat :| d < tr(k).now;
    var late := if n < k then k else n;
    ClockKeeps(tr, sch, k, late);
    PopperStays(tr, sch, n, late, p, d);
    m := LateAnswers(tr, sch, late, p, d, tr(late).poppers[p].phase);
  }
}
