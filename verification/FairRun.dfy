/** There are fair runs: one in which a popper with a deadline parks, is woken at its deadline, and answers. */
module FairRun {
  import opened Wrappers
  import opened BlockingWait
  import opened FairWait

  function Alone(phase: PopperPhase, d: int): seq<Popper> {
    [Popper(phase, Some(d), false)]
  }

  /** The popper's timer when it is at some point of its life. */
  function Only(h: Herald, d: int): seq<Timer> {
    [Timer(h, d, 0)]
  }

  /** The state after `n` steps. From the thirteenth on only the clock moves. */
  function Place(d: int, n: nat): State {
    match n
    case 0 => START
    case 1 => State(0, 0, None, Alone(Scanning, d), [], [])
    case 2 => State(0, 0, None, Alone(Wanting, d), [], [])
    case 3 => State(0, 0, Some(OfPopper(0)), Alone(Holding, d), [], [])
    case 4 => State(0, 0, Some(OfPopper(0)), Alone(Armed(Some(0)), d), Only(Pending, d), [])
    case 5 => State(0, 0, None, Alone(Parked(Some(0)), d), Only(Pending, d), [])
    case 6 => State(0, d + 1, None, Alone(Parked(Some(0)), d), Only(Pending, d), [])
    case 7 => State(0, d + 1, None, Alone(Parked(Some(0)), d), Only(Calling, d), [])
    case 8 => State(0, d + 1, Some(OfTimer(0)), Alone(Parked(Some(0)), d), Only(Inside, d), [])
    case 9 => State(0, d + 1, Some(OfTimer(0)), Alone(Woken(Some(0)), d), Only(Announced, d), [])
    case 10 => State(0, d + 1, None, Alone(Woken(Some(0)), d), Only(Over, d), [])
    case 11 => State(0, d + 1, Some(OfPopper(0)), Alone(Leaving(Some(0)), d), Only(Over, d), [])
    case 12 => State(0, d + 1, None, Alone(Scanning, d), Only(Over, d), [])
    case _ => Settled(d, d + n - 12)
  }

  function Settled(d: int, now: int): State {
    State(0, now, None, Alone(Returned, d), Only(Over, d), [])
  }

  function Taking(d: int, n: nat): Step {
    match n
    case 0 => Arrive(Some(d))
    case 1 => Scan(0)
    case 2 => Lock(0)
    case 3 => Arm(0)
    case 4 => Park(0)
    case 5 => Tick(d + 1)
    case 6 => Fire(0)
    case 7 => TimerLock(0)
    case 8 => TimerBroadcast(0)
    case 9 => TimerUnlock(0)
    case 10 => Wake(0)
    case 11 => Leave(0)
    case 12 => Scan(0)
    case _ => Tick(d + n - 11)
  }

  predicate Leads(d: int, n: nat) {
    Enabled(Place(d, n), Taking(d, n)) && SameState(Next(Place(d, n), Taking(d, n)), Place(d, n + 1))
  }

  lemma ComesToPark(d: int, n: nat)
    requires d > 0 && n < 5
    ensures Leads(d, n)
  {
  }

  lemma IsWoken(d: int, n: nat)
    requires d > 0 && 5 <= n < 10
    ensures Leads(d, n)
  {
  }

  lemma Answers(d: int, n: nat)
    requires d > 0 && n >= 10
    ensures Leads(d, n)
  {
  }

  lemma NothingGoesOn(d: int, n: nat, a: Step)
    requires d > 0 && n >= 13 && Continues(a)
    ensures !Enabled(Place(d, n), a)
  {
  }

  lemma AtLeast(n: nat, m: nat) returns (k: nat)
    ensures k >= n && k >= m
  {
    k := n + m;
  }

  lemma ClockGoesOn(d: int, tr: Trace, x: int)
    requires d > 0 && forall n: nat :: tr(n) == Place(d, n)
    ensures ClockPasses(tr, x)
  {
    var n: nat := if x < 0 then 13 else 13 + x;
    assert x < tr(n).now;
  }

  lemma NobodyIsPassedOver(d: int, tr: Trace, sch: Schedule)
    requires d > 0 && forall n: nat :: tr(n) == Place(d, n)
    ensures forall a: Step, n: nat :: Continues(a) && Lasting(tr, a, n) ==> Taken(sch, a, n)
    ensures forall a: Step, n: nat :: AsksForMutex(a) && Recurring(tr, a, n) ==> Taken(sch, a, n)
  {
    hide Place, Enabled;
    forall a: Step, n: nat | Continues(a)
      ensures !Lasting(tr, a, n) && !Recurring(tr, a, n)
    {
      var late := AtLeast(n, 13);
      NothingGoesOn(d, late, a);
      assert !Enabled(tr(late), a);
      if Recurring(tr, a, n) {
        assert AgainFrom(tr, a, late);
        var k: nat :| late <= k && Enabled(tr(k), a);
        NothingGoesOn(d, k, a);
        assert false;
      }
    }
  }

  /** For every deadline there is a fair run in which a popper parks with it, and answers once it has passed. */
  lemma FairRunExists(d: int) returns (tr: Trace, sch: Schedule)
    requires d > 0
    ensures IsTrace(tr, sch) && Fair(tr, sch)
    ensures |tr(5).poppers| == 1 && tr(5).poppers[0].phase.Parked? && tr(5).poppers[0].deadline == Some(d)
    ensures |tr(13).poppers| == 1 && tr(13).poppers[0].phase.Returned? && tr(13).now == d + 1
  {
    tr, sch := (n: nat) => Place(d, n), (n: nat) => Taking(d, n);
    forall n: nat
      ensures StepAt(tr, sch, n)
    {
      if n < 5 {
        ComesToPark(d, n);
      } else if n < 10 {
        IsWoken(d, n);
      } else {
        Answers(d, n);
      }
      hide Enabled, Next, Place, Taking;
      assert SameState(Next(tr(n), sch(n)), tr(n + 1));
    }
    forall x: int
      ensures ClockPasses(tr, x)
    {
      ClockGoesOn(d, tr, x);
    }
    NobodyIsPassedOver(d, tr, sch);
  }
}
