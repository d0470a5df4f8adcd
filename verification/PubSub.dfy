/**
 Publish and subscribe: the broker's registry of bounded queues, the connections that own them, and the
 machine of all their runs. A subscriber's goroutine drains its queue on its own time.
 */
module PubSub {
  import opened Wrappers
  import opened GoText
  import opened Containers

  datatype Message = Message(channel: Bytes, payload: Bytes)

  /** The capacity of a subscriber's queue; a message that finds it full is dropped. */
  const CAPACITY := 16

  // ------------------------------------------------------------- the registry

  /** `subs` of the broker after a queue has been added; `Q` is the identity of queues. */
  function Registered<Q>(subs: map<Bytes, set<Q>>, channel: Bytes, q: Q): map<Bytes, set<Q>> {
    subs[channel := (if channel in subs then subs[channel] else {}) + {q}]
  }

  /** `subs` after a queue has been taken out; a channel without queues goes too. */
  function Unregistered<Q>(subs: map<Bytes, set<Q>>, channel: Bytes, q: Q): map<Bytes, set<Q>> {
    if channel !in subs then subs
    else if subs[channel] - {q} == {} then subs - {channel}
    else subs[channel := subs[channel] - {q}]
  }

  ghost predicate IsRegistered<Q>(subs: map<Bytes, set<Q>>, channel: Bytes, q: Q) {
    channel in subs && q in subs[channel]
  }

  lemma RegisteredIs<Q>(subs: map<Bytes, set<Q>>, channel: Bytes, q: Q, channel': Bytes, q': Q)
    ensures IsRegistered(Registered(subs, channel, q), channel', q') <==>
            IsRegistered(subs, channel', q') || (channel' == channel && q' == q)
  {
  }

  lemma UnregisteredIs<Q>(subs: map<Bytes, set<Q>>, channel: Bytes, q: Q, channel': Bytes, q': Q)
    ensures IsRegistered(Unregistered(subs, channel, q), channel', q') <==>
            IsRegistered(subs, channel', q') && !(channel' == channel && q' == q)
  {
    if channel in subs && channel' == channel && q' in subs[channel] && q' != q {
      assert q' in subs[channel] - {q};
    }
  }

  // -------------------------------------------------------------- the machine

  /**
   A subscription's queue. `since` and `until` say between which publications it was registered, `received`
   what its subscriber has taken and `dropped` how many messages found it full.
   */
  datatype Queue = Queue(
    channel: Bytes,
    since: nat,
    until: Option<nat>,
    buffer: seq<Message>,
    received: seq<Message>,
    dropped: nat)

  /** A connection's own map, and whether it still takes requests. */
  datatype Connection = Connection(subs: map<Bytes, nat>, open: bool)

  datatype State = State(
    subs: map<Bytes, set<nat>>,
    queues: seq<Queue>,
    connections: seq<Connection>,
    published: seq<Message>)

  const START := State(map[], [], [], [])

  datatype Event =
    | Connect
    | Subscribe(c: nat, channel: Bytes)
    | Unsubscribe(c: nat, channel: Bytes)
    | HangUp(c: nat)
    | Publish(message: Message)
    | Receive(q: nat)

  predicate Enabled(s: State, ev: Event) {
    match ev
    case Connect => true
    case Subscribe(c, _) => c < |s.connections| && s.connections[c].open
    case Unsubscribe(c, _) => c < |s.connections|
    case HangUp(c) => c < |s.connections|
    case Publish(_) => true
    case Receive(q) => q < |s.queues| && s.queues[q].buffer != []
  }

  function SubscribeOne(s: State, c: nat, channel: Bytes): State
    requires c < |s.connections|
  {
    var own := s.connections[c];
    if channel in own.subs then s
    else
      var q := |s.queues|;
      s.(subs := Registered(s.subs, channel, q),
         queues := s.queues + [Queue(channel, |s.published|, None, [], [], 0)],
         connections := s.connections[c := own.(subs := own.subs[channel := q])])
  }

  function Close(s: State, q: nat): State {
    if q < |s.queues| then s.(queues := s.queues[q := s.queues[q].(until := Some(|s.published|))]) else s
  }

  function UnsubscribeOne(s: State, c: nat, channel: Bytes): State
    requires c < |s.connections|
  {
    var own := s.connections[c];
    if channel !in own.subs then s
    else
      var q := own.subs[channel];
      Close(s, q).(subs := Unregistered(s.subs, channel, q),
                   connections := s.connections[c := own.(subs := own.subs - {channel})])
  }

  /** A send that does not block: a full queue drops the message. */
  function Offer(q: Queue, m: Message): Queue {
    if |q.buffer| < CAPACITY then q.(buffer := q.buffer + [m]) else q.(dropped := q.dropped + 1)
  }

  function Targets(s: State, channel: Bytes): set<nat> {
    if channel in s.subs then s.subs[channel] else {}
  }

  function PublishTo(s: State, m: Message): State {
    s.(queues := seq(|s.queues|, i requires 0 <= i < |s.queues| =>
         if i in Targets(s, m.channel) then Offer(s.queues[i], m) else s.queues[i]),
       published := s.published + [m])
  }

  function ReceiveFrom(s: State, q: nat): State
    requires q < |s.queues| && s.queues[q].buffer != []
  {
    var queue := s.queues[q];
    s.(queues := s.queues[q := queue.(buffer := queue.buffer[1..], received := queue.received + [queue.buffer[0]])])
  }

  function Next(s: State, ev: Event): State
    requires Enabled(s, ev)
  {
    match ev
    case Connect => s.(connections := s.connections + [Connection(map[], true)])
    case Subscribe(c, channel) => SubscribeOne(s, c, channel)
    case Unsubscribe(c, channel) => UnsubscribeOne(s, c, channel)
    case HangUp(c) => s.(connections := s.connections[c := s.connections[c].(open := false)])
    case Publish(m) => PublishTo(s, m)
    case Receive(q) => ReceiveFrom(s, q)
  }

  // ------------------------------------------------------------ the invariant

  /** Connection `c` holds queue `q` for a channel. */
  ghost predicate Holds(s: State, c: nat, channel: Bytes, q: nat) {
    c < |s.connections| && channel in s.connections[c].subs && s.connections[c].subs[channel] == q
  }

  ghost predicate Held(s: State, channel: Bytes, q: nat) {
    exists c: nat :: Holds(s, c, channel, q)
  }

  /** Two holdings of one queue are the same holding. */
  ghost predicate Disjoint(s: State) {
    forall c: nat, channel, c': nat, channel', q: nat ::
      Holds(s, c, channel, q) && Holds(s, c', channel', q) ==> c == c' && channel == channel'
  }

  /** The registry is exactly the union of what the connections hold, and keeps no empty channel. */
  ghost predicate Agreement(s: State) {
    && (forall channel, q: nat :: IsRegistered(s.subs, channel, q) <==> Held(s, channel, q))
    && (forall channel :: channel in s.subs ==> s.subs[channel] != {})
  }

  /** A queue is open exactly while some connection holds it, always for its own channel. */
  ghost predicate OpenFits(s: State) {
    && (forall channel, q: nat :: Held(s, channel, q) ==>
          q < |s.queues| && s.queues[q].until.None? && s.queues[q].channel == channel)
    && (forall q: nat :: q < |s.queues| && s.queues[q].until.None? ==> Held(s, s.queues[q].channel, q))
  }

  /** The messages of one channel, in order. */
  function OnChannel(ms: seq<Message>, channel: Bytes): seq<Message> {
    if ms == [] then []
    else
      var n := |ms| - 1;
      OnChannel(ms[..n], channel) + if ms[n].channel == channel then [ms[n]] else []
  }

  /** What was published on the queue's channel while it was registered. */
  function Heard(q: Queue, published: seq<Message>): seq<Message> {
    var until := if q.until.Some? then q.until.value else |published|;
    if q.since <= until <= |published| then OnChannel(published[q.since..until], q.channel) else []
  }

  function Delivered(q: Queue): seq<Message> {
    q.received + q.buffer
  }

  predicate Subsequence<T(==)>(a: seq<T>, b: seq<T>) {
    || a == []
    || (b != [] && a[|a| - 1] == b[|b| - 1] && Subsequence(a[..|a| - 1], b[..|b| - 1]))
    || (b != [] && Subsequence(a, b[..|b| - 1]))
  }

  ghost predicate QueueFits(q: Queue, published: seq<Message>) {
    && |q.buffer| <= CAPACITY
    && q.since <= (if q.until.Some? then q.until.value else |published|) <= |published|
    && Subsequence(Delivered(q), Heard(q, published))
    && |Delivered(q)| + q.dropped == |Heard(q, published)|
  }

  ghost predicate QueuesFit(s: State) {
    forall q: nat :: q < |s.queues| ==> QueueFits(s.queues[q], s.published)
  }

  ghost predicate Inv(s: State) {
    Disjoint(s) && Agreement(s) && OpenFits(s) && QueuesFit(s)
  }

  // --------------------------------------------- every event keeps the registry right

  ghost predicate RegistryFits(s: State) {
    Disjoint(s) && Agreement(s) && OpenFits(s)
  }

  lemma HoldsAfterSubscribe(s: State, c: nat, channel: Bytes, c': nat, channel': Bytes, q: nat)
    requires c < |s.connections| && channel !in s.connections[c].subs
    ensures Holds(SubscribeOne(s, c, channel), c', channel', q) <==>
            Holds(s, c', channel', q) || (c' == c && channel' == channel && q == |s.queues|)
  {
  }

  lemma HeldAfterSubscribe(s: State, c: nat, channel: Bytes, channel': Bytes, q: nat)
    requires c < |s.connections| && channel !in s.connections[c].subs
    ensures Held(SubscribeOne(s, c, channel), channel', q) <==>
            Held(s, channel', q) || (channel' == channel && q == |s.queues|)
  {
    var s' := SubscribeOne(s, c, channel);
    if Held(s', channel', q) {
      var k: nat :| Holds(s', k, channel', q);
      HoldsAfterSubscribe(s, c, channel, k, channel', q);
    }
    if Held(s, channel', q) {
      var k: nat :| Holds(s, k, channel', q);
      HoldsAfterSubscribe(s, c, channel, k, channel', q);
    }
    HoldsAfterSubscribe(s, c, channel, c, channel, |s.queues|);
  }

  lemma SubscribeKeepsDisjoint(s: State, c: nat, channel: Bytes)
    requires RegistryFits(s) && c < |s.connections| && channel !in s.connections[c].subs
    ensures Disjoint(SubscribeOne(s, c, channel))
  {
    var s' := SubscribeOne(s, c, channel);
    forall a: nat, x, b: nat, y, q: nat | Holds(s', a, x, q) && Holds(s', b, y, q)
      ensures a == b && x == y
    {
      HoldsAfterSubscribe(s, c, channel, a, x, q);
      HoldsAfterSubscribe(s, c, channel, b, y, q);
      if Holds(s, a, x, q) {
        assert Held(s, x, q);
      }
      if Holds(s, b, y, q) {
        assert Held(s, y, q);
      }
    }
  }

  lemma SubscribeKeepsRegistry(s: State, c: nat, channel: Bytes)
    requires RegistryFits(s) && c < |s.connections| && channel !in s.connections[c].subs
    ensures RegistryFits(SubscribeOne(s, c, channel))
  {
    var s' := SubscribeOne(s, c, channel);
    SubscribeKeepsDisjoint(s, c, channel);
    forall x, q: nat
      ensures Held(s', x, q) <==> Held(s, x, q) || (x == channel && q == |s.queues|)
    {
      HeldAfterSubscribe(s, c, channel, x, q);
    }
  }

  lemma HoldsAfterUnsubscribe(s: State, c: nat, channel: Bytes, c': nat, channel': Bytes, q: nat)
    requires c < |s.connections|
    ensures Holds(UnsubscribeOne(s, c, channel), c', channel', q) <==>
            Holds(s, c', channel', q) && !(c' == c && channel' == channel)
  {
  }

  lemma HeldAfterUnsubscribe(s: State, c: nat, channel: Bytes, channel': Bytes, q: nat)
    requires Disjoint(s) && c < |s.connections| && channel in s.connections[c].subs
    ensures Held(UnsubscribeOne(s, c, channel), channel', q) <==>
            Held(s, channel', q) && q != s.connections[c].subs[channel]
  {
    var s', gone := UnsubscribeOne(s, c, channel), s.connections[c].subs[channel];
    assert Holds(s, c, channel, gone);
    if Held(s', channel', q) {
      var k: nat :| Holds(s', k, channel', q);
      HoldsAfterUnsubscribe(s, c, channel, k, channel', q);
    }
    if Held(s, channel', q) && q != gone {
      var k: nat :| Holds(s, k, channel', q);
      HoldsAfterUnsubscribe(s, c, channel, k, channel', q);
    }
  }

  lemma UnsubscribeKeepsAgreement(s: State, c: nat, channel: Bytes)
    requires RegistryFits(s) && c < |s.connections| && channel in s.connections[c].subs
    ensures Agreement(UnsubscribeOne(s, c, channel))
  {
    var s', gone := UnsubscribeOne(s, c, channel), s.connections[c].subs[channel];
    assert Holds(s, c, channel, gone);
    assert Held(s, channel, gone);
    assert s.queues[gone].channel == channel;
    forall x, q: nat
      ensures IsRegistered(s'.subs, x, q) <==> Held(s', x, q)
    {
      HeldAfterUnsubscribe(s, c, channel, x, q);
      assert IsRegistered(s.subs, x, q) <==> Held(s, x, q);
      UnregisteredIs(s.subs, channel, gone, x, q);
    }
  }

  lemma UnsubscribeKeepsRegistry(s: State, c: nat, channel: Bytes)
    requires RegistryFits(s) && c < |s.connections| && channel in s.connections[c].subs
    ensures RegistryFits(UnsubscribeOne(s, c, channel))
  {
    var s', gone := UnsubscribeOne(s, c, channel), s.connections[c].subs[channel];
    UnsubscribeKeepsAgreement(s, c, channel);
    assert Holds(s, c, channel, gone);
    assert Held(s, channel, gone);
    forall a: nat, x, q: nat
      ensures Holds(s', a, x, q) ==> Holds(s, a, x, q)
    {
      HoldsAfterUnsubscribe(s, c, channel, a, x, q);
    }
    forall x, q: nat
      ensures Held(s', x, q) <==> Held(s, x, q) && q != gone
    {
      HeldAfterUnsubscribe(s, c, channel, x, q);
    }
  }

  /** The registry and the connections' maps are untouched, and no queue opens, closes or changes channel. */
  ghost predicate SameRegistry(s: State, s': State) {
    && s'.subs == s.subs
    && |s'.queues| == |s.queues|
    && (forall q: nat :: q < |s.queues| ==>
         s'.queues[q].until == s.queues[q].until && s'.queues[q].channel == s.queues[q].channel)
    && (forall c: nat, channel, q: nat :: Holds(s', c, channel, q) <==> Holds(s, c, channel, q))
  }

  lemma SameRegistryFits(s: State, s': State)
    requires RegistryFits(s) && SameRegistry(s, s')
    ensures RegistryFits(s')
  {
    forall channel, q: nat
      ensures Held(s', channel, q) <==> Held(s, channel, q)
    {
      if Held(s, channel, q) {
        var c: nat :| Holds(s, c, channel, q);
        assert Holds(s', c, channel, q);
      }
      if Held(s', channel, q) {
        var c: nat :| Holds(s', c, channel, q);
        assert Holds(s, c, channel, q);
      }
    }
  }

  lemma EventKeepsRegistry(s: State, ev: Event)
    requires RegistryFits(s) && Enabled(s, ev)
    ensures RegistryFits(Next(s, ev))
  {
    match ev {
      case Subscribe(c, channel) =>
        if channel !in s.connections[c].subs {
          SubscribeKeepsRegistry(s, c, channel);
        }
      case Unsubscribe(c, channel) =>
        if channel in s.connections[c].subs {
          UnsubscribeKeepsRegistry(s, c, channel);
        }
      case _ => SameRegistryFits(s, Next(s, ev));
    }
  }

  // ------------------------------------------------------ every event keeps the queues right

  lemma SubsequenceGrows(a: seq<Message>, b: seq<Message>, m: Message)
    requires Subsequence(a, b)
    ensures Subsequence(a, b + [m]) && Subsequence(a + [m], b + [m])
  {
    assert (b + [m])[..|b|] == b;
    assert (a + [m])[..|a|] == a;
  }

  lemma HeardTail(published: seq<Message>, since: nat, m: Message)
    requires since <= |published|
    ensures var longer := published + [m];
            longer[since..|longer|] == published[since..|published|] + [m]
    ensures var tail := published[since..|published|] + [m];
            tail[..|tail| - 1] == published[since..|published|]
  {
  }

  lemma HeardGrows(q: Queue, published: seq<Message>, m: Message)
    requires QueueFits(q, published)
    ensures Heard(q, published + [m]) ==
            if q.until.None? && m.channel == q.channel then Heard(q, published) + [m] else Heard(q, published)
  {
    var longer := published + [m];
    if q.until.None? {
      HeardTail(published, q.since, m);
    } else {
      assert longer[q.since..q.until.value] == published[q.since..q.until.value];
    }
  }

  lemma OfferFits(q: Queue, published: seq<Message>, m: Message)
    requires QueueFits(q, published) && q.until.None? && q.channel == m.channel
    ensures QueueFits(Offer(q, m), published + [m])
  {
    HeardGrows(q, published, m);
    SubsequenceGrows(Delivered(q), Heard(q, published), m);
    assert q.received + (q.buffer + [m]) == q.received + q.buffer + [m];
  }

  lemma PassedFits(q: Queue, published: seq<Message>, m: Message)
    requires QueueFits(q, published) && (q.until.None? ==> q.channel != m.channel)
    ensures QueueFits(q, published + [m])
  {
    HeardGrows(q, published, m);
  }

  lemma PublishKeepsQueues(s: State, m: Message)
    requires Inv(s)
    ensures QueuesFit(PublishTo(s, m))
  {
    forall q: nat | q < |s.queues|
      ensures QueueFits(PublishTo(s, m).queues[q], s.published + [m])
    {
      assert QueueFits(s.queues[q], s.published);
      if q in Targets(s, m.channel) {
        assert IsRegistered(s.subs, m.channel, q);
        OfferFits(s.queues[q], s.published, m);
      } else {
        assert !IsRegistered(s.subs, m.channel, q);
        PassedFits(s.queues[q], s.published, m);
      }
    }
  }

  lemma ReceiveKeepsQueues(s: State, q: nat)
    requires QueuesFit(s) && q < |s.queues| && s.queues[q].buffer != []
    ensures QueuesFit(ReceiveFrom(s, q))
  {
    var queue := s.queues[q];
    assert QueueFits(queue, s.published);
    assert queue.received + [queue.buffer[0]] + queue.buffer[1..] == queue.received + queue.buffer;
  }

  lemma NewQueueFits(channel: Bytes, published: seq<Message>)
    ensures QueueFits(Queue(channel, |published|, None, [], [], 0), published)
  {
    assert published[|published|..|published|] == [];
  }

  lemma ClosedFits(q: Queue, published: seq<Message>)
    requires QueueFits(q, published) && q.until.None?
    ensures QueueFits(q.(until := Some(|published|)), published)
  {
  }

  lemma EventKeepsQueues(s: State, ev: Event)
    requires Inv(s) && Enabled(s, ev)
    ensures QueuesFit(Next(s, ev))
  {
    match ev {
      case Connect =>
      case Subscribe(c, channel) => NewQueueFits(channel, s.published);
      case Unsubscribe(c, channel) =>
        if channel in s.connections[c].subs {
          var q := s.connections[c].subs[channel];
          assert Holds(s, c, channel, q);
          assert Held(s, channel, q);
          ClosedFits(s.queues[q], s.published);
        }
      case HangUp(_) =>
      case Publish(m) => PublishKeepsQueues(s, m);
      case Receive(q) => ReceiveKeepsQueues(s, q);
    }
  }

  // ----------------------------------------------------------------------- runs

  ghost function After(s: State, run: seq<Event>): Option<State>
    decreases run
  {
    if run == [] then Some(s)
    else if Enabled(s, run[0]) then After(Next(s, run[0]), run[1..])
    else None
  }

  lemma {:induction false} RunsKeepInv(s: State, run: seq<Event>)
    requires Inv(s) && After(s, run).Some?
    ensures Inv(After(s, run).value)
    decreases run
  {
    if run != [] {
      EventKeepsRegistry(s, run[0]);
      EventKeepsQueues(s, run[0]);
      RunsKeepInv(Next(s, run[0]), run[1..]);
    }
  }

  ghost predicate Reachable(s: State) {
    exists run :: After(START, run) == Some(s)
  }

  lemma ReachableInv(s: State)
    requires Reachable(s)
    ensures Inv(s)
  {
    var run :| After(START, run) == Some(s);
    RunsKeepInv(START, run);
  }

  /**
   After every run, the broker's registered queues are exactly the disjoint union of what the connections
   hold, and a queue is open exactly while it is registered.
   */
  lemma RegistryAgrees(s: State, channel: Bytes, q: nat)
    requires Reachable(s)
    ensures IsRegistered(s.subs, channel, q) <==> Held(s, channel, q)
    ensures IsRegistered(s.subs, channel, q) <==>
            q < |s.queues| && s.queues[q].until.None? && s.queues[q].channel == channel
    ensures forall c: nat, c': nat, channel' :: Holds(s, c, channel, q) && Holds(s, c', channel', q) ==>
              c == c' && channel == channel'
  {
    ReachableInv(s);
  }

  /** So no run sends on a closed queue and none closes a queue twice: neither panic can happen. */
  lemma NeverPanics(s: State, ev: Event)
    requires Reachable(s) && Enabled(s, ev)
    ensures ev.Publish? ==>
              forall q: nat :: q in Targets(s, ev.message.channel) ==> q < |s.queues| && s.queues[q].until.None?
    ensures ev.Unsubscribe? && ev.channel in s.connections[ev.c].subs ==>
              && s.connections[ev.c].subs[ev.channel] < |s.queues|
              && s.queues[s.connections[ev.c].subs[ev.channel]].until.None?
  {
    ReachableInv(s);
    match ev {
      case Publish(m) =>
        forall q: nat | q in Targets(s, m.channel)
          ensures q < |s.queues| && s.queues[q].until.None?
        {
          assert IsRegistered(s.subs, m.channel, q);
        }
      case Unsubscribe(c, channel) =>
        if channel in s.connections[c].subs {
          assert Holds(s, c, channel, s.connections[c].subs[channel]);
          assert Held(s, channel, s.connections[c].subs[channel]);
        }
      case _ =>
    }
  }

  /**
   What a subscriber has taken, followed by what waits in its queue, is an in-order subsequence of what was
   published on its channel while it was subscribed; all that is missing is what was dropped, and at most
   sixteen messages wait.
   */
  lemma DeliveryIsOrdered(s: State, q: nat)
    requires Reachable(s) && q < |s.queues|
    ensures |s.queues[q].buffer| <= 16
    ensures Subsequence(Delivered(s.queues[q]), Heard(s.queues[q], s.published))
    ensures |Delivered(s.queues[q])| + s.queues[q].dropped == |Heard(s.queues[q], s.published)|
  {
    ReachableInv(s);
    assert QueueFits(s.queues[q], s.published);
  }

  lemma {:induction false} FullSubsequence(a: seq<Message>, b: seq<Message>)
    requires Subsequence(a, b)
    ensures |a| <= |b|
    ensures |a| == |b| ==> a == b
  {
    if a != [] {
      var a', b' := a[..|a| - 1], b[..|b| - 1];
      if a[|a| - 1] == b[|b| - 1] && Subsequence(a', b') {
        FullSubsequence(a', b');
        assert a == a' + [a[|a| - 1]];
        assert b == b' + [b[|b| - 1]];
      } else {
        FullSubsequence(a, b');
      }
    }
  }

  /** A subscriber gets every message, in order, if and only if none found its queue full. */
  lemma NothingLostIff(s: State, q: nat)
    requires Reachable(s) && q < |s.queues|
    ensures Delivered(s.queues[q]) == Heard(s.queues[q], s.published) <==> s.queues[q].dropped == 0
  {
    DeliveryIsOrdered(s, q);
    FullSubsequence(Delivered(s.queues[q]), Heard(s.queues[q], s.published));
  }

  // ------------------------------------------------------------- one message's way

  /**
   A message goes to the end of every open queue of its channel that has fewer than sixteen waiting, is dropped
   at one that has more, and touches no other.
   */
  lemma PublishReaches(s: State, m: Message, q: nat)
    requires Reachable(s) && q < |s.queues|
    ensures var was, now := s.queues[q], Next(s, Publish(m)).queues[q];
            if was.channel != m.channel || was.until.Some? then now == was
            else if |was.buffer| < 16 then now == was.(buffer := was.buffer + [m])
            else now == was.(dropped := was.dropped + 1)
    ensures |Next(s, Publish(m)).queues| == |s.queues|
  {
    RegistryAgrees(s, m.channel, q);
    hide Reachable;
  }

  /** Subscribers take what waits for them in the order it came. */
  lemma ReceiveTakesFirst(s: State, q: nat)
    requires Enabled(s, Receive(q))
    ensures var was, now := s.queues[q], Next(s, Receive(q)).queues[q];
            was.buffer == [was.buffer[0]] + now.buffer && now.received == was.received + [was.buffer[0]]
    ensures forall k :: 0 <= k < |s.queues| && k != q ==> Next(s, Receive(q)).queues[k] == s.queues[k]
  {
  }

  /** A new subscription has an empty queue, open from now on; one that is given up is closed for good. */
  lemma SubscriptionOpensAndCloses(s: State, c: nat, channel: Bytes)
    requires Reachable(s) && c < |s.connections|
    ensures s.connections[c].open && channel !in s.connections[c].subs ==>
              var next := Next(s, Subscribe(c, channel));
              && next.queues == s.queues + [Queue(channel, |s.published|, None, [], [], 0)]
              && next.connections[c].subs == s.connections[c].subs[channel := |s.queues|]
    ensures channel in s.connections[c].subs ==>
              var q, next := s.connections[c].subs[channel], Next(s, Unsubscribe(c, channel));
              && q < |s.queues| && next.queues == s.queues[q := s.queues[q].(until := Some(|s.published|))]
              && next.connections[c].subs == s.connections[c].subs - {channel}
  {
    if channel in s.connections[c].subs {
      NeverPanics(s, Unsubscribe(c, channel));
    }
    hide Reachable;
  }

  /** What waits at a queue of its own after some messages on its channel, if nobody takes any. */
  ghost predicate Waiting(s: State, channel: Bytes, ms: seq<Message>) {
    && |s.queues| == 1 && s.subs == map[channel := {0}]
    && s.queues[0].channel == channel && s.queues[0].until.None? && s.queues[0].received == []
    && s.queues[0].buffer == (if |ms| < 16 then ms else ms[..16])
    && s.queues[0].dropped == (if |ms| < 16 then 0 else |ms| - 16)
  }

  lemma OneMoreWaits(s: State, channel: Bytes, ms: seq<Message>, m: Message)
    requires Waiting(s, channel, ms) && m.channel == channel
    ensures Waiting(Next(s, Publish(m)), channel, ms + [m])
  {
    assert |ms| >= 16 ==> (ms + [m])[..16] == ms[..16];
    assert |ms| < 16 ==> (ms + [m])[..|ms| + 1] == ms + [m];
  }

  function Publishes(ms: seq<Message>): (run: seq<Event>)
    ensures |run| == |ms|
  {
    seq(|ms|, i requires 0 <= i < |ms| => Publish(ms[i]))
  }

  lemma {:induction false} AllWait(s: State, channel: Bytes, before: seq<Message>, ms: seq<Message>)
    requires Waiting(s, channel, before) && forall i :: 0 <= i < |ms| ==> ms[i].channel == channel
    ensures After(s, Publishes(ms)).Some? && Waiting(After(s, Publishes(ms)).value, channel, before + ms)
    decreases ms
  {
    if ms == [] {
      assert before + ms == before;
    } else {
      OneMoreWaits(s, channel, before, ms[0]);
      assert Publishes(ms)[1..] == Publishes(ms[1..]);
      assert before + [ms[0]] + ms[1..] == before + ms;
      hide Waiting;
      AllWait(Next(s, Publish(ms[0])), channel, before + [ms[0]], ms[1..]);
    }
  }

  lemma Joins(channel: Bytes) returns (s: State)
    ensures After(START, [Connect, Subscribe(0, channel)]) == Some(s) && Waiting(s, channel, [])
  {
    var open := Next(START, Connect);
    s := Next(open, Subscribe(0, channel));
    assert [Connect, Subscribe(0, channel)][1..] == [Subscribe(0, channel)];
    assert [Subscribe(0, channel)][1..] == [];
    assert After(open, [Subscribe(0, channel)]) == Some(s);
    var none: set<nat> := {};
    assert none + {0} == {0};
  }

  lemma {:induction false} AfterBoth(s: State, first: seq<Event>, more: seq<Event>)
    requires After(s, first).Some?
    ensures After(s, first + more) == After(After(s, first).value, more)
    decreases first
  {
    if first == [] {
      assert first + more == more;
    } else {
      assert (first + more)[1..] == first[1..] + more;
      AfterBoth(Next(s, first[0]), first[1..], more);
    }
  }

  /**
   A client that subscribes and then takes nothing finds the first sixteen messages waiting, in order, and has
   lost the rest.
   */
  lemma SixteenWait(channel: Bytes, ms: seq<Message>) returns (s: State)
    requires forall i :: 0 <= i < |ms| ==> ms[i].channel == channel
    ensures After(START, [Connect, Subscribe(0, channel)] + Publishes(ms)) == Some(s)
    ensures |s.queues| == 1 && s.queues[0].buffer == if |ms| < 16 then ms else ms[..16]
    ensures s.queues[0].dropped == if |ms| < 16 then 0 else |ms| - 16
  {
    var joined := Joins(channel);
    AllWait(joined, channel, [], ms);
    assert [] + ms == ms;
    AfterBoth(START, [Connect, Subscribe(0, channel)], Publishes(ms));
    s := After(joined, Publishes(ms)).value;
    hide After;
  }

  /** A connection that has hung up takes no more requests, and what it held only becomes less. */
  lemma HangUpIsFinal(s: State, c: nat, ev: Event)
    requires c < |s.connections| && Enabled(s, ev)
    ensures c < |Next(s, ev).connections|
    ensures ev == HangUp(c) ==> Next(s, ev).connections[c] == s.connections[c].(open := false)
    ensures !s.connections[c].open ==>
              && !Next(s, ev).connections[c].open && !(ev.Subscribe? && ev.c == c)
              && Next(s, ev).connections[c].subs.Keys <= s.connections[c].subs.Keys
  {
  }
}
