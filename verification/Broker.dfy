/**
 The broker and the connections as the objects the server updates in place: `pubsub.PubSub`, its queues, and
 the handlers of SUBSCRIBE and UNSUBSCRIBE with the clean-up when a connection ends.
 */
module Broker {
  import opened Wrappers
  import opened GoText
  import opened Containers
  import P = PubSub

  /** A buffered channel of messages. Sending on a closed one, or closing it again, would panic. */
  class Chan {
    var buffer: seq<P.Message>
    var closed: bool
    ghost const channel: Bytes
    ghost const owner: Connection

    constructor (channel: Bytes, ghost owner: Connection)
      ensures buffer == [] && !closed
      ensures this.channel == channel && this.owner == owner
    {
      buffer, closed := [], false;
      this.channel, this.owner := channel, owner;
    }

    /** A send inside `select` with a default case. */
    method TrySend(m: P.Message) returns (sent: bool)
      requires !closed
      modifies this
      ensures !closed
      ensures sent <==> |old(buffer)| < P.CAPACITY
      ensures buffer == if sent then old(buffer) + [m] else old(buffer)
    {
      sent := |buffer| < P.CAPACITY;
      if sent {
        buffer := buffer + [m];
      }
    }

    method Close()
      requires !closed
      modifies this
      ensures closed && buffer == old(buffer)
    {
      closed := true;
    }
  }

  class PubSub {
    var subs: map<Bytes, set<Chan>>
    /** Every queue this broker ever handed out. */
    ghost var made: set<Chan>

    constructor ()
      ensures subs == map[] && made == {}
    {
      subs, made := map[], {};
    }

    method Subscribe(channel: Bytes, ghost owner: Connection) returns (ch: Chan)
      modifies this
      ensures fresh(ch) && !ch.closed && ch.buffer == [] && ch.channel == channel && ch.owner == owner
      ensures subs == P.Registered(old(subs), channel, ch) && made == old(made) + {ch}
    {
      ch := new Chan(channel, owner);
      made := made + {ch};
      if channel !in subs {
        subs := subs[channel := {}];
      }
      subs := subs[channel := subs[channel] + {ch}];
    }

    method Unsubscribe(channel: Bytes, ch: Chan)
      requires !ch.closed
      modifies this, ch
      ensures subs == P.Unregistered(old(subs), channel, ch) && made == old(made)
      ensures ch.closed && ch.buffer == old(ch.buffer)
    {
      if channel in subs {
        subs := subs[channel := subs[channel] - {ch}];
        if subs[channel] == {} {
          subs := subs - {channel};
        }
      }
      ch.Close();
    }

    function Targets(channel: Bytes): set<Chan>
      reads this
    {
      if channel in subs then subs[channel] else {}
    }

    /** Every registered queue with room gets the message at its end; the reply counts those. */
    method Publish(channel: Bytes, payload: Bytes) returns (delivered: nat)
      requires forall q :: q in Targets(channel) ==> !q.closed
      modifies Targets(channel)
      ensures forall q :: q in Targets(channel) ==>
                && !q.closed
                && q.buffer == if |old(q.buffer)| < P.CAPACITY then old(q.buffer) + [P.Message(channel, payload)]
                               else old(q.buffer)
      ensures delivered == |set q | q in Targets(channel) && |old(q.buffer)| < P.CAPACITY|
    {
      delivered := 0;
      var left := Targets(channel);
      ghost var served: set<Chan> := {};
      while left != {}
        invariant left <= Targets(channel)
        invariant forall q :: q in Targets(channel) ==> !q.closed
        invariant forall q :: q in left ==> q.buffer == old(q.buffer)
        invariant forall q :: q in Targets(channel) - left ==>
                    q.buffer == if |old(q.buffer)| < P.CAPACITY then old(q.buffer) + [P.Message(channel, payload)]
                                else old(q.buffer)
        invariant served == set q | q in Targets(channel) - left && |old(q.buffer)| < P.CAPACITY
        invariant delivered == |served|
        decreases left
      {
        var q :| q in left;
        var sent := q.TrySend(P.Message(channel, payload));
        if sent {
          assert q !in served;
          served := served + {q};
          delivered := delivered + 1;
        }
        left := left - {q};
      }
      assert served == set q | q in Targets(channel) && |old(q.buffer)| < P.CAPACITY;
    }
  }

  // ----------------------------------------------------------------- connections

  /** What SUBSCRIBE writes for a channel: nothing if it is not new, else a confirmation with the count so far. */
  function ConfirmedOne(keys: set<Bytes>, channel: Bytes): seq<(Bytes, nat)> {
    if channel in keys then [] else [(channel, |keys + {channel}|)]
  }

  function Confirmed(keys: set<Bytes>, args: seq<Bytes>): seq<(Bytes, nat)> {
    if args == [] then []
    else
      var n := |args| - 1;
      Confirmed(keys, args[..n]) + ConfirmedOne(keys + Elements(args[..n]), args[n])
  }

  lemma NobodyConfirmed(keys: set<Bytes>)
    ensures Confirmed(keys, []) == []
  {
  }

  lemma ConfirmedStep(keys: set<Bytes>, args: seq<Bytes>, i: nat)
    requires i < |args|
    ensures Confirmed(keys, args[..i + 1]) ==
            Confirmed(keys, args[..i]) + ConfirmedOne(keys + Elements(args[..i]), args[i])
  {
    assert args[..i + 1][..i] == args[..i];
  }

  /** Each channel that was not there before is in the reply, and the counts go up by one. */
  ghost predicate CountsUp(r: seq<(Bytes, nat)>, keys: set<Bytes>, args: seq<Bytes>) {
    && |r| == |Elements(args) - keys|
    && (forall i :: 0 <= i < |r| ==> r[i].1 == |keys| + i + 1 && r[i].0 in args && r[i].0 !in keys)
    && (forall x :: x in args && x !in keys ==> exists i :: 0 <= i < |r| && r[i].0 == x)
  }

  lemma KnownCount(keys: set<Bytes>, more: set<Bytes>)
    ensures |keys + more| == |keys| + |more - keys|
  {
    assert keys + more == keys + (more - keys);
  }

  lemma NothingNew(r: seq<(Bytes, nat)>, keys: set<Bytes>, front: seq<Bytes>, x: Bytes)
    requires CountsUp(r, keys, front) && x in keys + Elements(front)
    ensures CountsUp(r, keys, front + [x])
  {
    assert Elements(front + [x]) - keys == Elements(front) - keys;
  }

  lemma OneNew(r: seq<(Bytes, nat)>, keys: set<Bytes>, front: seq<Bytes>, x: Bytes)
    requires CountsUp(r, keys, front) && x !in keys + Elements(front)
    ensures CountsUp(r + [(x, |keys + Elements(front) + {x}|)], keys, front + [x])
  {
    var all := r + [(x, |keys + Elements(front) + {x}|)];
    KnownCount(keys, Elements(front));
    assert Elements(front + [x]) - keys == Elements(front) - keys + {x};
    assert all[|r|].0 == x;
    forall y | y in front + [x] && y !in keys
      ensures exists i :: 0 <= i < |all| && all[i].0 == y
    {
      if y in front {
        var i :| 0 <= i < |r| && r[i].0 == y;
        assert all[i].0 == y;
      }
    }
  }

  lemma {:induction false} ConfirmationsCount(keys: set<Bytes>, args: seq<Bytes>)
    ensures CountsUp(Confirmed(keys, args), keys, args)
  {
    if args == [] {
      assert Elements(args) - keys == {};
    } else {
      var n := |args| - 1;
      var front, x := args[..n], args[n];
      assert args == front + [x];
      ConfirmationsCount(keys, front);
      hide CountsUp, Elements;
      var r := Confirmed(keys, front);
      if x in keys + Elements(front) {
        NothingNew(r, keys, front, x);
        assert r + [] == r;
      } else {
        OneNew(r, keys, front, x);
      }
    }
  }

  /** What is left of a connection's map after some names have been dropped in turn. */
  function Dropped<V>(subs: map<Bytes, V>, names: seq<Bytes>): map<Bytes, V> {
    if names == [] then subs else Dropped(subs, names[..|names| - 1]) - {names[|names| - 1]}
  }

  lemma {:induction false} DroppedIs<V>(subs: map<Bytes, V>, names: seq<Bytes>)
    ensures Dropped(subs, names) == subs - Elements(names)
  {
    if names != [] {
      var n := |names| - 1;
      DroppedIs(subs, names[..n]);
      ElementsStep(names, n);
      assert names[..n + 1] == names;
    }
  }

  /** What UNSUBSCRIBE writes: a confirmation for each name, subscribed or not, with the count left. */
  function Dismissed<V>(subs: map<Bytes, V>, names: seq<Bytes>): seq<(Bytes, nat)> {
    if names == [] then []
    else Dismissed(subs, names[..|names| - 1]) + [(names[|names| - 1], |Dropped(subs, names)|)]
  }

  lemma DropStep<V>(subs: map<Bytes, V>, names: seq<Bytes>, i: nat)
    requires i < |names|
    ensures Dropped(subs, names[..i + 1]) == Dropped(subs, names[..i]) - {names[i]}
    ensures Dismissed(subs, names[..i + 1]) ==
            Dismissed(subs, names[..i]) + [(names[i], |Dropped(subs, names[..i + 1])|)]
  {
    assert names[..i + 1][..i] == names[..i];
  }

  /** How many channels are left when the first `n` names are gone. */
  function LeftOf<V>(subs: map<Bytes, V>, names: seq<Bytes>, n: nat): nat
    requires n <= |names|
  {
    |subs - Elements(names[..n])|
  }

  lemma LeftOfFront<V>(subs: map<Bytes, V>, front: seq<Bytes>, x: Bytes, n: nat)
    requires n <= |front|
    ensures LeftOf(subs, front + [x], n) == LeftOf(subs, front, n)
  {
    assert (front + [x])[..n] == front[..n];
  }

  lemma LeftOfAll<V>(subs: map<Bytes, V>, names: seq<Bytes>)
    ensures LeftOf(subs, names, |names|) == |subs - Elements(names)|
  {
    assert names[..|names|] == names;
  }

  /** Each name given is confirmed, with how many channels are left when all up to it are gone. */
  ghost predicate CountsDown<V>(r: seq<(Bytes, nat)>, subs: map<Bytes, V>, names: seq<Bytes>) {
    |r| == |names| && forall i :: 0 <= i < |r| ==> r[i] == (names[i], LeftOf(subs, names, i + 1))
  }

  lemma OneLess<V>(r: seq<(Bytes, nat)>, subs: map<Bytes, V>, front: seq<Bytes>, x: Bytes)
    requires CountsDown(r, subs, front)
    ensures CountsDown(r + [(x, |subs - Elements(front + [x])|)], subs, front + [x])
  {
    var names := front + [x];
    LeftOfAll(subs, names);
    hide LeftOf, Elements;
    forall i | 0 <= i < |r|
      ensures r[i] == (names[i], LeftOf(subs, names, i + 1))
    {
      LeftOfFront(subs, front, x, i + 1);
    }
  }

  lemma {:induction false} DismissalsCount<V>(subs: map<Bytes, V>, names: seq<Bytes>)
    ensures CountsDown(Dismissed(subs, names), subs, names)
  {
    if names != [] {
      var n := |names| - 1;
      assert names == names[..n] + [names[n]];
      DismissalsCount(subs, names[..n]);
      DroppedIs(subs, names);
      hide Elements, Dropped, CountsDown, LeftOf;
      OneLess(Dismissed(subs, names[..n]), subs, names[..n], names[n]);
    }
  }

  lemma NothingDropped<V>(subs: map<Bytes, V>)
    ensures Dropped(subs, []) == subs && Dismissed(subs, []) == []
  {
  }

  /** Nothing the first map holds is missing from or different in the second. */
  ghost predicate Keeps(before: map<Bytes, Chan>, after: map<Bytes, Chan>) {
    forall k :: k in before ==> k in after && after[k] == before[k]
  }

  lemma KeepsSelf(subs: map<Bytes, Chan>)
    ensures Keeps(subs, subs)
  {
  }

  lemma KeepsMore(a: map<Bytes, Chan>, b: map<Bytes, Chan>, c: map<Bytes, Chan>)
    requires Keeps(a, b) && Keeps(b, c)
    ensures Keeps(a, c)
  {
  }

  /** The connection that owns this queue holds it, under its channel; `held` is what `self` holds. */
  ghost predicate HeldByOwner(ch: Chan, others: set<Connection>, self: Connection, held: map<Bytes, Chan>)
    reads others
  {
    if ch.owner == self then ch.channel in held && held[ch.channel] == ch
    else ch.owner in others && ch.channel in ch.owner.subs && ch.owner.subs[ch.channel] == ch
  }

  /** The broker has registered all of what one connection holds. */
  ghost predicate Enlisted(subs: map<Bytes, set<Chan>>, c: Connection, held: map<Bytes, Chan>) {
    forall channel | channel in held ::
      P.IsRegistered(subs, channel, held[channel]) && held[channel].owner == c && held[channel].channel == channel
  }

  /**
   The agreement: what the broker has registered is exactly what `others` hold together with what `self`
   holds, each queue by its owner alone, and a queue is open exactly while it is registered.
   */
  ghost predicate Agrees(broker: PubSub, others: set<Connection>, self: Connection, held: map<Bytes, Chan>)
    reads broker, others, broker.made
  {
    && self !in others
    && (forall channel, ch | channel in broker.subs && ch in broker.subs[channel] ::
         ch in broker.made && ch.channel == channel && !ch.closed && HeldByOwner(ch, others, self, held))
    && (forall ch | ch in broker.made && !ch.closed :: P.IsRegistered(broker.subs, ch.channel, ch))
    && Enlisted(broker.subs, self, held)
    && (forall c | c in others :: Enlisted(broker.subs, c, c.subs))
  }

  /** What a connection once held and holds no more is closed. */
  lemma GoneIsClosed(broker: PubSub, others: set<Connection>, self: Connection, held: map<Bytes, Chan>, ch: Chan)
    requires Agrees(broker, others, self, held) && ch in broker.made && ch.owner == self && ch.channel !in held
    ensures ch.closed
  {
  }

  /** Taking one queue out leaves its owner's other queues enlisted, and those of everyone else. */
  lemma StillEnlisted(subs: map<Bytes, set<Chan>>, channel: Bytes, ch: Chan, c: Connection, held: map<Bytes, Chan>)
    requires Enlisted(subs, c, held) && channel in held && held[channel] == ch
    ensures Enlisted(P.Unregistered(subs, channel, ch), c, held - {channel})
  {
    forall k | k in held - {channel}
      ensures P.IsRegistered(P.Unregistered(subs, channel, ch), k, held[k])
    {
      P.UnregisteredIs(subs, channel, ch, k, held[k]);
    }
  }

  lemma OthersEnlisted(subs: map<Bytes, set<Chan>>, channel: Bytes, ch: Chan, c: Connection, held: map<Bytes, Chan>)
    requires Enlisted(subs, c, held) && ch.owner != c
    ensures Enlisted(P.Unregistered(subs, channel, ch), c, held)
  {
    forall k | k in held
      ensures P.IsRegistered(P.Unregistered(subs, channel, ch), k, held[k])
    {
      P.UnregisteredIs(subs, channel, ch, k, held[k]);
    }
  }

  class Connection {
    var subs: map<Bytes, Chan>

    constructor ()
      ensures subs == map[]
    {
      subs := map[];
    }

    method Enroll(channel: Bytes, broker: PubSub, ghost others: set<Connection>)
      requires Agrees(broker, others, this, subs) && channel !in subs
      modifies this, broker
      ensures Agrees(broker, others, this, subs)
      ensures subs.Keys == old(subs.Keys) + {channel}
      ensures Keeps(old(subs), subs)
    {
      ghost var before := broker.subs;
      var ch := broker.Subscribe(channel, this);
      subs := subs[channel := ch];
      forall k, q | k in broker.subs && q in broker.subs[k]
        ensures q in broker.made && q.channel == k && !q.closed && HeldByOwner(q, others, this, subs)
      {
        P.RegisteredIs(before, channel, ch, k, q);
        assert q != ch ==> HeldByOwner(q, others, this, old(subs));
      }
      forall k, q | P.IsRegistered(before, k, q)
        ensures P.IsRegistered(broker.subs, k, q)
      {
        P.RegisteredIs(before, channel, ch, k, q);
      }
      assert P.IsRegistered(broker.subs, channel, ch);
      hide P.Registered, P.IsRegistered, HeldByOwner;
    }

    /** One turn of the loop in SUBSCRIBE. */
    method SubscribeOne(channel: Bytes, broker: PubSub, ghost others: set<Connection>)
      returns (reply: seq<(Bytes, nat)>)
      requires Agrees(broker, others, this, subs)
      modifies this, broker
      ensures Agrees(broker, others, this, subs)
      ensures subs.Keys == old(subs.Keys) + {channel}
      ensures Keeps(old(subs), subs)
      ensures reply == ConfirmedOne(old(subs.Keys), channel)
    {
      if channel in subs {
        return [];
      }
      Enroll(channel, broker, others);
      return [(channel, |subs|)];
    }

    method HandleSubscribe(args: seq<Bytes>, broker: PubSub, ghost others: set<Connection>)
      returns (replies: seq<(Bytes, nat)>)
      requires Agrees(broker, others, this, subs)
      modifies this, broker
      ensures Agrees(broker, others, this, subs)
      ensures subs.Keys == old(subs.Keys) + Elements(args)
      ensures Keeps(old(subs), subs)
      ensures replies == Confirmed(old(subs.Keys), args)
    {
      hide *;
      replies := [];
      NobodyConfirmed(subs.Keys);
      KeepsSelf(subs);
      var i := 0;
      while i < |args|
        invariant 0 <= i <= |args|
        invariant Agrees(broker, others, this, subs)
        invariant subs.Keys == old(subs.Keys) + Elements(args[..i])
        invariant Keeps(old(subs), subs)
        invariant replies == Confirmed(old(subs.Keys), args[..i])
      {
        ElementsStep(args, i);
        ConfirmedStep(old(subs.Keys), args, i);
        ghost var before := subs;
        var reply := SubscribeOne(args[i], broker, others);
        KeepsMore(old(subs), before, subs);
        replies := replies + reply;
        i := i + 1;
      }
      assert args[..i] == args;
    }

    /** Takes one subscription out of the broker and out of this connection's map, and closes its queue. */
    method Drop(channel: Bytes, broker: PubSub, ghost others: set<Connection>)
      requires Agrees(broker, others, this, subs) && channel in subs
      modifies this, broker, subs[channel]
      ensures Agrees(broker, others, this, subs)
      ensures subs == old(subs) - {channel} && old(subs)[channel].closed
    {
      Withdraw(channel, subs[channel], broker, others, subs);
      subs := subs - {channel};
    }

    /** `broker.Unsubscribe` on a queue this connection still holds. */
    method Withdraw(channel: Bytes, ch: Chan, broker: PubSub, ghost others: set<Connection>,
                    ghost held: map<Bytes, Chan>)
      requires Agrees(broker, others, this, held) && channel in held && held[channel] == ch
      modifies broker, ch
      ensures Agrees(broker, others, this, held - {channel})
      ensures ch.closed
    {
      broker.Unsubscribe(channel, ch);
      forall k, q | k in broker.subs && q in broker.subs[k]
        ensures P.IsRegistered(old(broker.subs), k, q) && q != ch && HeldByOwner(q, others, this, held - {channel})
      {
        P.UnregisteredIs(old(broker.subs), channel, ch, k, q);
        assert HeldByOwner(q, others, this, held);
      }
      forall q | q in broker.made && !q.closed
        ensures P.IsRegistered(broker.subs, q.channel, q)
      {
        P.UnregisteredIs(old(broker.subs), channel, ch, q.channel, q);
      }
      StillEnlisted(old(broker.subs), channel, ch, this, held);
      forall c | c in others
        ensures Enlisted(broker.subs, c, c.subs)
      {
        OthersEnlisted(old(broker.subs), channel, ch, c, c.subs);
      }
    }

    /** One turn of the loop in UNSUBSCRIBE. */
    method UnsubscribeOne(channel: Bytes, broker: PubSub, ghost others: set<Connection>)
      returns (reply: (Bytes, nat))
      requires Agrees(broker, others, this, subs)
      modifies this, broker, if channel in subs then {subs[channel]} else {}
      ensures Agrees(broker, others, this, subs)
      ensures subs == old(subs) - {channel}
      ensures reply == (channel, |subs|)
    {
      if channel in subs {
        Drop(channel, broker, others);
      }
      return (channel, |subs|);
    }

    /** Without arguments, every channel of the connection goes, in the order map iteration yields them. */
    method HandleUnsubscribe(args: seq<Bytes>, broker: PubSub, ghost others: set<Connection>)
      returns (channels: seq<Bytes>, replies: seq<(Bytes, nat)>)
      requires Agrees(broker, others, this, subs)
      modifies this, broker, subs.Values
      ensures Agrees(broker, others, this, subs)
      ensures if args == [] then Listing(channels, old(subs.Keys)) else channels == args
      ensures subs == old(subs) - Elements(channels)
      ensures replies == Dismissed(old(subs), channels)
    {
      channels := args;
      if args == [] {
        channels := ListAll(subs.Keys);
      }
      replies := UnsubscribeAll(channels, broker, others);
      DroppedIs(old(subs), channels);
    }

    method UnsubscribeAll(channels: seq<Bytes>, broker: PubSub, ghost others: set<Connection>)
      returns (replies: seq<(Bytes, nat)>)
      requires Agrees(broker, others, this, subs)
      modifies this, broker, subs.Values
      ensures Agrees(broker, others, this, subs)
      ensures subs == Dropped(old(subs), channels)
      ensures replies == Dismissed(old(subs), channels)
    {
      hide *;
      replies := [];
      NothingDropped(subs);
      ghost var first := subs;
      var i := 0;
      while i < |channels|
        invariant 0 <= i <= |channels|
        invariant Agrees(broker, others, this, subs)
        invariant subs == Dropped(first, channels[..i])
        invariant forall k :: k in subs ==> k in first && subs[k] == first[k]
        invariant replies == Dismissed(first, channels[..i])
      {
        DropStep(first, channels, i);
        ghost var left := subs;
        var reply := UnsubscribeOne(channels[i], broker, others);
        assert subs == left - {channels[i]};
        replies := replies + [reply];
        assert reply == (channels[i], |Dropped(first, channels[..i + 1])|);
        i := i + 1;
      }
      assert channels[..i] == channels;
    }

    /** What runs when the connection ends. */
    method Disconnect(broker: PubSub, ghost others: set<Connection>)
      requires Agrees(broker, others, this, subs)
      modifies broker, subs.Values
      ensures Agrees(broker, others, this, map[])
    {
      var left := subs.Keys;
      ghost var held := subs;
      while left != {}
        invariant left <= subs.Keys
        invariant Agrees(broker, others, this, held)
        invariant held.Keys == left && forall k :: k in left ==> held[k] == subs[k]
        decreases left
      {
        var k :| k in left;
        Withdraw(k, subs[k], broker, others, held);
        left, held := left - {k}, held - {k};
      }
    }
  }
}
