/**
 Client connections: the bytes that arrive on them, the database each has selected, and the requests they turn
 into. Whatever bytes clients send, in whatever pieces, what reaches the databases and the log is a run of the
 machine in `Recovery`.
 */
module Sessions {
  import opened Wrappers
  import opened GoText
  import opened Sequences
  import opened Resp
  import opened Keyspace
  import opened Commands
  import opened AofLog
  import opened Recovery

  /** One connection: its database, whether it may run commands, and the bytes not parsed yet. */
  datatype Client = Client(db: int, authenticated: bool, unread: Bytes, open: bool)

  /** A new connection starts on database 0, and needs AUTH only if a password is set. */
  function Accepted(password: Bytes): Client {
    Client(0, password == "", "", true)
  }

  /** What one turn of the connection's loop comes to. A negative length panics, which ends the whole process. */
  datatype Outcome =
    | Waits
    | Closes
    | Panics
    | Answers(client: Client)
    | Asks(value: Value, client: Client)

  /** `handleAuth`. */
  function Authenticates(args: seq<Bytes>, password: Bytes): bool {
    password == "" || (|args| == 1 && args[0] == password)
  }

  /** One turn of `handleConnection`: AUTH, SELECT and the subscriptions never reach a database. */
  function Turn(c: Client, password: Bytes): (r: Outcome)
    ensures r.Answers? || r.Asks? ==> |r.client.unread| < |c.unread|
  {
    match Decode(c.unread)
    case Stopped(NegativeLength) => Panics
    case Stopped(e) => if Truncated(e) then Waits else Closes
    case Got(v, rest) =>
      var next := c.(unread := rest);
      if !v.Array? || v.items == [] then Answers(next)
      else
        var name, args := ToUpper(Str(v.items[0])), ArgsOf(v);
        if name == "AUTH" then Answers(next.(authenticated := Authenticates(args, password)))
        else if !c.authenticated then Answers(next)
        else if name == "SELECT" then Answers(next.(db := SelectIndex(args, c.db)))
        else if name == "SUBSCRIBE" || name == "UNSUBSCRIBE" then Answers(next)
        else Asks(v, next)
  }

  /** A request comes off the wire well formed, and only from a client that may run commands. */
  lemma AskedIsWellFormed(c: Client, password: Bytes)
    requires Turn(c, password).Asks?
    ensures c.authenticated && WellFormed(Turn(c, password).value) && !IsSelect(Turn(c, password).value)
    ensures Turn(c, password).client.db == c.db && Turn(c, password).client.open == c.open
  {
    DecodedIsSendable(c.unread);
    hide Decode, Sendable;
  }

  // ----------------------------------------------------------------- the server

  datatype World = World(server: Server, clients: seq<Client>)

  /** What can happen next; `Backstage` is a sweep, a restart or a crash. */
  datatype Action =
    | Connect
    | Receive(client: nat, bytes: Bytes)
    | Serve(client: nat, env: Env, picks: Picks)
    | Backstage(event: Event)

  predicate Serving(w: World, client: nat) {
    client < |w.clients| && w.clients[client].open
  }

  /** The step of the machine in `Recovery` that an action comes to, if any. */
  function EventOf(w: World, password: Bytes, action: Action): Option<Event> {
    match action
    case Serve(i, e, picks) =>
      if !Serving(w, i) then None
      else
        (match Turn(w.clients[i], password)
         case Asks(v, _) => if w.clients[i].db >= 0 then Some(Request(w.clients[i].db, v, e)) else None
         case Panics => Some(Restart(e.now, picks))
         case _ => None)
    case Backstage(ev) => if ev.Request? then None else Some(ev)
    case _ => None
  }

  /** What becomes of the connections: none survives the process. */
  function ClientsAfter(w: World, password: Bytes, action: Action): seq<Client> {
    match action
    case Connect => w.clients + [Accepted(password)]
    case Receive(i, bytes) =>
      if Serving(w, i) then w.clients[i := Fed(w.clients[i], bytes)] else w.clients
    case Serve(i, _, _) =>
      if !Serving(w, i) then w.clients
      else
        (match Turn(w.clients[i], password)
         case Waits => w.clients
         case Closes => w.clients[i := w.clients[i].(open := false)]
         case Panics => []
         case Answers(c) => w.clients[i := c]
         case Asks(_, c) => w.clients[i := c])
    case Backstage(ev) => if ev.Restart? || ev.Crash? then [] else w.clients
  }

  function Fed(c: Client, bytes: Bytes): Client {
    c.(unread := c.unread + bytes)
  }

  ghost predicate Sound(w: World) {
    |w.server.dbs| == NUM_DATABASES &&
    forall i :: 0 <= i < |w.clients| ==> 0 <= w.clients[i].db < NUM_DATABASES
  }

  lemma EventIsValid(w: World, password: Bytes, action: Action)
    requires Sound(w)
    ensures EventOf(w, password, action).Some? ==> ValidEvent(EventOf(w, password, action).value)
  {
    hide Turn, WellFormed;
    if action.Serve? && Serving(w, action.client) && Turn(w.clients[action.client], password).Asks? {
      AskedIsWellFormed(w.clients[action.client], password);
    }
  }

  lemma TurnKeepsIndex(c: Client, password: Bytes)
    requires 0 <= c.db < NUM_DATABASES
    ensures var r := Turn(c, password); r.Answers? || r.Asks? ==> 0 <= r.client.db < NUM_DATABASES
  {
    hide Decode;
  }

  lemma ClientsStaySound(w: World, password: Bytes, action: Action)
    requires Sound(w)
    ensures forall i :: 0 <= i < |ClientsAfter(w, password, action)| ==>
              0 <= ClientsAfter(w, password, action)[i].db < NUM_DATABASES
  {
    hide Turn;
    if action.Serve? && Serving(w, action.client) {
      TurnKeepsIndex(w.clients[action.client], password);
    }
  }

  ghost function Act(w: World, password: Bytes, action: Action): World
    requires Sound(w)
  {
    var ev := EventOf(w, password, action);
    EventIsValid(w, password, action);
    World(if ev.Some? then Step(w.server, ev.value) else w.server, ClientsAfter(w, password, action))
  }

  /** The state after a trace of actions. */
  ghost function After(trace: seq<Action>, password: Bytes): (w: World)
    ensures Sound(w)
  {
    if trace == [] then World(Server(FreshDBs(NUM_DATABASES), "", -1), [])
    else
      var before, action := After(trace[..|trace| - 1], password), trace[|trace| - 1];
      EventIsValid(before, password, action);
      ClientsStaySound(before, password, action);
      Act(before, password, action)
  }

  /** The run of the machine that a trace comes to. */
  ghost function EventsOf(trace: seq<Action>, password: Bytes): seq<Event> {
    if trace == [] then []
    else
      var before := trace[..|trace| - 1];
      match EventOf(After(before, password), password, trace[|trace| - 1])
      case None => EventsOf(before, password)
      case Some(ev) => EventsOf(before, password) + [ev]
  }

  /**
   Whatever bytes arrive on however many connections, the databases and the log file go through a run of the
   machine: every index is in range and every logged value can be read back.
   */
  lemma {:induction false} SessionsAreRuns(trace: seq<Action>, password: Bytes)
    ensures ValidRun(EventsOf(trace, password))
    ensures Run(EventsOf(trace, password)) == After(trace, password).server
  {
    if trace != [] {
      var before, action := trace[..|trace| - 1], trace[|trace| - 1];
      SessionsAreRuns(before, password);
      var w, run := After(before, password), EventsOf(before, password);
      EventIsValid(w, password, action);
      var ev := EventOf(w, password, action);
      hide EventOf, ClientsAfter;
      if ev.Some? {
        var longer := run + [ev.value];
        assert longer[..|longer| - 1] == run;
      }
    }
  }

  // ------------------------------------------------------------ pieces of a stream

  /** Everything a connection does with the bytes it has: its requests, each with its database, in order. */
  function Drained(c: Client, password: Bytes): (seq<(int, Value)>, Client)
    decreases |c.unread|
  {
    if !c.open then ([], c)
    else
      match Turn(c, password)
      case Waits => ([], c)
      case Answers(next) => Drained(next, password)
      case Asks(v, next) => var (more, last) := Drained(next, password); ([(c.db, v)] + more, last)
      case _ => ([], c.(open := false))
  }

  /** A turn that does not wait does the same with more bytes behind it. */
  lemma TurnStable(c: Client, password: Bytes, bytes: Bytes)
    requires !Turn(c, password).Waits?
    ensures var r := Turn(c, password);
            Turn(Fed(c, bytes), password) ==
            match r
            case Answers(next) => Answers(Fed(next, bytes))
            case Asks(v, next) => Asks(v, Fed(next, bytes))
            case _ => r
  {
    DecodeStable(c.unread, bytes);
    hide Decode;
  }

  /**
   How a client's bytes are split into packets makes no difference to what it asks for, nor to the state its
   connection is left in.
   */
  lemma {:induction false} PacketsMakeNoDifference(c: Client, password: Bytes, later: Bytes)
    ensures var (asked, settled) := Drained(c, password);
            Drained(Fed(c, later), password) ==
            (asked + Drained(Fed(settled, later), password).0, Drained(Fed(settled, later), password).1)
    decreases |c.unread|
  {
    assert forall s: seq<(int, Value)> :: [] + s == s;
    if c.open && !Turn(c, password).Waits? {
      TurnStable(c, password, later);
      hide Turn;
      match Turn(c, password) {
        case Answers(next) => PacketsMakeNoDifference(next, password, later);
        case Asks(v, next) =>
          PacketsMakeNoDifference(next, password, later);
          var (more, last) := Drained(next, password);
          Assoc([(c.db, v)], more, Drained(Fed(last, later), password).0);
        case _ =>
      }
    }
  }
}
