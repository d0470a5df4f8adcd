/**
 What one connection's bytes do, for requests in the words on the wire: AUTH and SELECT act on the connection
 alone, and a request goes to the database the connection selected last.
 */
module WireSessions {
  import opened Wrappers
  import opened GoText
  import opened Resp
  import opened Keyspace
  import opened Commands
  import opened Recovery
  import opened Sessions
  import opened Wire
  import Formats
  import WireServer
  import WireStrings

  /** The words are short enough for a length to be written in front of them. */
  predicate Fit(ws: seq<Bytes>) {
    |ws| <= MAX64 && forall i :: 0 <= i < |ws| ==> |ws[i]| <= MAX64
  }

  lemma FitIsSendable(ws: seq<Bytes>)
    requires Fit(ws)
    ensures Sendable(Words(ws))
  {
  }

  /** The connection's unread bytes start with a request. */
  predicate Sent(c: Client, ws: seq<Bytes>, rest: Bytes) {
    ws != [] && Fit(ws) && c.unread == Encode(Words(ws)) + rest
  }

  lemma IsRead(c: Client, ws: seq<Bytes>, rest: Bytes)
    requires Sent(c, ws, rest)
    ensures Decode(c.unread) == Got(Words(ws), rest)
    ensures Words(ws).items != [] && Str(Words(ws).items[0]) == ws[0] && ArgsOf(Words(ws)) == ws[1..]
  {
    FitIsSendable(ws);
    hide Sendable, Fit, Encode, Decode;
    RoundTrip(Words(ws), rest);
    assert ws == [ws[0]] + ws[1..];
    Parts(ws[0], ws[1..]);
  }

  /** The connection's loop, with the parser out of the way. */
  lemma TurnIs(c: Client, password: Bytes, ws: seq<Bytes>, rest: Bytes)
    requires Sent(c, ws, rest)
    ensures var name, next := ToUpper(ws[0]), c.(unread := rest);
            Turn(c, password) ==
            if name == "AUTH" then Answers(next.(authenticated := Authenticates(ws[1..], password)))
            else if !c.authenticated then Answers(next)
            else if name == "SELECT" then Answers(next.(db := SelectIndex(ws[1..], c.db)))
            else if name == "SUBSCRIBE" || name == "UNSUBSCRIBE" then Answers(next)
            else Asks(Words(ws), next)
  {
    IsRead(c, ws, rest);
    hide Sent, Encode, Decode, ToUpper, ArgsOf, SelectIndex, Authenticates;
  }

  lemma Upper()
    ensures ToUpper("AUTH") == "AUTH" && ToUpper("SELECT") == "SELECT" && ToUpper("SET") == "SET"
  {
    Capitals("AUTH");
    Capitals("SELECT");
    Capitals("SET");
  }

  // ---------------------------------------------------------------------- AUTH

  /** AUTH lets a client in exactly when it gives the password and nothing else, or none is set. */
  lemma Authenticating(c: Client, password: Bytes, a: seq<Bytes>, rest: Bytes)
    requires Sent(c, ["AUTH"] + a, rest)
    ensures Turn(c, password) ==
            Answers(c.(unread := rest, authenticated := password == "" || a == [password]))
  {
    Upper();
    var ws := ["AUTH"] + a;
    assert ws[1..] == a;
    hide Sent, ToUpper, Turn;
    TurnIs(c, password, ws, rest);
    assert |a| == 1 && a[0] == password <==> a == [password];
  }

  /** Until then nothing it says has any effect. */
  lemma LockedOut(c: Client, password: Bytes, ws: seq<Bytes>, rest: Bytes)
    requires Sent(c, ws, rest) && !c.authenticated && ToUpper(ws[0]) != "AUTH"
    ensures Turn(c, password) == Answers(c.(unread := rest))
  {
    hide Sent, ToUpper, Turn;
    TurnIs(c, password, ws, rest);
  }

  // -------------------------------------------------------------------- SELECT

  /** SELECT moves the connection to the database it names, if there is one of that number. */
  lemma Selecting(c: Client, password: Bytes, i: int64, rest: Bytes)
    requires c.authenticated && Sent(c, ["SELECT", Itoa(i)], rest)
    ensures Turn(c, password) == Answers(c.(unread := rest, db := if 0 <= i < 16 then i else c.db))
  {
    Upper();
    AtoiOfItoa(i);
    var ws := ["SELECT", Itoa(i)];
    assert ws[1..] == [Itoa(i)];
    hide Sent, ToUpper, Turn, Itoa, Atoi;
    TurnIs(c, password, ws, rest);
  }

  /** Anything else it is given leaves the connection where it is. */
  lemma SelectingNothing(c: Client, password: Bytes, a: seq<Bytes>, rest: Bytes)
    requires c.authenticated && Sent(c, ["SELECT"] + a, rest)
    requires |a| == 1 ==> Atoi(a[0]).None? || !(0 <= Atoi(a[0]).value < 16)
    ensures Turn(c, password) == Answers(c.(unread := rest))
  {
    Upper();
    var ws := ["SELECT"] + a;
    assert ws[1..] == a;
    hide Sent, ToUpper, Turn, Atoi;
    TurnIs(c, password, ws, rest);
  }

  // ------------------------------------------------------------------ requests

  /** The words a connection answers itself. */
  predicate OwnWord(name: Bytes) {
    name == "AUTH" || name == "SELECT" || name == "SUBSCRIBE" || name == "UNSUBSCRIBE"
  }

  lemma Asking(c: Client, password: Bytes, ws: seq<Bytes>, rest: Bytes)
    requires c.authenticated && Sent(c, ws, rest) && !OwnWord(ToUpper(ws[0]))
    ensures Turn(c, password) == Asks(Words(ws), c.(unread := rest))
  {
    hide Sent, ToUpper, Turn;
    TurnIs(c, password, ws, rest);
  }

  /** A connection's turn does nothing to any other connection. */
  lemma OthersStay(w: World, password: Bytes, i: nat, e: Env, picks: Picks, next: Client)
    requires Sound(w) && Serving(w, i) && Turn(w.clients[i], password) == Answers(next)
    ensures Act(w, password, Serve(i, e, picks)) == World(w.server, w.clients[i := next])
  {
    hide Turn, ValidEvent, Step;
  }

  lemma AskedIsStepped(w: World, password: Bytes, i: nat, e: Env, picks: Picks, v: Value, next: Client)
    requires Sound(w) && Serving(w, i) && Turn(w.clients[i], password) == Asks(v, next)
    ensures 0 <= w.clients[i].db < 16 && ValidEvent(Request(w.clients[i].db, v, e))
    ensures Act(w, password, Serve(i, e, picks)) ==
            World(Step(w.server, Request(w.clients[i].db, v, e)), w.clients[i := next])
  {
    EventIsValid(w, password, Serve(i, e, picks));
    hide Turn, ValidEvent, Step;
  }

  /**
   A client that says SELECT d and then makes a request has it run on database d and on no other, whatever
   database it was on, and logged for d.
   */
  lemma SelectThenAsk(w: World, password: Bytes, i: nat, d: int64, ws: seq<Bytes>, rest: Bytes,
                      e: Env, e2: Env, picks: Picks)
    requires Sound(w) && Serving(w, i) && w.clients[i].authenticated && 0 <= d < 16
    requires ws != [] && Fit(ws) && !OwnWord(ToUpper(ws[0]))
    requires Sent(w.clients[i], ["SELECT", Itoa(d)], Encode(Words(ws)) + rest)
    ensures var first := Act(w, password, Serve(i, e, picks));
            && Sound(first)
            && first.server == w.server
            && var second := Act(first, password, Serve(i, e2, picks));
               && second.server.dbs == w.server.dbs[d := Ask(ws, w.server.dbs[d], e2).0]
               && second.clients == w.clients[i := w.clients[i].(db := d, unread := rest)]
               && WellFormed(Words(ws)) && second.server == Step(w.server, Request(d, Words(ws), e2))
  {
    var c := w.clients[i];
    var moved := c.(unread := Encode(Words(ws)) + rest, db := d);
    Selecting(c, password, d, Encode(Words(ws)) + rest);
    OthersStay(w, password, i, e, picks, moved);
    var first := World(w.server, w.clients[i := moved]);
    assert Sent(moved, ws, rest);
    FitIsSendable(ws);
    hide *;
    Asking(moved, password, ws, rest);
    assert Sound(first) by { StillSound(w, i, moved); }
    AskedIsStepped(first, password, i, e2, picks, Words(ws), moved.(unread := rest));
    WireServer.OneDatabase(w.server, d, ws, e2);
  }

  lemma StillSound(w: World, i: nat, c: Client)
    requires Sound(w) && i < |w.clients| && 0 <= c.db < NUM_DATABASES
    ensures Sound(World(w.server, w.clients[i := c]))
  {
  }

  lemma OneMore(before: seq<Action>, password: Bytes, action: Action)
    ensures After(before + [action], password) == Act(After(before, password), password, action)
  {
    var trace := before + [action];
    assert trace[..|trace| - 1] == before;
    hide Act, EventOf, ClientsAfter;
  }

  lemma Opening(bytes: Bytes)
    ensures After([Connect, Receive(0, bytes)], "") ==
            World(Server(FreshDBs(16), "", -1), [Client(0, true, bytes, true)])
  {
    OneMore([], "", Connect);
    OneMore([Connect], "", Receive(0, bytes));
    assert [] + [Connect] == [Connect] && [Connect] + [Receive(0, bytes)] == [Connect, Receive(0, bytes)];
    assert "" + bytes == bytes;
    hide Turn, Step, ValidEvent;
  }

  /** The bytes of SELECT d and then of SET k v. */
  function SelectBytes(d: int64): Bytes {
    Encode(Words(["SELECT", Itoa(d)]))
  }

  function SetBytes(k: Bytes, v: Bytes): Bytes {
    Encode(Words(["SET", k, v]))
  }

  lemma FirstTurns(w: World, d: int64, k: Bytes, v: Bytes, e: Env, picks: Picks) returns (end: Server)
    requires 0 <= d < 16 && Fit(["SET", k, v])
    requires w == World(Server(FreshDBs(16), "", -1), [Client(0, true, SelectBytes(d) + SetBytes(k, v), true)])
    ensures Sound(w) && Sound(Act(w, "", Serve(0, e, picks)))
    ensures Act(Act(w, "", Serve(0, e, picks)), "", Serve(0, e, picks)).server == end
    ensures WellFormed(Words(["SET", k, v])) && end == Step(w.server, Request(d, Words(["SET", k, v]), e))
  {
    Upper();
    SelectFits(d);
    assert SetBytes(k, v) + "" == SetBytes(k, v);
    hide Act, Step, Encode, Fit, ToUpper, Itoa;
    SelectThenAsk(w, "", 0, d, ["SET", k, v], "", e, e, picks);
    end := Step(w.server, Request(d, Words(["SET", k, v]), e));
  }

  lemma FirstLogged(d: int64, k: Bytes, v: Bytes, e: Env)
    requires 0 <= d < 16 && WellFormed(Words(["SET", k, v]))
    ensures var s := Step(Server(FreshDBs(16), "", -1), Request(d, Words(["SET", k, v]), e));
            && s.dbs == FreshDBs(16)[d := DB(map[k := v], map[], map[], map[], map[])]
            && s.file == SelectBytes(d) + SetBytes(k, v)
  {
    Upper();
    assert "" + SelectBytes(d) == SelectBytes(d);
    hide Encode, Step, WellFormed, ToUpper, Itoa, Ask, Words;
    FirstStored(k, v, d, e);
    WireServer.OneDatabase(Server(FreshDBs(16), "", -1), d, ["SET", k, v], e);
  }

  /**
   From the first connection on a server without a password: SELECT d and SET k v put the text in database d
   alone, and in the file as they were sent.
   */
  lemma SelectThenSet(d: int64, k: Bytes, v: Bytes, e: Env, picks: Picks)
    requires 0 <= d < 16 && Fit(["SET", k, v])
    ensures var bytes, turn := SelectBytes(d) + SetBytes(k, v), Serve(0, e, picks);
            var s := After([Connect, Receive(0, bytes), turn, turn], "").server;
            && s.dbs == FreshDBs(16)[d := DB(map[k := v], map[], map[], map[], map[])]
            && s.file == bytes
  {
    var bytes, turn := SelectBytes(d) + SetBytes(k, v), Serve(0, e, picks);
    var start := [Connect, Receive(0, bytes)];
    assert start + [turn] + [turn] == [Connect, Receive(0, bytes), turn, turn];
    hide *;
    Opening(bytes);
    OneMore(start, "", turn);
    OneMore(start + [turn], "", turn);
    var _ := FirstTurns(After(start, ""), d, k, v, e, picks);
    FirstLogged(d, k, v, e);
  }

  lemma FirstStored(k: Bytes, v: Bytes, d: int64, e: Env)
    requires 0 <= d < 16
    ensures Ask(["SET", k, v], FreshDBs(16)[d], e) == (DB(map[k := v], map[], map[], map[], map[]), OK)
  {
    hide Ask;
    WireStrings.Setting(k, v, FreshDBs(16)[d], e);
    assert map[][k := v] == map[k := v];
    var none: map<Bytes, int> := map[];
    assert none - {k} == none;
  }

  lemma SelectFits(d: int64)
    requires 0 <= d < 16
    ensures Fit(["SELECT", Itoa(d)])
  {
  }

  // ------------------------------------------------------- connections that end

  /**
   A connection starts on database 0; bytes are added to the connection they come on; a start of the process, also
   after a crash, leaves no connection, and a sweep leaves all of them as they are.
   */
  lemma ConnectionsComeAndGo(w: World, password: Bytes, i: nat, bytes: Bytes, ev: Event)
    requires Sound(w) && Serving(w, i) && !ev.Request?
    ensures Act(w, password, Connect) == World(w.server, w.clients + [Client(0, password == "", "", true)])
    ensures Act(w, password, Receive(i, bytes)) ==
            World(w.server, w.clients[i := w.clients[i].(unread := w.clients[i].unread + bytes)])
    ensures ValidEvent(ev)
    ensures Act(w, password, Backstage(ev)) == World(Step(w.server, ev), if ev.SweepAll? then w.clients else [])
  {
    hide Step, Turn;
  }

  lemma TurnStops(c: Client, password: Bytes, error: ReadError)
    requires Decode(c.unread) == Stopped(error)
    ensures Turn(c, password) ==
            if error == NegativeLength then Panics else if error == Malformed then Closes else Waits
  {
    hide Decode;
  }

  /**
   A length below -1 ends the process and every connection with it; a byte that starts no value ends the
   connection that sent it and no other; a connection without unread bytes waits.
   */
  lemma BadBytes(w: World, password: Bytes, i: nat, e: Env, picks: Picks, kind: char, n: int64, rest: Bytes)
    requires Sound(w) && Serving(w, i) && n < -1 && (kind == '$' || kind == '*')
    ensures var c, next := w.clients[i], Act(w, password, Serve(i, e, picks));
            && (c.unread == [kind] + Itoa(n) + "\r\n" + rest ==>
                  next == World(Step(w.server, Restart(e.now, picks)), []))
            && (c.unread != "" && c.unread[0] !in "+-:$*" ==>
                  next == World(w.server, w.clients[i := c.(open := false)]))
            && (c.unread == "" ==> next == w)
  {
    var c := w.clients[i];
    hide Step, Decode, Turn, ValidEvent;
    if c.unread == [kind] + Itoa(n) + "\r\n" + rest {
      Formats.NegativeLengths(n, rest);
      TurnStops(c, password, NegativeLength);
    } else if c.unread != "" && c.unread[0] !in "+-:$*" {
      Formats.NoSuchKind(c.unread[0], c.unread[1..]);
      assert c.unread == [c.unread[0]] + c.unread[1..];
      TurnStops(c, password, Malformed);
    } else if c.unread == "" {
      Formats.NoSuchKind('+', "");
      TurnStops(c, password, EOF);
    }
  }
}
