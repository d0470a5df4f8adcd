/** What a start makes of the log, for entries and markers in the words they were written in. */
module WireLog {
  import opened Wrappers
  import opened GoText
  import opened Sequences
  import opened Resp
  import opened Keyspace
  import opened Commands
  import opened AofLog
  import opened Recovery
  import opened Wire
  import opened WireSessions
  import Replay

  /** The index a marker leaves the reader at. */
  function Marked(text: Bytes, current: int): int {
    match Atoi(text)
    case Some(i) => i
    case None => current
  }

  lemma FirstWord(ws: seq<Bytes>, rest: Bytes)
    requires ws != [] && Fit(ws)
    ensures Decode(Encode(Words(ws)) + rest) == Got(Words(ws), rest)
    ensures Str(Words(ws).items[0]) == ws[0] && |Words(ws).items| == |ws|
    ensures |ws| > 1 ==> Str(Words(ws).items[1]) == ws[1]
  {
    FitIsSendable(ws);
    hide Encode, Decode, Fit, Sendable;
    RoundTrip(Words(ws), rest);
  }

  /**
   Two words of which the first is SELECT, in any case, are a marker, and the second says for which database the
   entries behind it are, unless it is no integer; everything else is an entry, for the database marked last.
   */
  lemma EntriesAndMarkers(ws: seq<Bytes>, rest: Bytes, current: int)
    requires ws != [] && Fit(ws)
    ensures var r := ReadLog(Encode(Words(ws)) + rest, current);
            if |ws| == 2 && ToUpper(ws[0]) == "SELECT" then r == ReadLog(rest, Marked(ws[1], current))
            else
              var more := ReadLog(rest, current);
              r == Recovered([Entry(current, Words(ws))] + more.entries, more.end)
  {
    FirstWord(ws, rest);
    hide Encode, Decode, Fit, ToUpper, Atoi, Words;
  }

  lemma NothingMore(current: int)
    ensures ReadLog("", current) == Recovered([], EOF)
  {
  }

  lemma TwoRequests(d: int64, k: Bytes, v: Bytes)
    requires 0 <= d < 16 && Fit(["SET", k, v])
    ensures ReadLog(SelectBytes(d) + SetBytes(k, v), 0).entries == [Entry(d, Words(["SET", k, v]))]
  {
    assert SetBytes(k, v) + "" == SetBytes(k, v);
    AtoiOfItoa(d);
    SelectFits(d);
    Upper();
    NothingMore(d);
    hide Encode, Fit, ReadLog, ToUpper, Itoa, Atoi;
    EntriesAndMarkers(["SELECT", Itoa(d)], SetBytes(k, v), 0);
    EntriesAndMarkers(["SET", k, v], "", d);
  }

  lemma SetReplayed(k: Bytes, v: Bytes, now: int, pick: Bytes)
    ensures ReplayValue(Words(["SET", k, v]), EMPTY_DB, now, pick) == DB(map[k := v], map[], map[], map[], map[])
  {
    StringNames();
    Parts("SET", [k, v]);
    assert ["SET"] + [k, v] == ["SET", k, v];
    hide FindCommand, Words, ToUpper;
    var none: map<Bytes, int> := map[];
    assert none - {k} == none;
  }

  lemma OneEntry(e: Entry, now: int, picks: Picks)
    requires 0 <= e.db < 16
    ensures ReplayAll([e], now, picks) == FreshDBs(16)[e.db := ReplayValue(e.value, EMPTY_DB, now, picks(0))]
  {
    assert [e][..0] == [];
    assert ReplayAll([e][..0], now, picks) == FreshDBs(16);
    hide ReplayValue;
  }

  /** The file of one SELECT d and one SET k v is a database d with that text, and fifteen empty ones. */
  lemma SelectThenSetIsRecovered(d: int64, k: Bytes, v: Bytes, now: int, picks: Picks)
    requires 0 <= d < 16 && Fit(["SET", k, v])
    ensures Recover(SelectBytes(d) + SetBytes(k, v), now, picks) ==
            FreshDBs(16)[d := DB(map[k := v], map[], map[], map[], map[])]
  {
    var e := Entry(d, Words(["SET", k, v]));
    hide SelectBytes, SetBytes, Words, Fit, ReplayValue, ReadLog, ReplayAll;
    TwoRequests(d, k, v);
    OneEntry(e, now, picks);
    SetReplayed(k, v, now, picks(0));
  }

  /**
   Replay counts arguments less strictly than the handlers: SET and INCR are replayed with any words behind them,
   and MSET only if its words are paired.
   */
  lemma ReplayIsLenient(k: Bytes, v: Bytes, more: seq<Bytes>, db: DB, now: int, pick: Bytes, n: int64)
    ensures ReplayValue(Words(["SET"] + ([k, v] + more)), db, now, pick) ==
            db.(store := db.store[k := v], expires := db.expires - {k})
    ensures |more| % 2 == 1 ==> ReplayValue(Words(["MSET"] + ([k, v] + more)), db, now, pick) == db
    ensures k in db.store && Atoi(db.store[k]) == Some(n) && n < MAX64 ==>
              ReplayValue(Words(["INCR"] + ([k] + more)), db, now, pick) ==
              db.(store := db.store[k := Itoa(n + 1)])
  {
    StringNames();
    KeysNames();
    Parts("SET", [k, v] + more);
    Parts("MSET", [k, v] + more);
    Parts("INCR", [k] + more);
    hide FindCommand, Words, ToUpper;
    ReplaysSet(k, v, more, db, now, pick);
    ReplaysIncr(k, more, db, now, pick, n);
  }

  lemma ReplaysSet(k: Bytes, v: Bytes, more: seq<Bytes>, db: DB, now: int, pick: Bytes)
    ensures Replay.Replay(OnString(SET), [k, v] + more, db, now, pick) ==
            db.(store := db.store[k := v], expires := db.expires - {k})
    ensures |more| % 2 == 1 ==> Replay.Replay(OnKeys(MSET), [k, v] + more, db, now, pick) == db
  {
    var s := At(db, k).(text := Some(v), deadline := None);
    OnePart(db, k, s);
    hide With;
  }

  lemma ReplaysIncr(k: Bytes, more: seq<Bytes>, db: DB, now: int, pick: Bytes, n: int64)
    ensures k in db.store && Atoi(db.store[k]) == Some(n) && n < MAX64 ==>
              Replay.Replay(OnString(INCR), [k] + more, db, now, pick) ==
              db.(store := db.store[k := Itoa(n + 1)])
  {
    if k in db.store && Atoi(db.store[k]) == Some(n) && n < MAX64 {
      ParseIntAgreesWithAtoi(db.store[k]);
      var s := At(db, k).(text := Some(Itoa(n + 1)));
      OnePart(db, k, s);
      hide With, Atoi, LooseInt, Itoa;
    }
  }
}
