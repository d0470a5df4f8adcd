/**
 The bytes themselves: decimal texts, requests and replies on the wire, and the snapshot file, written out.
 */
module Formats {
  import opened Wrappers
  import opened GoText
  import opened Sequences
  import opened Resp
  import opened Wire

  // ------------------------------------------------------------- decimal text

  /** Digits without a leading zero, as numbers are written. */
  predicate Canonical(s: Bytes) {
    s != "" && AllDigits(s) && (s[0] == '0' ==> |s| == 1)
  }

  /** Digits count tenfold from right to left. */
  lemma DigitsCount(s: Bytes, c: char)
    requires AllDigits(s) && '0' <= c <= '9'
    ensures AllDigits("") && Magnitude("") == 0
    ensures AllDigits(s + [c]) && Magnitude(s + [c]) == 10 * Magnitude(s) + (c as int - '0' as int)
  {
    var longer := s + [c];
    assert longer[..|longer| - 1] == s;
  }

  lemma {:induction false} CanonicalGrows(s: Bytes)
    requires Canonical(s) && |s| > 1
    ensures Canonical(s[..|s| - 1]) && Magnitude(s) == 10 * Magnitude(s[..|s| - 1]) + DigitValue(s[|s| - 1])
    ensures Magnitude(s[..|s| - 1]) > 0
    decreases |s|
  {
    var front := s[..|s| - 1];
    if |front| > 1 {
      CanonicalGrows(front);
    } else {
      assert front[..0] == "";
    }
  }

  lemma {:induction false} DecimalIsCanonical(n: nat)
    ensures Canonical(Decimal(n)) && (Decimal(n)[0] == '0' <==> n == 0)
  {
    if n >= 10 {
      DecimalIsCanonical(n / 10);
    }
  }

  lemma {:induction false} CanonicalIsDecimal(s: Bytes)
    requires Canonical(s)
    ensures Decimal(Magnitude(s)) == s
    decreases |s|
  {
    var front, last := s[..|s| - 1], s[|s| - 1];
    assert s == front + [last];
    if |s| == 1 {
      assert front == "";
      assert Magnitude(s) == DigitValue(last);
    } else {
      CanonicalGrows(s);
      CanonicalIsDecimal(front);
    }
  }

  /**
   The text of a number is the one text without a leading zero, and for a negative one with a minus sign, whose
   digits count up to it.
   */
  lemma TextIsCanonical(n: int, s: Bytes)
    ensures n >= 0 ==> (s == Itoa(n) <==> Canonical(s) && Magnitude(s) == n)
    ensures n < 0 ==> (s == Itoa(n) <==> s != "" && s[0] == '-' && Canonical(s[1..]) && Magnitude(s[1..]) == 0 - n)
  {
    var m := if n < 0 then 0 - n else n;
    DecimalIsCanonical(m);
    MagnitudeOfDecimal(m);
    if n >= 0 {
      if Canonical(s) && Magnitude(s) == n {
        CanonicalIsDecimal(s);
      }
    } else {
      if s != "" && s[0] == '-' && Canonical(s[1..]) && Magnitude(s[1..]) == m {
        CanonicalIsDecimal(s[1..]);
        assert s == "-" + s[1..];
      }
    }
  }

  lemma SignsAreRead(digits: Bytes, n: int64)
    requires digits != "" && AllDigits(digits) && Magnitude(digits) == n
    ensures Atoi("+" + digits) == Some(n) && Atoi("-" + digits) == Some(0 - n)
  {
    var plus, minus := "+" + digits, "-" + digits;
    assert plus[1..] == digits && minus[1..] == digits;
    assert Unsigned(plus) == digits && Unsigned(minus) == digits;
    hide Magnitude, AllDigits;
  }

  lemma PlainIsRead(digits: Bytes, n: int64)
    requires digits != "" && AllDigits(digits) && Magnitude(digits) == n
    ensures Atoi(digits) == Some(n)
  {
    assert IsDigit(digits[0]);
    hide Magnitude, AllDigits;
  }

  /** Numbers are read with or without a sign, and with any number of leading zeros. */
  lemma NumbersAreRead(digits: Bytes, n: int64)
    requires digits != "" && AllDigits(digits) && Magnitude(digits) == n
    ensures Atoi(digits) == Some(n) && Atoi("+" + digits) == Some(n) && Atoi("-" + digits) == Some(0 - n)
    ensures AllDigits("0" + digits) && Atoi("0" + digits) == Some(n)
  {
    hide *;
    ZeroInFront(digits);
    SignsAreRead(digits, n);
    PlainIsRead(digits, n);
    PlainIsRead("0" + digits, n);
  }

  /** Nothing else is: no digits at all, another character anywhere, or a number that takes more than 64 bits. */
  lemma NothingElseIsRead(s: Bytes, i: nat)
    ensures Atoi("") == None && Atoi("-") == None && Atoi("+") == None
    ensures i < |s| && !IsDigit(s[i]) && (i > 0 || (s[0] != '-' && s[0] != '+')) ==> Atoi(s) == None
    ensures s != "" && AllDigits(s) && Magnitude(s) > MAX64 ==> Atoi(s) == None
  {
    assert Unsigned("-") == "" && Unsigned("+") == "";
    var digits := Unsigned(s);
    if i < |s| && !IsDigit(s[i]) && (i > 0 || (s[0] != '-' && s[0] != '+')) {
      assert digits[if Signed(s) then i - 1 else i] == s[i];
    } else if s != "" && AllDigits(s) {
      assert IsDigit(s[0]);
    }
  }

  lemma {:induction false} ZeroInFront(s: Bytes)
    requires AllDigits(s)
    ensures AllDigits("0" + s) && Magnitude("0" + s) == Magnitude(s)
    decreases |s|
  {
    var longer := "0" + s;
    if s == "" {
      assert longer[..0] == "";
    } else {
      ZeroInFront(s[..|s| - 1]);
      assert longer[..|longer| - 1] == "0" + s[..|s| - 1];
    }
  }

  // ------------------------------------------------------------------ requests

  /** Each word behind its length. */
  function Bulked(ws: seq<Bytes>): Bytes {
    if ws == [] then "" else "$" + Itoa(|ws[0]|) + "\r\n" + ws[0] + "\r\n" + Bulked(ws[1..])
  }

  lemma {:induction false} EachWord(ws: seq<Bytes>)
    ensures EncodeAll(Words(ws).items) == Bulked(ws)
    decreases ws
  {
    if ws != [] {
      EachWord(ws[1..]);
      assert Words(ws).items[1..] == Words(ws[1..]).items;
    }
  }

  /** A request on the wire: how many words, and each word behind its length. */
  lemma RequestBytes(ws: seq<Bytes>)
    ensures Encode(Words(ws)) == "*" + Itoa(|ws|) + "\r\n" + Bulked(ws)
  {
    EachWord(ws);
  }

  /** The bytes of each kind of reply. */
  lemma ReplyBytes(s: Bytes, n: int, items: seq<Value>)
    ensures Encode(SimpleString(s)) == "+" + s + "\r\n"
    ensures Encode(SimpleError(s)) == "-" + s + "\r\n"
    ensures Encode(Integer(n)) == ":" + Itoa(n) + "\r\n"
    ensures Encode(BulkString(s)) == "$" + Itoa(|s|) + "\r\n" + s + "\r\n"
    ensures Encode(Array(items)) == "*" + Itoa(|items|) + "\r\n" + EncodeAll(items)
    ensures Encode(Null) == "$-1\r\n"
  {
  }

  // ------------------------------------------------------------- odd requests

  lemma SmallNumbers()
    ensures Itoa(-1) == "-1" && Itoa(1) == "1" && Itoa(2) == "2"
  {
  }

  /** Both lengths of -1 are read as nothing at all, and any other negative length ends the process. */
  lemma NegativeLengths(n: int64, rest: Bytes)
    requires n < 0
    ensures Decode("*" + Itoa(n) + "\r\n" + rest) == if n == -1 then Got(Null, rest) else Stopped(NegativeLength)
    ensures Decode("$" + Itoa(n) + "\r\n" + rest) == if n == -1 then Got(Null, rest) else Stopped(NegativeLength)
  {
    HeaderRoundTrip('*', n, rest);
    HeaderRoundTrip('$', n, rest);
    assert "*" + Itoa(n) + "\r\n" + rest == Header('*', n) + rest;
    assert "$" + Itoa(n) + "\r\n" + rest == Header('$', n) + rest;
  }

  /** The byte in front of the line feed is thrown away, whatever it is. */
  lemma AnyLineEnd(s: Bytes, c: char, rest: Bytes)
    requires NoLF(s) && c != '\n'
    ensures Decode("+" + s + [c] + "\n" + rest) == Got(SimpleString(s), rest)
    ensures Decode("-" + s + [c] + "\n" + rest) == Got(SimpleError(s), rest)
  {
    LineEnds(s, c, rest);
    var body := s + [c] + "\n" + rest;
    assert ("+" + s + [c] + "\n" + rest)[1..] == body && ("-" + s + [c] + "\n" + rest)[1..] == body;
  }

  lemma LineEnds(s: Bytes, c: char, rest: Bytes)
    requires NoLF(s) && c != '\n'
    ensures ReadLine(s + [c] + "\n" + rest) == Line(s, rest)
  {
    var line := s + [c];
    var all := line + ['\n'] + rest;
    FirstLFAt(line, rest);
    assert s + [c] + "\n" + rest == all;
    assert all[..|line| - 1] == s && all[|line| + 1..] == rest;
  }

  /** What stands between the end of a bulk string and the next line feed is thrown away. */
  lemma AnythingAfterBulk(s: Bytes, junk: Bytes, rest: Bytes)
    requires |s| <= MAX64 && NoLF(junk)
    ensures Decode("$" + Itoa(|s|) + "\r\n" + s + junk + "\n" + rest) == Got(BulkString(s), rest)
  {
    var body := s + junk + "\n" + rest;
    var all := Header('$', |s|) + body;
    assert "$" + Itoa(|s|) + "\r\n" + s + junk + "\n" + rest == all;
    hide *;
    HeaderRoundTrip('$', |s|, body);
    DecodeByPrefix(all);
    TakesBulk(s, junk, rest);
    BulkIs(all[1..], |s|, body);
  }

  lemma BulkIs(s: Bytes, n: int64, rest: Bytes)
    requires ReadNumber(s) == Length(n, rest) && n >= 0
    ensures DecodeBulk(s) == TakeBulk(n, rest)
  {
  }

  lemma TakesBulk(s: Bytes, junk: Bytes, rest: Bytes)
    requires NoLF(junk)
    ensures TakeBulk(|s|, s + junk + "\n" + rest) == Got(BulkString(s), rest)
  {
    var body := s + junk + "\n" + rest;
    var tail := junk + ['\n'] + rest;
    assert body[..|s|] == s && body[|s|..] == tail;
    FirstLFAt(junk, rest);
    assert tail[|junk| + 1..] == rest;
  }

  /** A bulk string cut short: before its first byte, within it, and before the line feed behind it. */
  lemma CutBulk(s: Bytes, n: int64, junk: Bytes)
    requires |s| < n && NoLF(junk)
    ensures Decode("$" + Itoa(n) + "\r\n" + s) == Stopped(if s == "" then EOF else UnexpectedEOF)
    ensures |s| <= MAX64 ==> Decode("$" + Itoa(|s|) + "\r\n" + (s + junk)) == Stopped(EOF)
  {
    CutBulkAt(s, n);
    HeaderRoundTrip('$', n, s);
    DecodeByPrefix(Header('$', n) + s);
    assert "$" + Itoa(n) + "\r\n" + s == Header('$', n) + s;
    hide *;
    BulkIs((Header('$', n) + s)[1..], n, s);
    if |s| <= MAX64 {
      NoLineEnd(s, junk);
    }
  }

  lemma CutBulkAt(s: Bytes, n: nat)
    requires |s| < n
    ensures TakeBulk(n, s) == Stopped(if s == "" then EOF else UnexpectedEOF)
  {
  }

  lemma NoLineEnd(s: Bytes, junk: Bytes)
    requires |s| <= MAX64 && NoLF(junk)
    ensures Decode("$" + Itoa(|s|) + "\r\n" + (s + junk)) == Stopped(EOF)
  {
    var body := s + junk;
    var all := Header('$', |s|) + body;
    assert "$" + Itoa(|s|) + "\r\n" + body == all;
    assert body[|s|..] == junk;
    assert FirstLF(junk) == |junk|;
    assert TakeBulk(|s|, body) == Stopped(EOF);
    hide *;
    HeaderRoundTrip('$', |s|, body);
    DecodeByPrefix(all);
    BulkIs(all[1..], |s|, body);
  }

  /** Any other first byte is no value at all, and neither is a line without a byte to spare. */
  lemma NoSuchKind(c: char, rest: Bytes)
    ensures c !in "+-:$*" ==> Decode([c] + rest) == Stopped(Malformed)
    ensures c in "+-:$*" ==> Decode([c] + "\n" + rest) == Stopped(Malformed)
    ensures Decode("") == Stopped(EOF)
  {
    var s := [c] + "\n" + rest;
    assert s[1..] == "\n" + rest;
    assert FirstLF("\n" + rest) == 0;
    assert ([c] + rest)[1..] == rest;
  }
}
