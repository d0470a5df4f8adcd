/**
 Go's 64-bit `int` and the conversions between integers and decimal text.

 A Go string is a sequence of bytes; here it is a sequence of chars, one per byte.
 `Atoi` and `Itoa` stand for the functions of the same name in Go's strconv package.
 `LooseInt` and `LooseText` say what the source's own `parseInt` and `intToString` compute,
 and the methods `ParseInt` and `IntToString` are those loops.
 */
module GoText {
  import opened Wrappers

  type Bytes = string

  const MIN64 := -0x8000_0000_0000_0000
  const MAX64 := 0x7fff_ffff_ffff_ffff
  const TWO64 := 0x1_0000_0000_0000_0000

  type int64 = x: int | MIN64 <= x <= MAX64

  /** Two's complement wrap-around of Go's `int` arithmetic. */
  function Wrap(x: int): (r: int64) {
    if MIN64 <= x <= MAX64 then x else (x - MIN64) % TWO64 + MIN64
  }

  lemma WrapCongruent(x: int)
    ensures (x - Wrap(x)) % TWO64 == 0
  {
  }

  /** The one 64-bit integer whose negation is itself. */
  lemma NegateLeast()
    ensures Wrap(0 - MIN64) == MIN64
  {
  }

  lemma WrapUnique(x: int, y: int, k: int)
    requires x == y + TWO64 * k
    ensures Wrap(x) == Wrap(y)
  {
  }

  /** Wrapping inside an accumulator gives the same result as wrapping once at the end. */
  lemma WrapAccumulates(x: int, d: int)
    ensures Wrap(Wrap(x) * 10 + d) == Wrap(x * 10 + d)
    ensures Wrap(0 - Wrap(x)) == Wrap(0 - x)
  {
    WrapCongruent(x);
    var k := (x - Wrap(x)) / TWO64;
    assert x == Wrap(x) + TWO64 * k;
    WrapUnique(x * 10 + d, Wrap(x) * 10 + d, 10 * k);
    WrapUnique(0 - Wrap(x), 0 - x, k);
  }

  // ---------------------------------------------------------------- digits

  predicate IsDigit(c: char) {
    '0' <= c <= '9'
  }

  function DigitValue(c: char): nat
    requires IsDigit(c)
  {
    (c as int) - ('0' as int)
  }

  function DigitChar(d: nat): (c: char)
    requires d < 10
    ensures IsDigit(c) && DigitValue(c) == d
  {
    (d + ('0' as int)) as char
  }

  predicate AllDigits(s: Bytes) {
    forall i :: 0 <= i < |s| ==> IsDigit(s[i])
  }

  /** The number a run of decimal digits denotes, most significant digit first. */
  function Magnitude(s: Bytes): nat
    requires AllDigits(s)
  {
    if s == "" then 0 else Magnitude(s[..|s| - 1]) * 10 + DigitValue(s[|s| - 1])
  }

  /** The decimal digits of `n` without leading zeros. */
  function Decimal(n: nat): (s: Bytes)
    ensures s != "" && AllDigits(s)
  {
    if n < 10 then [DigitChar(n)] else Decimal(n / 10) + [DigitChar(n % 10)]
  }

  lemma {:induction false} MagnitudeOfDecimal(n: nat)
    ensures Magnitude(Decimal(n)) == n
  {
    var s := Decimal(n);
    if n < 10 {
      assert s[..|s| - 1] == "";
    } else {
      MagnitudeOfDecimal(n / 10);
      assert s[..|s| - 1] == Decimal(n / 10);
    }
  }

  predicate Signed(s: Bytes) {
    s != "" && (s[0] == '-' || s[0] == '+')
  }

  function Unsigned(s: Bytes): Bytes {
    if Signed(s) then s[1..] else s
  }

  function SignedMagnitude(s: Bytes): int
    requires AllDigits(Unsigned(s))
  {
    if s != "" && s[0] == '-' then 0 - Magnitude(Unsigned(s)) else Magnitude(Unsigned(s))
  }

  // ---------------------------------------------------------------- strconv

  /** strconv.Atoi: an optional sign, at least one digit, and a value that fits in 64 bits. */
  function Atoi(s: Bytes): Option<int64> {
    var digits := Unsigned(s);
    if digits != "" && AllDigits(digits) && MIN64 <= SignedMagnitude(s) <= MAX64
    then Some(SignedMagnitude(s))
    else None
  }

  /** strconv.Itoa. */
  function Itoa(n: int): (s: Bytes)
    ensures s != ""
    ensures forall i :: 0 <= i < |s| ==> s[i] == '-' || IsDigit(s[i])
  {
    if n < 0 then "-" + Decimal(0 - n) else Decimal(n)
  }

  lemma AtoiOfItoa(n: int64)
    ensures Atoi(Itoa(n)) == Some(n)
  {
    var s := Itoa(n);
    if n < 0 {
      MagnitudeOfDecimal(0 - n);
      assert Unsigned(s) == Decimal(0 - n);
    } else {
      MagnitudeOfDecimal(n);
      assert IsDigit(s[0]);
      assert Unsigned(s) == Decimal(n);
    }
  }

  // ------------------------------------------- the source's own conversions

  /** What `parseInt` returns: no range check, and nothing at all reads as zero. */
  function LooseInt(s: Bytes): Option<int64> {
    if AllDigits(Unsigned(s)) then Some(Wrap(SignedMagnitude(s))) else None
  }

  /** What `intToString` returns: negating -2^63 gives -2^63 again, so its digit loop never runs. */
  function LooseText(n: int64): Bytes {
    if n == MIN64 then "-" else Itoa(n)
  }

  /** One turn of the digit loop: accumulate with wrap-around. */
  lemma AccumulateDigit(s: Bytes, start: nat, i: nat)
    requires start <= i < |s| && AllDigits(s[start..i]) && IsDigit(s[i])
    ensures AllDigits(s[start..i + 1])
    ensures Wrap(Wrap(Magnitude(s[start..i])) * 10 + DigitValue(s[i])) == Wrap(Magnitude(s[start..i + 1]))
  {
    var longer := s[start..i + 1];
    assert longer == s[start..i] + [s[i]];
    assert longer[..|longer| - 1] == s[start..i];
    WrapAccumulates(Magnitude(s[start..i]), DigitValue(s[i]));
  }

  method ParseInt(s: Bytes) returns (r: Option<int64>)
    ensures r == LooseInt(s)
  {
    if s == "" {
      return Some(0);
    }
    var result: int64 := 0;
    var negative := s[0] == '-';
    var start := if s[0] == '-' || s[0] == '+' then 1 else 0;
    ghost var digits := Unsigned(s);
    assert digits == s[start..];
    var i := start;
    while i < |s|
      invariant start <= i <= |s|
      invariant AllDigits(s[start..i])
      invariant result == Wrap(Magnitude(s[start..i]))
    {
      if !IsDigit(s[i]) {
        assert digits[i - start] == s[i];
        return None;
      }
      AccumulateDigit(s, start, i);
      result := Wrap(result * 10 + DigitValue(s[i]));
      i := i + 1;
    }
    assert s[start..i] == digits;
    if negative {
      WrapAccumulates(Magnitude(digits), 0);
      result := Wrap(0 - result);
    }
    return Some(result);
  }

  function Reversed<T>(s: seq<T>): (r: seq<T>)
    ensures |r| == |s|
    ensures forall i :: 0 <= i < |s| ==> r[i] == s[|s| - 1 - i]
  {
    if s == [] then [] else Reversed(s[1..]) + [s[0]]
  }

  lemma ReversedTwice<T>(s: seq<T>)
    ensures Reversed(Reversed(s)) == s
  {
  }

  /** The digits still to be written for `m`. */
  function Pending(m: nat): Bytes {
    if m == 0 then "" else Decimal(m)
  }

  lemma EmitDigit(m: nat)
    requires m > 0
    ensures Pending(m) == Pending(m / 10) + [DigitChar(m % 10)]
  {
  }

  /** The swapping loop at the end of `intToString`. */
  method ReverseDigits(digits: array<char>)
    modifies digits
    ensures digits[..] == Reversed(old(digits[..]))
  {
    ghost var was := digits[..];
    var n, i := digits.Length, 0;
    while i < n / 2
      invariant 0 <= i <= n / 2
      invariant forall k :: 0 <= k < i ==> digits[k] == was[n - 1 - k] && digits[n - 1 - k] == was[k]
      invariant forall k :: i <= k < n - i ==> digits[k] == was[k]
    {
      digits[i], digits[n - 1 - i] := digits[n - 1 - i], digits[i];
      i := i + 1;
    }
    assert forall k :: 0 <= k < n ==> digits[k] == Reversed(was)[k];
  }

  lemma EmitOnto(m: nat, digits: Bytes)
    requires m > 0
    ensures Pending(m) + Reversed(digits) == Pending(m / 10) + Reversed(digits + [DigitChar(m % 10)])
  {
    var c := DigitChar(m % 10);
    EmitDigit(m);
    assert Reversed(digits + [c]) == [c] + Reversed(digits);
    hide Pending, Reversed;
    assert Pending(m / 10) + [c] + Reversed(digits) == Pending(m / 10) + ([c] + Reversed(digits));
  }

  lemma NothingPending(digits: Bytes)
    ensures Pending(0) + Reversed(digits) == Reversed(digits)
    ensures forall p: Bytes :: p + Reversed("") == p
  {
  }

  method PositiveDigits(n: nat) returns (digits: Bytes)
    ensures Reversed(digits) == Pending(n)
  {
    hide Pending, Reversed, DigitChar;
    digits := "";
    NothingPending(digits);
    var m := n;
    while m > 0
      invariant Pending(n) == Pending(m) + Reversed(digits)
    {
      EmitOnto(m, digits);
      digits := digits + [DigitChar(m % 10)];
      m := m / 10;
    }
    NothingPending(digits);
  }

  method IntToString(n: int64) returns (s: Bytes)
    ensures s == LooseText(n)
  {
    if n == 0 {
      return "0";
    }
    var negative := n < 0;
    var m: int := n;
    if negative {
      m := Wrap(0 - m);
    }
    // the source's digit loop runs only while the value is positive
    var digits: Bytes := "";
    if m > 0 {
      digits := PositiveDigits(m);
    }
    var buffer := new char[|digits|](i requires 0 <= i < |digits| => digits[i]);
    assert buffer[..] == digits;
    ReverseDigits(buffer);
    if negative {
      return "-" + buffer[..];
    }
    return buffer[..];
  }

  // ------------------------------------------------------------------- laws

  /** On every text strconv.Atoi accepts, the hand-written parser gives the same number. */
  lemma ParseIntAgreesWithAtoi(s: Bytes)
    ensures Atoi(s).Some? ==> LooseInt(s) == Atoi(s)
    ensures Atoi(s).None? && LooseInt(s).Some? ==>
              Unsigned(s) == "" || SignedMagnitude(s) < MIN64 || MAX64 < SignedMagnitude(s)
  {
  }

  /** Digits beyond 64 bits are read as the number they come to modulo 2^64, and no digits at all as zero. */
  lemma LooseCongruent(s: Bytes)
    requires AllDigits(Unsigned(s))
    ensures LooseInt(s).Some? && (SignedMagnitude(s) - LooseInt(s).value) % 0x1_0000_0000_0000_0000 == 0
    ensures Unsigned(s) == "" ==> LooseInt(s) == Some(0)
  {
    WrapCongruent(SignedMagnitude(s));
  }

  /** The text round trip holds for every 64-bit integer but the least one, which reads back as zero. */
  lemma IntTextRoundTrip(n: int64)
    ensures LooseInt(LooseText(n)) == Some(n) <==> n != MIN64
    ensures LooseInt(LooseText(MIN64)) == Some(0)
  {
    AtoiOfItoa(n);
    assert Unsigned("-") == "";
  }

  // -------------------------------------------------------------- case folding

  function UpperChar(c: char): char {
    if 'a' <= c <= 'z' then ((c as int) - 32) as char else c
  }

  /** strings.ToUpper on ASCII text. */
  function ToUpper(s: Bytes): (r: Bytes)
    ensures |r| == |s|
    ensures forall i :: 0 <= i < |s| ==> r[i] == UpperChar(s[i])
  {
    if s == "" then "" else [UpperChar(s[0])] + ToUpper(s[1..])
  }
}
