/** Printing and parsing of numbers in text files: unsigned and signed decimal, and octal. */
module Numerals {
  import opened Bytes

  const LL := 0x8000_0000_0000_0000

  type Base = b: nat | 2 <= b <= 10 witness 10

  const DIGITS := "0123456789"

  /** The value of a digit character; anything else is no digit of any base. */
  function Digit(c: char): nat
  {
    if '0' <= c <= '9' then (c - '0') as nat else 10
  }

  /** `operator<<` on an unsigned number. */
  function Print(n: nat, b: Base): (s: string)
    ensures s != ""
  {
    if n < b then [DIGITS[n]] else Print(n / b, b) + [DIGITS[n % b]]
  }

  function PrintSigned(i: int): string
  {
    if i < 0 then "-" + Print(-i, 10) else Print(i, 10)
  }

  predicate AllDigits(s: string, b: Base)
  {
    forall i :: 0 <= i < |s| ==> Digit(s[i]) < b
  }

  function Value(s: string, b: Base): nat
  {
    if s == "" then 0 else Value(s[..|s| - 1], b) * b + Digit(s[|s| - 1])
  }

  /** The length of the digits that a parse consumes. */
  function DigitRun(s: string, b: Base): (n: nat)
    ensures n <= |s|
  {
    if s == "" || Digit(s[0]) >= b then 0 else 1 + DigitRun(s[1..], b)
  }

  predicate Negative(s: string)
  {
    s != "" && s[0] == '-'
  }

  function Unsign(s: string): string
  {
    if s != "" && (s[0] == '-' || s[0] == '+') then s[1..] else s
  }

  /** The digits after an optional sign; None is `invalid_argument`. What follows the digits is ignored. */
  function Magnitude(s: string, b: Base): Option<nat>
  {
    var t := Unsign(s);
    var n := DigitRun(t, b);
    if n == 0 then None else Some(Value(t[..n], b))
  }

  /** `stoull` and `stoul`: a negative number is taken modulo 2^64; None is an exception. */
  function ParseUnsigned(s: string, b: Base): Option<nat>
  {
    match Magnitude(s, b)
    case None => None
    case Some(v) => if v >= TWO_64 then None else Some(if Negative(s) then (TWO_64 - v) % TWO_64 else v)
  }

  /** `stoll`. */
  function ParseSigned(s: string): Option<int>
  {
    match Magnitude(s, 10)
    case None => None
    case Some(v) =>
      var u: int := v;
      var i := if Negative(s) then -u else u;
      if -LL <= i < LL then Some(i) else None
  }

  lemma DigitOf(d: nat)
    requires d < 10
    ensures Digit(DIGITS[d]) == d
  {
  }

  lemma AppendDigit(s: string, d: nat, b: Base)
    requires AllDigits(s, b) && d < b
    ensures AllDigits(s + [DIGITS[d]], b) && Value(s + [DIGITS[d]], b) == Value(s, b) * b + d
  {
    DigitOf(d);
    hide Digit;
    assert (s + [DIGITS[d]])[..|s|] == s;
  }

  lemma DivMod(n: nat, b: Base)
    ensures n == (n / b) * b + n % b
  {
  }

  lemma {:induction false} PrintValue(n: nat, b: Base)
    ensures AllDigits(Print(n, b), b) && Value(Print(n, b), b) == n
  {
    if n < b {
      AppendDigit("", n, b);
      assert "" + [DIGITS[n]] == [DIGITS[n]];
    } else {
      hide Value, AllDigits;
      PrintValue(n / b, b);
      AppendDigit(Print(n / b, b), n % b, b);
      DivMod(n, b);
    }
  }

  lemma {:induction false} RunOfDigits(s: string, b: Base)
    requires AllDigits(s, b)
    ensures DigitRun(s, b) == |s|
  {
    if s != "" {
      RunOfDigits(s[1..], b);
    }
  }

  lemma PrintedMagnitude(n: nat, b: Base)
    ensures Magnitude(Print(n, b), b) == Some(n) && !Negative(Print(n, b)) && Print(n, b)[..1] != "+"
  {
    PrintValue(n, b);
    DigitsMagnitude(Print(n, b), b);
  }

  lemma DigitsMagnitude(s: string, b: Base)
    requires s != "" && AllDigits(s, b)
    ensures Magnitude(s, b) == Some(Value(s, b)) && !Negative(s) && s[..1] != "+"
  {
    RunOfDigits(s, b);
    assert Digit(s[0]) < b && s[..1][0] == s[0];
    hide Value;
    assert s[..|s|] == s;
  }

  /** Parsing undoes printing. */
  lemma UnsignedRoundTrip(n: nat, b: Base)
    ensures ParseUnsigned(Print(n, b), b) == if n < 0x1_0000_0000_0000_0000 then Some(n) else None
  {
    PrintedMagnitude(n, b);
  }

  lemma SignedRoundTrip(i: int)
    ensures ParseSigned(PrintSigned(i)) ==
            if -0x8000_0000_0000_0000 <= i < 0x8000_0000_0000_0000 then Some(i) else None
    ensures PrintSigned(i)[0] == '-' <==> i < 0
  {
    if i < 0 {
      PrintedMagnitude(-i, 10);
      MinusMagnitude(Print(-i, 10));
    } else {
      PrintedMagnitude(i, 10);
    }
    hide Magnitude, Print, Negative;
  }

  lemma MinusMagnitude(s: string)
    requires !Negative(s) && Magnitude(s, 10).Some?
    ensures Negative("-" + s) && (s[..1] != "+" ==> Magnitude("-" + s, 10) == Magnitude(s, 10))
  {
    assert ("-" + s)[1..] == s;
  }
}
