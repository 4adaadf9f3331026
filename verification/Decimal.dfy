/** Decimal text of integers: strconv.Itoa and strconv.Atoi. */
module Decimal {
  import opened Base

  predicate IsDigit(c: char) {
    '0' <= c <= '9'
  }

  function DigitChar(d: nat): (c: char)
    requires d < 10
  {
    '0' + d as char
  }

  /** The digit that a character stands for, 0 if none. */
  function DigitValue(c: char): nat {
    if IsDigit(c) then (c - '0') as nat else 0
  }

  predicate AllDigits(s: string) {
    forall i :: 0 <= i < |s| ==> IsDigit(s[i])
  }

  /** Length of the longest digit prefix. */
  function DigitRun(s: string): (k: nat)
    ensures k <= |s|
  {
    if s == [] || !IsDigit(s[0]) then 0 else 1 + DigitRun(s[1..])
  }

  lemma {:induction false} DigitRunEnds(s: string, k: nat)
    requires k <= |s| && (forall i :: 0 <= i < k ==> IsDigit(s[i])) && (k < |s| ==> !IsDigit(s[k]))
    ensures DigitRun(s) == k
  {
    if k == 0 {
    } else {
      DigitRunEnds(s[1..], k - 1);
    }
  }

  /** Canonical decimal digits of a natural number. */
  function Dec(n: nat): (s: string) {
    if n < 10 then [DigitChar(n)] else Dec(n / 10) + [DigitChar(n % 10)]
  }

  function DecValue(s: string): nat {
    if s == [] then 0 else 10 * DecValue(s[..|s| - 1]) + DigitValue(s[|s| - 1])
  }

  function Itoa(n: int): string {
    if n < 0 then "-" + Dec(-n) else Dec(n)
  }

  /** What Atoi returns: the value is meaningful to the caller even when ok is false. */
  datatype Parsed = Parsed(value: Int64, ok: bool)

  function Unsigned(s: string): string {
    if s != [] && (s[0] == '-' || s[0] == '+') then s[1..] else s
  }

  /** The nearest bound, with an error. */
  function OutOfRange(negative: bool): Parsed {
    Parsed(if negative then MIN64 else MAX64, false)
  }

  /**
   0 with an error on malformed text, the nearest bound with an error when out of range.
   Digits are read from the left, so a number beyond 64 unsigned bits is out of range whatever follows it.
   */
  function Atoi(s: string): Parsed {
    var digits := Unsigned(s);
    var k := DigitRun(digits);
    var negative := s != [] && s[0] == '-';
    var magnitude: int := DecValue(digits[..k]);
    if magnitude > 0xFFFF_FFFF_FFFF_FFFF then OutOfRange(negative)
    else if k == 0 || k < |digits| then Parsed(0, false)
    else
      var v := if negative then -magnitude else magnitude;
      if MIN64 <= v <= MAX64 then Parsed(v, true) else OutOfRange(negative)
  }

  lemma {:induction false} DecRoundTrip(n: nat)
    ensures Dec(n) != [] && AllDigits(Dec(n)) && DecValue(Dec(n)) == n
  {
    if n >= 10 {
      DecRoundTrip(n / 10);
      assert Dec(n)[..|Dec(n)| - 1] == Dec(n / 10);
    } else {
      assert Dec(n)[..0] == [];
    }
  }

  /** The texts are decimal. */
  lemma TextsAreDecimal()
    ensures Itoa(0) == "0" && Itoa(9) == "9" && Itoa(10) == "10" && Itoa(-123) == "-123"
  {
    assert Dec(12) == "12";
    assert Dec(123) == "123";
  }

  /** One more digit is ten times the value, and the digit. */
  lemma NextDigit(n: nat, d: nat)
    requires n > 0 && d < 10
    ensures Itoa(10 * n + d) == Itoa(n) + Itoa(d)
  {
  }

  /** Printing then parsing is the identity on every 64-bit integer. */
  lemma AtoiItoa(n: Int64)
    ensures Atoi(Itoa(n)) == Parsed(n, true)
  {
    var m: int := n;
    var magnitude := if m < 0 then -m else m;
    DecRoundTrip(magnitude);
    var digits := Dec(magnitude);
    assert IsDigit(digits[0]);
    assert Unsigned(Itoa(m)) == digits by {
      if m < 0 {
        assert ("-" + digits)[1..] == digits;
      }
    }
    assert Itoa(m)[0] == '-' <==> m < 0;
    DigitRunEnds(digits, |digits|);
    assert digits[..|digits|] == digits;
  }

  /** Reading a number off the front of a text, as a scanner does. */
  function ScanNat(s: string): (nat, string) {
    var k := DigitRun(s);
    (DecValue(s[..k]), s[k..])
  }

  /** Scanning finds exactly the number that was printed before non-digit text. */
  lemma ScanDec(n: nat, rest: string)
    requires rest == [] || !IsDigit(rest[0])
    ensures ScanNat(Dec(n) + rest) == (n, rest)
  {
    DecRoundTrip(n);
    var s, k := Dec(n) + rest, |Dec(n)|;
    assert forall i :: 0 <= i < k ==> s[i] == Dec(n)[i];
    DigitRunEnds(s, k);
    assert s[..k] == Dec(n) && s[k..] == rest;
  }
}
