/** Bytes, decimal numerals and sums, as the FIX tag=value encoding uses them. */
module Bytes {
  import opened Orders

  type Byte = x: nat | x < 256

  type Text = seq<Byte>

  const SOH: Byte := 1
  const EQUALS: Byte := 61
  const ZERO: Byte := 48
  const PLUS: Byte := 43
  const MINUS: Byte := 45

  // ---------------------------------------------------------------- searching

  /** The first place a byte occurs. */
  function Position(s: Text, b: Byte): (r: Option<nat>)
    ensures r.Some? ==> r.value < |s| && s[r.value] == b && b !in s[..r.value]
    ensures r.None? ==> b !in s
  {
    if s == [] then None
    else if s[0] == b then Some(0)
    else
      match Position(s[1..], b)
      case None => None
      case Some(i) => assert s[..i + 1] == [s[0]] + s[1..][..i]; Some(i + 1)
  }

  lemma PositionIs(s: Text, b: Byte, i: nat)
    requires i < |s| && s[i] == b && b !in s[..i]
    ensures Position(s, b) == Some(i)
  {
    assert s[i] in s;
  }

  /** Text without the byte, then the byte: it is found right there. */
  lemma PositionAfter(a: Text, b: Byte, rest: Text)
    requires b !in a
    ensures Position(a + [b] + rest, b) == Some(|a|)
  {
    var s := a + [b] + rest;
    assert s[..|a|] == a;
    PositionIs(s, b, |a|);
  }

  /** A position once found stays when more text arrives. */
  lemma PositionStable(s: Text, more: Text, b: Byte)
    requires Position(s, b).Some?
    ensures Position(s + more, b) == Position(s, b)
  {
    var i := Position(s, b).value;
    assert (s + more)[..i] == s[..i];
    PositionIs(s + more, b, i);
  }

  // ---------------------------------------------------------------- decimal numerals

  predicate IsDigit(b: Byte) {
    48 <= b <= 57
  }

  predicate AllDigits(s: Text) {
    forall i :: 0 <= i < |s| ==> IsDigit(s[i])
  }

  function Value(s: Text): nat
    requires AllDigits(s)
  {
    if s == [] then 0 else Value(s[..|s| - 1]) * 10 + (s[|s| - 1] - ZERO)
  }

  /** A signed integer no greater than `max`: an optional sign, then at least one digit. */
  function ParseSigned(s: Text, max: nat): Option<int> {
    var digits := if s != [] && (s[0] == PLUS || s[0] == MINUS) then s[1..] else s;
    if digits == [] || !AllDigits(digits) then None
    else
      var v: int := Value(digits);
      if s[0] == MINUS then (if v <= max + 1 then Some(-v) else None)
      else if v <= max then Some(v)
      else None
  }

  function Digits(n: nat): (s: Text)
    ensures AllDigits(s) && s != []
  {
    if n < 10 then [ZERO + n] else Digits(n / 10) + [ZERO + n % 10]
  }

  /** Reading a printed number gives it back. */
  lemma {:induction false} DigitsValue(n: nat)
    ensures Value(Digits(n)) == n
  {
    var s := Digits(n);
    if n < 10 {
      assert s[..0] == [];
    } else {
      DigitsValue(n / 10);
      assert s[..|s| - 1] == Digits(n / 10);
    }
  }

  function ThreeDigits(n: nat): (s: Text)
    requires n < 1000
    ensures AllDigits(s) && |s| == 3
  {
    [ZERO + n / 100, ZERO + n / 10 % 10, ZERO + n % 10]
  }

  lemma ThreeDigitsValue(n: nat)
    requires n < 1000
    ensures Value(ThreeDigits(n)) == n
  {
    var a, b, c := n / 100, n / 10 % 10, n % 10;
    assert a * 100 + b * 10 + c == n;
    ThreeDigitValue(ZERO + a, ZERO + b, ZERO + c);
  }

  lemma ThreeDigitValue(a: Byte, b: Byte, c: Byte)
    requires IsDigit(a) && IsDigit(b) && IsDigit(c)
    ensures Value([a, b, c]) == (a - ZERO) * 100 + (b - ZERO) * 10 + (c - ZERO)
  {
    assert [a, b, c][..2] == [a, b] && [a, b][..1] == [a] && [a][..0] == [];
    assert Value([a]) == a - ZERO;
    assert Value([a, b]) == (a - ZERO) * 10 + (b - ZERO);
  }

  // ---------------------------------------------------------------- sums

  function Sum(s: Text): nat {
    if s == [] then 0 else Sum(s[..|s| - 1]) + s[|s| - 1]
  }

  /** Adding up in a byte, wrapping around. */
  function WrappingSum(s: Text): Byte {
    if s == [] then 0 else (WrappingSum(s[..|s| - 1]) + s[|s| - 1]) % 256
  }

  /** Wrapping at every step is the same as reducing the whole sum once. */
  lemma {:induction false} WrappingIsModulo(s: Text)
    ensures WrappingSum(s) == Sum(s) % 256
  {
    if s != [] {
      var init, last := s[..|s| - 1], s[|s| - 1];
      WrappingIsModulo(init);
      AddModulo(Sum(init), last);
    }
  }

  lemma AddModulo(a: nat, b: nat)
    ensures (a % 256 + b) % 256 == (a + b) % 256
  {
  }
}
