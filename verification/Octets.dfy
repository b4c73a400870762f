/** Bytes, ASCII text as bytes, and decimal numbers as bytes. */
module Octets {

  newtype byte = x: int | 0 <= x < 256

  type Bytes = seq<byte>

  const CR: byte := 13
  const LF: byte := 10
  const SP: byte := 32
  const HTAB: byte := 9
  const COLON: byte := 58
  const PLUS: byte := 43
  const MINUS: byte := 45
  const UNDERSCORE: byte := 95
  const CRLF: Bytes := [CR, LF]

  /** str.encode("ascii"), for text that is ASCII (as every literal in this project is). */
  function Ascii(s: string): (b: Bytes)
    ensures |b| == |s|
    ensures forall i :: 0 <= i < |s| ==> s[i] < 128 as char ==> b[i] as int == s[i] as int
  {
    seq(|s|, i requires 0 <= i < |s| => if s[i] < 128 as char then s[i] as byte else 63)
  }

  function LowerByte(b: byte): byte { if 65 <= b <= 90 then b + 32 else b }

  /** ASCII case folding. */
  function Lower(s: Bytes): (r: Bytes)
    ensures |r| == |s|
    ensures forall i :: 0 <= i < |s| ==> r[i] == LowerByte(s[i])
  {
    seq(|s|, i requires 0 <= i < |s| => LowerByte(s[i]))
  }

  // ----- Decimal numbers -----

  predicate IsDigit(b: byte) { 48 <= b <= 57 }

  predicate AllDigits(s: Bytes) { forall i :: 0 <= i < |s| ==> IsDigit(s[i]) }

  /** The number that a digit string stands for. */
  function Value(s: Bytes): nat
    requires AllDigits(s)
  {
    if s == [] then 0 else 10 * Value(s[..|s| - 1]) + (s[|s| - 1] - 48) as nat
  }

  /** str(n) for a natural number. */
  function Decimal(n: nat): (s: Bytes)
    ensures s != [] && AllDigits(s)
  {
    if n < 10 then [(48 + n) as byte] else Decimal(n / 10) + [(48 + n % 10) as byte]
  }

  /** 1*DIGIT, as in section 8.6 of RFC 9110. */
  predicate IsLength(s: Bytes) { s != [] && AllDigits(s) }

  /** Printing and parsing lengths are inverse: on every number, and on every digit string without
      superfluous zeros. */
  lemma {:induction false} DecimalRoundTrip(n: nat)
    ensures Value(Decimal(n)) == n
  {
    var s := Decimal(n);
    if n >= 10 {
      DecimalRoundTrip(n / 10);
      assert s[..|s| - 1] == Decimal(n / 10);
    }
  }

  lemma {:induction false} ValueRoundTrip(s: Bytes)
    requires IsLength(s) && (|s| > 1 ==> s[0] != 48)
    ensures Decimal(Value(s)) == s
    ensures |s| > 1 ==> Value(s) >= 10
  {
    var n := |s| - 1;
    if n == 0 {
      assert s == [s[0]];
    } else {
      ValueRoundTrip(s[..n]);
      assert s == s[..n] + [s[n]];
      assert Value(s[..n]) >= 1 by { LeadingDigit(s[..n]); }
      assert Value(s) / 10 == Value(s[..n]) && Value(s) % 10 == (s[n] - 48) as nat;
    }
  }

  lemma {:induction false} LeadingDigit(s: Bytes)
    requires IsLength(s) && s[0] != 48
    ensures Value(s) >= 1
  {
    if |s| > 1 { LeadingDigit(s[..|s| - 1]); }
  }
}
