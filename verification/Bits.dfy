/** Bytes as eight bits, least significant first. */
module Bits {

  const CLEAR_BITS: seq<bool> := [false, false, false, false, false, false, false, false]

  type Byte = b: seq<bool> | |b| == 8 witness CLEAR_BITS

  const CLEAR: Byte := CLEAR_BITS
  const FULL: Byte := [true, true, true, true, true, true, true, true]

  function SetBit(b: Byte, i: nat, v: bool): Byte
    requires i < 8
  {
    b[i := v]
  }

  function Power2(n: nat): (p: nat)
    ensures p > 0
  {
    if n == 0 then 1 else 2 * Power2(n - 1)
  }

  /** The bits as an unsigned number. */
  function Value(b: seq<bool>): (n: nat)
    ensures n < Power2(|b|)
  {
    if b == [] then 0 else (if b[0] then 1 else 0) + 2 * Value(b[1..])
  }

  function OfValue(n: nat, width: nat): (b: seq<bool>)
    ensures |b| == width
  {
    if width == 0 then [] else [n % 2 == 1] + OfValue(n / 2, width - 1)
  }

  lemma {:induction false} ValueRoundTrip(n: nat, width: nat)
    requires n < Power2(width)
    ensures Value(OfValue(n, width)) == n
  {
    if width > 0 {
      ValueRoundTrip(n / 2, width - 1);
    }
  }

  function And(x: Byte, y: Byte): (r: Byte)
    ensures forall i :: 0 <= i < 8 ==> r[i] == (x[i] && y[i])
  {
    seq(8, i requires 0 <= i < 8 => x[i] && y[i])
  }

  function Or(x: Byte, y: Byte): (r: Byte)
    ensures forall i :: 0 <= i < 8 ==> r[i] == (x[i] || y[i])
  {
    seq(8, i requires 0 <= i < 8 => x[i] || y[i])
  }

  function Not(x: Byte): (r: Byte)
    ensures forall i :: 0 <= i < 8 ==> r[i] == !x[i]
  {
    seq(8, i requires 0 <= i < 8 => !x[i])
  }
}
