/** Words as unsigned numbers. */
module Words {
  import opened Bits
  import opened Obi

  const RANGE := 0x1_0000_0000

  lemma BytePower()
    ensures Power2(8) == 256
  {
    assert Power2(4) == 16;
  }

  lemma {:induction false} UniformValue(b: seq<bool>, v: bool)
    requires forall i :: 0 <= i < |b| ==> b[i] == v
    ensures Value(b) == if v then Power2(|b|) - 1 else 0
  {
    if b != [] {
      UniformValue(b[1..], v);
    }
  }

  lemma ByteResetValues()
    ensures Value(CLEAR) == 0 && Value(FULL) == 255
  {
    hide Value, Power2;
    UniformValue(CLEAR, false);
    UniformValue(FULL, true);
    BytePower();
  }

  function WordValue(w: Word): (n: nat)
    ensures n < RANGE
  {
    BytePower();
    Value(w.b0) + 256 * (Value(w.b1) + 256 * (Value(w.b2) + 256 * Value(w.b3)))
  }

  function WordOf(n: nat): Word {
    Word(OfValue(n % 256, 8), OfValue(n / 256 % 256, 8), OfValue(n / 256 / 256 % 256, 8),
         OfValue(n / 256 / 256 / 256 % 256, 8))
  }

  lemma WordRoundTrip(n: nat)
    requires n < RANGE
    ensures WordValue(WordOf(n)) == n
  {
    BytePower();
    ValueRoundTrip(n % 256, 8);
    ValueRoundTrip(n / 256 % 256, 8);
    ValueRoundTrip(n / 256 / 256 % 256, 8);
    ValueRoundTrip(n / 256 / 256 / 256 % 256, 8);
    hide OfValue, Value, Power2;
    Digits(n);
  }

  lemma Digits(n: nat)
    requires n < RANGE
    ensures n % 256 + 256 * (n / 256 % 256 + 256 * (n / 256 / 256 % 256 + 256 * (n / 256 / 256 / 256 % 256))) == n
  {
    var n1 := n / 256;
    assert n == n % 256 + 256 * n1;
    var n2 := n1 / 256;
    assert n1 == n1 % 256 + 256 * n2;
    var n3 := n2 / 256;
    assert n2 == n2 % 256 + 256 * n3;
    assert n3 == n3 % 256;
  }
}
