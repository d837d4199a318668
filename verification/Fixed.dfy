/** Signed 32-bit values as integers. */
module Fixed {

  const MIN32 := -0x8000_0000
  const MAX32 := 0x7FFF_FFFF

  predicate Fits32(x: int) {
    MIN32 <= x <= MAX32
  }

  /** The low 32 bits read as two's complement. */
  function Signed32(x: int): (r: int)
    ensures Fits32(r)
  {
    var low := x % 0x1_0000_0000;
    if low > MAX32 then low - 0x1_0000_0000 else low
  }

  lemma Unchanged(x: int)
    requires Fits32(x)
    ensures Signed32(x) == x
  {
  }

  /** Wrapping early or late makes no difference to sums and differences. */
  lemma WrapOnce(x: int, y: int)
    ensures Signed32(Signed32(x) + y) == Signed32(x + y)
    ensures Signed32(Signed32(x) - Signed32(y)) == Signed32(x - y)
  {
    var a, b := Signed32(x), Signed32(y);
    Congruent(x);
    Congruent(y);
    var i := (x - a) / 0x1_0000_0000;
    var j := (y - b) / 0x1_0000_0000;
    assert x == a + i * 0x1_0000_0000 && y == b + j * 0x1_0000_0000;
    Shift(a + y, i);
    Shift(a - b, i - j);
  }

  lemma Congruent(x: int)
    ensures (x - Signed32(x)) % 0x1_0000_0000 == 0
  {
  }

  lemma Shift(x: int, k: int)
    ensures Signed32(x + k * 0x1_0000_0000) == Signed32(x)
  {
  }
}
