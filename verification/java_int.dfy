/** Java's 32-bit `int` arithmetic: every product and sum wraps around modulo 2^32 into
    the two's-complement range. */
module JavaInts {

  const IntMin: int := -0x8000_0000
  const IntMax: int := 0x7fff_ffff
  const Modulus: int := 0x1_0000_0000

  /** The int Java's arithmetic gives for the exact result v. */
  function Wrap32(v: int): (w: int)
    ensures IntMin <= w <= IntMax
    ensures (v - w) % Modulus == 0
    ensures IntMin <= v <= IntMax ==> w == v
  {
    (v - IntMin) % Modulus + IntMin
  }

  /** Results that differ by a multiple of 2^32 wrap to the same int. */
  lemma WrapPeriodic(v: int, k: int)
    ensures Wrap32(v + k * Modulus) == Wrap32(v)
  {
    var a := v - IntMin;
    var q := a / Modulus;
    var r := a % Modulus;
    assert a == q * Modulus + r;
    assert a + k * Modulus == (q + k) * Modulus + r;
    ModUnique(a + k * Modulus, q + k, r);
  }

  /** The remainder of a = q * Modulus + r with r in range is r. */
  lemma ModUnique(a: int, q: int, r: int)
    requires 0 <= r < Modulus && a == q * Modulus + r
    ensures a % Modulus == r
  {
  }

  /** Wrapping an intermediate result first does not change the final int: Java's
      `x * y + z`, which wraps after the product and after the sum, equals the exact
      result wrapped once. */
  lemma WrapAdd(a: int, b: int)
    ensures Wrap32(Wrap32(a) + b) == Wrap32(a + b)
  {
    var w := Wrap32(a);
    var k := (a - w) / Modulus;
    assert a - w == k * Modulus;
    assert w + b + k * Modulus == a + b;
    WrapPeriodic(w + b, k);
  }
}
