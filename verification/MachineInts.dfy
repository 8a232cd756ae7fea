/** The fixed-width integers of the firmware, and its two non-mathematical
    operators: narrowing to 16 bits and division that truncates toward zero. */
module MachineInts {
  type int16 = x: int | -0x8000 <= x < 0x8000

  type byte = x: int | 0 <= x < 0x100

  /** Narrowing conversion to a signed 16-bit integer: in range the identity, else modulo 2^16. */
  function ToInt16(x: int): int16 {
    if -0x8000 <= x < 0x8000 then x else (x + 0x8000) % 0x1_0000 - 0x8000
  }

  /** Narrowing conversion to an unsigned 8-bit integer. */
  function ToByte(x: int): byte {
    if 0 <= x < 0x100 then x else x % 0x100
  }

  /** Integer division as C++ defines it: the quotient is rounded toward zero. */
  function TruncDiv(x: int, d: int): int
    requires d > 0
  {
    if x >= 0 then x / d else -((-x) / d)
  }

  function Pow2(n: nat): nat
    ensures Pow2(n) >= 1
  {
    if n == 0 then 1 else 2 * Pow2(n - 1)
  }

  lemma TimesIsMonotone(p: nat, a: int, b: int)
    ensures a <= b ==> p * a <= p * b
  {
  }

  lemma DivisionUnique(z: int, d: int, q: int, r: int)
    requires d > 0 && z == d * q + r && 0 <= r < d
    ensures z / d == q
  {
    var e := z / d - q;
    assert d * e == r - z % d by {
      assert z == d * (z / d) + z % d;
      assert d * (z / d) - d * q == d * e;
    }
    TimesIsMonotone(d, 1, e);
    TimesIsMonotone(d, e, -1);
  }

  /** Halving the floor of a quotient is dividing by twice as much. */
  lemma HalveAgain(z: int, p: int)
    requires p > 0
    ensures (z / p) / 2 == z / (2 * p)
  {
    var q, r := z / p, z % p;
    assert z == p * q + r;
    var h, b := q / 2, q % 2;
    assert p * q == p * (2 * h + b) == (2 * p) * h + p * b;
    assert p * b == if b == 0 then 0 else p;
    DivisionUnique(z, 2 * p, h, p * b + r);
  }

  lemma {:induction false} Pow2Grows(m: nat, n: nat)
    requires m <= n
    ensures Pow2(m) <= Pow2(n)
  {
    if m < n {
      Pow2Grows(m, n - 1);
    }
  }
}
