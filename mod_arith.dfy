/** Powers of two and the facts about Euclidean `%` that the integer
 *  generators need: unsigned C arithmetic is arithmetic modulo a power of two. */
module ModArith {

  const TWO32: nat := 0x1_0000_0000
  const TWO64: nat := 0x1_0000_0000_0000_0000

  function Pow2(n: nat): (r: nat)
    ensures r >= 1
  {
    if n == 0 then 1 else 2 * Pow2(n - 1)
  }

  lemma {:induction false} Pow2Add(a: nat, b: nat)
    ensures Pow2(a + b) == Pow2(a) * Pow2(b)
  {
    if a > 0 {
      Pow2Add(a - 1, b);
      assert Pow2(a + b) == 2 * Pow2(a - 1 + b);
    }
  }

  /** Small powers, unfolded one step at a time. */
  lemma Pow2Small()
    ensures Pow2(1) == 2 && Pow2(2) == 4 && Pow2(8) == 256
  {
    assert Pow2(2) == 4;
    assert Pow2(4) == 16;
    assert Pow2(6) == 64;
  }

  lemma Pow2At16()
    ensures Pow2(16) == 0x1_0000
  {
    Pow2Small();
    Pow2Add(8, 8);
  }

  lemma Pow2At32()
    ensures Pow2(32) == TWO32
  {
    Pow2At16();
    Pow2Add(16, 16);
  }

  lemma Pow2At48()
    ensures Pow2(48) == 0x1_0000_0000_0000 && Pow2(46) == 0x4000_0000_0000
  {
    Pow2Small();
    Pow2At16();
    Pow2At32();
    Pow2Add(32, 16);
    Pow2Add(46, 2);
  }

  lemma Pow2At64()
    ensures Pow2(64) == TWO64 && Pow2(32) == TWO32
  {
    Pow2At16();
    Pow2At32();
    Pow2At48();
    Pow2Add(48, 16);
  }

  lemma Pow2At63()
    ensures Pow2(61) == 0x2000_0000_0000_0000 && Pow2(63) == 0x8000_0000_0000_0000
  {
    Pow2Small();
    Pow2At64();
    Pow2Add(61, 2);
    Pow2Add(63, 1);
  }


  lemma {:induction false} Pow2Monotone(a: nat, b: nat)
    requires a <= b
    ensures Pow2(a) <= Pow2(b)
  {
    if a < b {
      Pow2Monotone(a, b - 1);
    }
  }

  lemma Pow2Bounds(bits: nat)
    requires 2 <= bits <= 63
    ensures 4 <= Pow2(bits) < TWO64
    ensures Pow2(bits - 2) * 4 == Pow2(bits)
  {
    Pow2Small();
    Pow2At63();
    Pow2Add(bits - 2, 2);
    Pow2Monotone(bits, 63);
  }

  /** The quotient and remainder are the only ones with a remainder in [0, m). */
  lemma DivModUnique(y: int, m: int, q: int, r: int)
    requires m > 0 && 0 <= r < m && y == q * m + r
    ensures y / m == q && y % m == r
  {
    var q', r' := y / m, y % m;
    assert (q - q') * m == r' - r;
    if q != q' {
      var d := if q > q' then q - q' else q' - q;
      MulAtLeast(d, m);
    }
  }

  lemma MulAtLeast(d: int, m: int)
    requires d >= 1 && m > 0
    ensures d * m >= m
  {
  }

  /** Regrouping c*(a*x + b) + d as an affine expression in x. */
  lemma AffineRegroup(c: int, a: int, x: int, b: int, d: int)
    ensures c * (a * x + b) + d == x * (c * a) + (c * b + d)
  {
  }

  lemma ModShift(x: int, k: int, m: int)
    requires m > 0
    ensures (x + k * m) % m == x % m
  {
    DivModUnique(x + k * m, m, x / m + k, x % m);
  }

  lemma ModMulMod(a: int, y: int, b: int, m: int)
    requires m > 0
    ensures (a * (y % m) + b) % m == (a * y + b) % m
  {
    assert a * y == a * (y % m) + (a * (y / m)) * m by {
      assert y == (y / m) * m + y % m;
    }
    ModShift(a * (y % m) + b, a * (y / m), m);
  }

  lemma ModAddMod(y: int, b: int, m: int)
    requires m > 0
    ensures (y + b % m) % m == (y + b) % m
  {
    ModShift(y + b % m, b / m, m);
  }

  /** Reducing modulo a multiple of m first does not change the residue mod m. */
  lemma ModOfMod(x: int, a: int, b: int)
    requires a > 0 && b > 0
    ensures (x % (a * b)) % a == x % a
  {
    assert x == (x / (a * b)) * b * a + x % (a * b);
    ModShift(x % (a * b), (x / (a * b)) * b, a);
  }

  /** Masking an unsigned 64-bit result to its low `bits` bits gives the
   *  exact residue modulo 2^bits: the 64-bit wrap-around is invisible. */
  lemma {:induction false} Wrap64ThenMask(x: int, bits: nat)
    requires bits <= 64
    ensures (x % TWO64) % Pow2(bits) == x % Pow2(bits)
  {
    Pow2At64();
    Pow2Add(bits, 64 - bits);
    var P, Q := Pow2(bits), Pow2(64 - bits);
    assert TWO64 == P * Q;
    ModOfMod(x, P, Q);
  }

  /** Adding to a value already reduced modulo 2^64 gives the same residue
   *  modulo 2^bits as adding to the exact value. */
  lemma {:induction false} WrapAddMask(x: int, c: int, bits: nat)
    requires bits <= 64
    ensures (x % TWO64 + c) % Pow2(bits) == (x + c) % Pow2(bits)
  {
    Pow2At64();
    Pow2Add(bits, 64 - bits);
    var P, Q := Pow2(bits), Pow2(64 - bits);
    assert TWO64 == P * Q;
    var k := x / TWO64;
    assert x == k * TWO64 + x % TWO64;
    MulAssoc(k, Q, P);
    assert x + c == (x % TWO64 + c) + (k * Q) * P;
    ModShift(x % TWO64 + c, k * Q, P);
  }

  lemma SmallMod(x: int, m: int)
    requires 0 <= x < m
    ensures x % m == x
  {
  }

  /** A quotient of a smaller by a larger natural lies in [0, 1). */
  lemma RatioBelowOne(a: nat, b: nat)
    requires a < b
    ensures 0.0 <= a as real / b as real < 1.0
  {
  }

  lemma MulAssoc(a: int, b: int, c: int)
    ensures a * (b * c) == (a * b) * c && a * (c * b) == (a * b) * c
  {
  }

  /** Splitting k into its low bit and the rest. */
  lemma HalveFactor(p: int, k: int)
    requires k >= 0
    ensures k % 2 == 1 ==> p * k == (p + p) * (k / 2) + p
    ensures k % 2 == 0 ==> p * k == (p + p) * (k / 2)
  {
    assert k == 2 * (k / 2) + k % 2;
  }

  /** C's integer division, which truncates toward zero. */
  function CDiv(a: int, d: int): (q: int)
    requires d > 0
    ensures a >= 0 ==> q * d <= a < q * d + d
    ensures a < 0 ==> q * d - d < a <= q * d
  {
    if a >= 0 then a / d else -((-a) / d)
  }
}
