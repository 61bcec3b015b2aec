/** Python's integer bit operations on unbounded integers.

    Python integers behave as infinite two's-complement bit strings: `a | b`
    and `a & b` are defined for negative operands, `x << k` is `x * 2^k` and
    `x >> k` is the floor of `x / 2^k`. Dafny's `/` and `%` are Euclidean,
    which for a positive divisor is exactly Python's floor division and
    modulo. */
module PyInt {

  function Pow2(k: nat): (r: nat)
    ensures r >= 1
  {
    if k == 0 then 1 else 2 * Pow2(k - 1)
  }

  /** The powers of two the encoders and record layouts use. */
  lemma Pow2Table()
    ensures Pow2(2) == 4 && Pow2(5) == 32 && Pow2(8) == 0x100 && Pow2(15) == 0x8000 && Pow2(16) == 0x10000
    ensures Pow2(18) == 0x40000 && Pow2(19) == 0x80000 && Pow2(21) == 0x200000
    ensures Pow2(23) == 0x800000 && Pow2(24) == 0x1000000 && Pow2(25) == 0x2000000 && Pow2(27) == 0x8000000
    ensures Pow2(28) == 0x10000000 && Pow2(29) == 0x20000000 && Pow2(31) == 0x80000000
    ensures Pow2(32) == 0x1_0000_0000
  {
  }

  /** The bound of a packed 32-bit word. */
  lemma Pow2Word()
    ensures Pow2(32) == 0x1_0000_0000
  {
    Pow2Table();
  }

  /** `2^64`, the bound of an 8-byte field. */
  lemma Pow2Wide()
    ensures Pow2(64) == 0x1_0000_0000_0000_0000
  {
    Pow2Table();
    Pow2Add(32, 32);
  }

  function Abs(x: int): nat { if x < 0 then -x else x }

  /** Python `a | b`. The recursion peels off the lowest bit; 0 and -1 are the
      two fixed points of halving (all bits clear, all bits set). */
  function Or(a: int, b: int): int
    decreases Abs(a) + Abs(b)
  {
    if a == 0 then b
    else if b == 0 then a
    else if a == -1 || b == -1 then -1
    else 2 * Or(a / 2, b / 2) + (if a % 2 == 1 || b % 2 == 1 then 1 else 0)
  }

  /** Python `a & b`. */
  function And(a: int, b: int): int
    decreases Abs(a) + Abs(b)
  {
    if a == 0 || b == 0 then 0
    else if a == -1 then b
    else if b == -1 then a
    else 2 * And(a / 2, b / 2) + (if a % 2 == 1 && b % 2 == 1 then 1 else 0)
  }

  /** Python `x << k`. */
  function Shl(x: int, k: nat): int { x * Pow2(k) }

  /** Python `x >> k`. */
  function Shr(x: int, k: nat): int { x / Pow2(k) }

  lemma Pow2Add(j: nat, k: nat)
    ensures Pow2(j + k) == Pow2(j) * Pow2(k)
  {
    if j > 0 {
      Pow2Add(j - 1, k);
    }
  }

  /** `n mod 2^k` in terms of the quotient and remainder by 2. */
  lemma ModPow2Step(x: int, k: nat)
    requires k >= 1
    ensures x % Pow2(k) == 2 * ((x / 2) % Pow2(k - 1)) + x % 2
  {
    var p := Pow2(k - 1);
    var q, r := x / 2, x % 2;
    var m, s := q / p, q % p;
    assert x == 2 * q + r;
    assert q == p * m + s;
    assert x == (2 * p) * m + (2 * s + r);
    assert 0 <= 2 * s + r < 2 * p;
    ModUnique(x, 2 * p, m, 2 * s + r);
  }

  lemma ModUnique(x: int, d: int, q: int, r: int)
    requires d > 0 && 0 <= r < d && x == d * q + r
    ensures x % d == r && x / d == q
  {
    var q', r' := x / d, x % d;
    assert d * q' + r' == d * q + r;
    if q' > q {
      MulAtLeast(d, q' - q);
    } else if q' < q {
      MulAtLeast(d, q - q');
    }
  }

  lemma DivDiv(v: nat, a: nat, b: nat)
    requires a > 0 && b > 0
    ensures v / a / b == v / (a * b)
  {
    var q1, r1 := v / a, v % a;
    var q2, r2 := q1 / b, q1 % b;
    assert v == a * q1 + r1;
    assert q1 == b * q2 + r2;
    MulSplit(a, b, q2, r2);
    MulBelow(a, r2, b);
    ModUnique(v, a * b, q2, a * r2 + r1);
  }

  lemma MulSplit(a: int, b: int, q: int, r: int)
    ensures a * (b * q + r) == (a * b) * q + a * r
  {
  }

  /** `a * r + s < a * b` for digits `r < b` and `s < a`. */
  lemma MulBelow(a: nat, r: nat, b: nat)
    requires r < b
    ensures a * r <= a * b - a
  {
    assert a * b - a * r == a * (b - r);
    assert b - r >= 1;
    if a > 0 {
      MulAtLeast(a, b - r);
    }
  }

  lemma MulTwice(c: int, p: int)
    ensures c * (2 * p) == 2 * (c * p)
  {
  }

  lemma MulAtLeast(d: int, t: int)
    requires d > 0 && t >= 1
    ensures d * t >= d
  {
    assert d * t == d + d * (t - 1);
  }

  /** Masking with `2^k - 1` keeps the residue modulo `2^k`, also for negative
      operands (this is why `imm & 0x3` and `(imm >> 2) & 0x7FFFF` never fail). */
  lemma {:induction false} AndLowMask(x: int, k: nat)
    ensures And(x, Pow2(k) - 1) == x % Pow2(k)
    decreases k
  {
    var d := Pow2(k);
    if k == 0 {
      assert d - 1 == 0;
      ModUnique(x, 1, x, 0);
    } else if x == 0 {
      ModUnique(x, d, 0, 0);
    } else if x == -1 {
      ModUnique(x, d, -1, d - 1);
    } else {
      var m := Pow2(k - 1) - 1;
      assert d - 1 == 2 * m + 1;
      AndOdd(x, m);
      assert And(x, d - 1) == 2 * And(x / 2, m) + x % 2;
      AndLowMask(x / 2, k - 1);
      ModPow2Step(x, k);
    }
  }

  lemma AndOdd(x: int, m: nat)
    requires x != 0 && x != -1
    ensures And(x, 2 * m + 1) == 2 * And(x / 2, m) + x % 2
  {
  }

  lemma OrEven(a: int, b: int)
    requires b >= 0
    ensures Or(2 * a, b) == 2 * Or(a, b / 2) + b % 2
  {
    if a == 0 { assert Or(0, b / 2) == b / 2; }
  }

  lemma OrBothEven(a: int, b: int)
    ensures Or(2 * a, 2 * b) == 2 * Or(a, b)
  {
  }

  lemma {:induction false} OrCommutes(a: int, b: int)
    ensures Or(a, b) == Or(b, a)
    decreases Abs(a) + Abs(b)
  {
    if a == 0 || b == 0 || a == -1 || b == -1 {
    } else {
      OrCommutes(a / 2, b / 2);
    }
  }

  /** OR-ing a value below `2^k` into a value whose low `k` bits are clear is
      addition, whatever the sign of the high part. */
  lemma {:induction false} OrLowBits(h: int, lo: int, k: nat)
    requires 0 <= lo < Pow2(k)
    ensures Or(h * Pow2(k), lo) == h * Pow2(k) + lo
    ensures Or(lo, h * Pow2(k)) == h * Pow2(k) + lo
  {
    OrCommutes(lo, h * Pow2(k));
    if k > 0 {
      var p := Pow2(k - 1);
      var hp := h * p;
      MulTwice(h, p);
      OrEven(hp, lo);
      OrLowBits(h, lo / 2, k - 1);
    }
  }

  /** Shifting both operands left by `k` commutes with OR. */
  lemma {:induction false} OrShifted(a: int, b: int, k: nat)
    ensures Or(a * Pow2(k), b * Pow2(k)) == Or(a, b) * Pow2(k)
  {
    if k > 0 {
      var p := Pow2(k - 1);
      var ap, bp := a * p, b * p;
      MulTwice(a, p);
      MulTwice(b, p);
      OrBothEven(ap, bp);
      OrShifted(a, b, k - 1);
      MulTwice(Or(a, b), p);
    }
  }

  /** The OR of two non-negative values lies between the larger one and the
      first power of two above both. */
  lemma {:induction false} OrBounds(a: int, b: int, k: nat)
    requires 0 <= a && 0 <= b
    ensures Or(a, b) >= a && Or(a, b) >= b
    ensures a < Pow2(k) && b < Pow2(k) ==> Or(a, b) < Pow2(k)
    decreases Abs(a) + Abs(b)
  {
    if a == 0 || b == 0 {
    } else {
      if k >= 1 {
        OrBounds(a / 2, b / 2, k - 1);
      } else {
        OrBounds(a / 2, b / 2, 0);
      }
    }
  }

  /** OR is negative exactly when one operand is. */
  lemma {:induction false} OrSign(a: int, b: int)
    ensures Or(a, b) < 0 <==> a < 0 || b < 0
    decreases Abs(a) + Abs(b)
  {
    if a == 0 || b == 0 || a == -1 || b == -1 {
    } else {
      OrSign(a / 2, b / 2);
    }
  }
}
