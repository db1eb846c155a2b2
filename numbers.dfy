/**
 * Abstract doubles. The interpreter's case tables (division, equality,
 * relational comparison, negation) only ever look at NaN-ness, infinities,
 * the sign of zero and the order of finite values, so a double is modelled
 * by that information alone; rounding is not modelled.
 */
module Numbers {

  type NonZeroReal = r: real | r != 0.0 witness 1.0

  /** A double: NaN, the two infinities, the two zeros, or a finite nonzero value. */
  datatype Num = NaN | PosInf | NegInf | PosZero | NegZero | Finite(x: NonZeroReal)

  predicate IsNaN(n: Num) { n.NaN? }

  predicate IsInfinity(n: Num) { n.PosInf? || n.NegInf? }

  /** `n == 0` in IEEE terms: true for both zeros. */
  predicate IsZero(n: Num) { n.PosZero? || n.NegZero? }

  /** `NumberInstance.IsNegativeZero`. */
  predicate IsNegativeZero(n: Num) { n.NegZero? }

  /** `n > 0` in IEEE terms (false for NaN and both zeros). */
  predicate IsPositive(n: Num) { n.PosInf? || (n.Finite? && n.x > 0.0) }

  /** `n < 0` in IEEE terms. */
  predicate IsNegative(n: Num) { n.NegInf? || (n.Finite? && n.x < 0.0) }

  /** The sign bit of a non-NaN double. */
  predicate SignBit(n: Num) { n.NegZero? || IsNegative(n) }

  /** Unary minus `-n`: flips the sign bit, NaN stays NaN. */
  function Negate(n: Num): (r: Num)
    ensures IsNaN(r) <==> IsNaN(n)
    ensures n.Finite? <==> r.Finite?
    ensures n.Finite? ==> r.x + n.x == 0.0
    ensures n == PosInf <==> r == NegInf
    ensures n == PosZero <==> r == NegZero
    ensures !IsNaN(n) ==> SignBit(r) != SignBit(n)
    ensures IsZero(r) <==> IsZero(n)
    ensures IsInfinity(r) <==> IsInfinity(n)
  {
    match n
    case NaN => NaN
    case PosInf => NegInf
    case NegInf => PosInf
    case PosZero => NegZero
    case NegZero => PosZero
    case Finite(x) => Finite(0.0 - x)
  }

  /**
   * The position of a non-NaN double on the extended real line, used as an
   * independent reference for the comparison tables: -oo < finite < +oo.
   */
  datatype ExtReal = MinusInfinity | Real(r: real) | PlusInfinity

  function ToExtReal(n: Num): ExtReal
    requires !IsNaN(n)
  {
    match n
    case PosInf => PlusInfinity
    case NegInf => MinusInfinity
    case PosZero => Real(0.0)
    case NegZero => Real(0.0)
    case Finite(x) => Real(x)
  }

  predicate ExtLess(a: ExtReal, b: ExtReal) {
    match (a, b)
    case (MinusInfinity, MinusInfinity) => false
    case (MinusInfinity, _) => true
    case (Real(x), Real(y)) => x < y
    case (Real(_), PlusInfinity) => true
    case (_, _) => false
  }

  /** IEEE `==` on doubles: NaN equals nothing, +0 equals -0. */
  predicate NumEquals(a: Num, b: Num) {
    !IsNaN(a) && !IsNaN(b) && ToExtReal(a) == ToExtReal(b)
  }

  /** IEEE `<` on doubles. */
  predicate NumLess(a: Num, b: Num) {
    !IsNaN(a) && !IsNaN(b) && ExtLess(ToExtReal(a), ToExtReal(b))
  }

  /** The double nearest an integer: exact here, since rounding is not modelled. */
  function FromInt(i: int): (r: Num)
    ensures !IsNaN(r) && !IsInfinity(r)
    ensures ToExtReal(r) == Real(i as real)
    ensures i == 0 ==> r == PosZero
  {
    if i == 0 then PosZero else Finite(i as real)
  }

  lemma NumEqualsZeros()
    ensures NumEquals(PosZero, NegZero)
    ensures !NumEquals(NaN, NaN)
  {
  }

  lemma {:induction false} NumLessIsStrictOrder(a: Num, b: Num, c: Num)
    ensures !NumLess(a, a)
    ensures NumLess(a, b) ==> !NumLess(b, a)
    ensures NumLess(a, b) && NumLess(b, c) ==> NumLess(a, c)
    ensures !IsNaN(a) && !IsNaN(b) ==> (NumLess(a, b) || NumLess(b, a) || NumEquals(a, b))
  {
  }

  /** `2^k`. */
  function Pow2(k: nat): (p: nat)
    ensures p > 0
    ensures k > 0 ==> p % 2 == 0
  {
    if k == 0 then 1 else 2 * Pow2(k - 1)
  }

  /** A nonzero multiple of a positive `d` is at least `d` away from zero. */
  lemma MultipleAwayFromZero(d: int, x: int)
    requires d > 0
    ensures x >= 1 ==> d * x >= d
    ensures x <= -1 ==> d * x <= -d
  {
    if x >= 1 {
      assert d * x == d + d * (x - 1);
    } else if x <= -1 {
      assert d * x == -d + d * (x + 1);
    }
  }

  /** Floor division is determined by a quotient and a remainder in `[0, d)`. */
  lemma DivisionUnique(a: int, d: int, q: int, rest: int)
    requires d > 0 && a == d * q + rest && 0 <= rest < d
    ensures a / d == q
  {
    var x := a / d - q;
    assert d * (a / d) == d * q + d * x;
    MultipleAwayFromZero(d, x);
  }

  /** Halving and then dividing by `m` is dividing by `2 * m` (floor division). */
  lemma HalfThenDivide(a: int, m: int)
    requires m > 0
    ensures (a / 2) / m == a / (2 * m)
  {
    var q, s := a / 2, (a / 2) / m;
    var rest := 2 * (q % m) + a % 2;
    assert a == (2 * m) * s + rest by {
      assert a == 2 * q + a % 2;
      assert q == m * s + q % m;
    }
    DivisionUnique(a, 2 * m, s, rest);
  }

  /**
   * An arithmetic right shift by `k` bits: each shifted-out bit halves the
   * value, rounding toward negative infinity (C#'s `>>` on signed integers).
   * The result is `a` divided by `2^k`, rounded down.
   */
  function ShiftRight(a: int, k: nat): (r: int)
    ensures r == a / Pow2(k)
    ensures a >= 0 ==> 0 <= r <= a
    ensures a < 0 ==> a <= r < 0
    ensures k > 0 && a >= 0 ==> r <= a / 2
    decreases k
  {
    if k == 0 then a
    else
      HalfThenDivide(a, Pow2(k - 1));
      ShiftRight(a / 2, k - 1)
  }

  /** Exponents add: `2^(i + j) == 2^i * 2^j`. */
  lemma {:induction false} Pow2Add(i: nat, j: nat)
    ensures Pow2(i + j) == Pow2(i) * Pow2(j)
    decreases i
  {
    if i > 0 {
      Pow2Add(i - 1, j);
      assert Pow2(i + j) == 2 * Pow2(i - 1 + j);
    }
  }

  /** `2^32` and `2^64`, the moduli of the 32- and 64-bit integers. */
  lemma Pow2Widths()
    ensures Pow2(32) == 0x1_0000_0000
    ensures Pow2(64) == 0x1_0000_0000_0000_0000
  {
    assert Pow2(1) == 2 && Pow2(2) == 4 && Pow2(3) == 8 && Pow2(4) == 16;
    Pow2Add(4, 4);
    Pow2Add(8, 8);
    Pow2Add(16, 16);
    Pow2Add(32, 32);
  }

  /** Adding `m` whole units of `2^k` before a shift by `k` adds `m` after it. */
  lemma ShiftRightOfOffset(a: int, m: int, k: nat)
    ensures ShiftRight(a + m * Pow2(k), k) == ShiftRight(a, k) + m
  {
    var p := Pow2(k);
    assert a + m * p == p * (a / p + m) + a % p;
    DivisionUnique(a + m * p, p, a / p + m, a % p);
  }
}
