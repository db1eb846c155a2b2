/** `NumberExtensions.UnsignedShift`, used by the number-formatting code. */
module NumberExtensions {
  import opened Numbers

  const TwoTo63: int := 0x8000_0000_0000_0000
  const TwoTo64: int := 0x1_0000_0000_0000_0000

  type Int64 = i: int | -TwoTo63 <= i < TwoTo63

  /** The bit pattern of a `long` read as a `ulong`. */
  function Unsigned64(l: Int64): (u: nat)
    ensures u < TwoTo64
  {
    if l < 0 then l + TwoTo64 else l
  }

  /**
   * `(long)((ulong)l >> shift)`: the bit pattern of `l` read as unsigned,
   * shifted right by `shift & 63` with zeros coming in, and read back as
   * signed.
   */
  function UnsignedShift(l: Int64, shift: int): (r: Int64)
    ensures shift % 64 == 0 ==> r == l
    ensures shift % 64 != 0 ==> r == Unsigned64(l) / Pow2(shift % 64)
    ensures shift % 64 != 0 ==> r >= 0
  {
    var bits := (l + TwoTo64) % TwoTo64;
    UnsignedBits(l);
    var shifted := ShiftRight(bits, shift % 64);
    if shifted >= TwoTo63 then shifted - TwoTo64 else shifted
  }

  /** `(ulong)l` as the source's arithmetic computes it. */
  lemma UnsignedBits(l: Int64)
    ensures (l + TwoTo64) % TwoTo64 == Unsigned64(l)
  {
    if l >= 0 {
      assert l + TwoTo64 == 1 * TwoTo64 + l;
    } else {
      assert 0 <= l + TwoTo64 < TwoTo64;
    }
  }

  /** The shift count only matters modulo 64. */
  lemma UnsignedShiftCountModulo64(l: Int64, shift: int)
    ensures UnsignedShift(l, shift + 64) == UnsignedShift(l, shift)
    ensures UnsignedShift(l, shift - 64) == UnsignedShift(l, shift)
  {
    assert (shift + 64) % 64 == shift % 64;
    assert (shift - 64) % 64 == shift % 64;
  }

  /** On a non-negative value the unsigned shift is the ordinary (arithmetic) shift. */
  lemma UnsignedShiftOfNonNegative(l: Int64, shift: int)
    requires l >= 0
    ensures UnsignedShift(l, shift) == ShiftRight(l, shift % 64)
  {
    assert (l + TwoTo64) % TwoTo64 == l by {
      assert l + TwoTo64 == 1 * TwoTo64 + l && 0 <= l < TwoTo64;
    }
    assert ShiftRight(l, shift % 64) <= l;
  }

  /** Shifting -1 by one bit gives the largest `long`. */
  lemma UnsignedShiftOfMinusOne()
    ensures UnsignedShift(-1, 1) == TwoTo63 - 1
  {
    assert (-1 + TwoTo64) % TwoTo64 == TwoTo64 - 1;
    assert (TwoTo64 - 1) / 2 == TwoTo63 - 1;
    assert ShiftRight(TwoTo64 - 1, 1) == ShiftRight(TwoTo63 - 1, 0);
  }

  /**
   * On a negative value the unsigned shift by `k` in 1..63 is the
   * arithmetic shift plus `2^(64 - k)`: the sign bits shifted in by `>>`
   * are zeros instead.
   */
  lemma UnsignedShiftOfNegative(l: Int64, shift: int)
    requires l < 0 && shift % 64 != 0
    ensures UnsignedShift(l, shift) == ShiftRight(l, shift % 64) + Pow2(64 - shift % 64)
  {
    var k := shift % 64;
    Pow2Widths();
    Pow2Add(64 - k, k);
    ShiftRightOfOffset(l, Pow2(64 - k), k);
  }
}
