/**
 * The operator semantics of the expression interpreter that need neither
 * the heap nor user code: division, the three equalities, the relational
 * comparison and the operators built on them, the 32-bit integer operators
 * and `typeof`.
 */
module Operators {
  import opened Wrappers
  import opened Utf16
  import opened Numbers
  import opened JsValues
  import opened Ast
  import JsValueEquality

  type Int32 = i: int | -0x8000_0000 <= i < 0x8000_0000
  type Uint32 = i: int | 0 <= i < 0x1_0000_0000

  /**
   * `TypeConverter`, which is not part of this model, as uninterpreted total
   * functions; the hint `TypeNone` stands for "no hint". The four
   * arithmetic operations are IEEE-754 operations whose rounding is not
   * modelled.
   */
  datatype Converter = Converter(
    toNumber: JsValue -> Num,
    toString: JsValue -> string,
    toBoolean: JsValue -> bool,
    toPrimitive: (JsValue, Types) -> PrimitiveValue,
    primitiveType: JsValue -> Types,
    toInt32: JsValue -> Int32,
    toUint32: JsValue -> Uint32,
    add: (Num, Num) -> Num,
    subtract: (Num, Num) -> Num,
    multiply: (Num, Num) -> Num,
    remainder: (Num, Num) -> Num)

  /**
   * The identity laws every sensible converter obeys on values that already
   * have the target type (sections 9.1-9.3 and 9.8 of ECMA-262 5.1), plus
   * ToNumber of the booleans. Lemmas that need them say so.
   */
  ghost predicate Faithful(c: Converter) {
    && (forall n :: c.toNumber(JsNumber(n)) == n)
    && (forall s :: c.toString(JsString(s)) == s)
    && (forall b :: c.toBoolean(JsBoolean(b)) == b)
    && (forall p: PrimitiveValue, h: Types :: c.toPrimitive(p, h) == p)
    && (forall v: JsValue :: !v.JsObject? ==> c.primitiveType(v) == Tag(v))
    && c.toNumber(JsBoolean(true)) == Finite(1.0)
    && c.toNumber(JsBoolean(false)) == PosZero
  }

  // ---- division ---------------------------------------------------------------

  function SignedZero(negative: bool): Num { if negative then NegZero else PosZero }

  function SignedInfinity(negative: bool): Num { if negative then NegInf else PosInf }

  /**
   * IEEE division in the cases the table of `Divide` leaves to the hardware:
   * no NaN operand, a nonzero divisor, not infinity by infinity.
   */
  function HardwareQuotient(a: Num, b: Num): Num
    requires !IsNaN(a) && !IsNaN(b) && !IsZero(b)
    requires !(IsInfinity(a) && IsInfinity(b))
  {
    var negative := SignBit(a) != SignBit(b);
    if IsInfinity(a) then SignedInfinity(negative)
    else if IsInfinity(b) || IsZero(a) then SignedZero(negative)
    else Finite(a.x / b.x)
  }

  /** The case table of `Divide` on the two numbers. */
  function DivideNumbers(lN: Num, rN: Num): Num {
    if IsNaN(rN) || IsNaN(lN) then NaN
    else if IsInfinity(lN) && IsInfinity(rN) then NaN
    else if IsInfinity(lN) && IsZero(rN) then
      (if IsNegativeZero(rN) then Negate(lN) else lN)
    else if IsZero(lN) && IsZero(rN) then NaN
    else if IsZero(rN) then
      (if IsNegativeZero(rN) then (if IsPositive(lN) then NegInf else PosInf)
       else (if IsPositive(lN) then PosInf else NegInf))
    else HardwareQuotient(lN, rN)
  }

  /** `Divide(lval, rval)`: Undefined if either operand is, else the number table. */
  function Divide(c: Converter, lval: JsValue, rval: JsValue): (r: JsValue)
    ensures r == JsUndefined <==> lval.JsUndefined? || rval.JsUndefined?
    ensures r != JsUndefined ==> r == JsNumber(DivideNumbers(c.toNumber(lval), c.toNumber(rval)))
  {
    if IsUndefined(lval) || IsUndefined(rval) then JsUndefined
    else JsNumber(DivideNumbers(c.toNumber(lval), c.toNumber(rval)))
  }

  /**
   * The table agrees with IEEE-754 division: NaN exactly for a NaN operand,
   * infinity by infinity or zero by zero; otherwise the sign is the
   * exclusive or of the operands' signs, the result is infinite exactly for
   * an infinite dividend or a zero divisor, and zero exactly for a zero
   * dividend or an infinite divisor.
   */
  lemma DivideNumbersIsIeeeDivision(a: Num, b: Num)
    ensures IsNaN(DivideNumbers(a, b)) <==>
      IsNaN(a) || IsNaN(b) || (IsInfinity(a) && IsInfinity(b)) || (IsZero(a) && IsZero(b))
    ensures !IsNaN(DivideNumbers(a, b)) ==> SignBit(DivideNumbers(a, b)) == (SignBit(a) != SignBit(b))
    ensures !IsNaN(DivideNumbers(a, b)) ==> (IsInfinity(DivideNumbers(a, b)) <==> IsInfinity(a) || IsZero(b))
    ensures !IsNaN(DivideNumbers(a, b)) ==> (IsZero(DivideNumbers(a, b)) <==> IsZero(a) || IsInfinity(b))
    ensures a.Finite? && b.Finite? ==> DivideNumbers(a, b) == Finite(a.x / b.x)
  {
  }

  /** The individual rows of the table. */
  lemma DivideRows(c: Converter, l: JsValue, r: JsValue)
    requires !l.JsUndefined? && !r.JsUndefined?
    ensures var lN, rN := c.toNumber(l), c.toNumber(r);
      && (IsNaN(lN) || IsNaN(rN) ==> Divide(c, l, r) == JsNumber(NaN))
      && (IsInfinity(lN) && IsInfinity(rN) ==> Divide(c, l, r) == JsNumber(NaN))
      && (IsZero(lN) && IsZero(rN) ==> Divide(c, l, r) == JsNumber(NaN))
      && (IsInfinity(lN) && rN == PosZero ==> Divide(c, l, r) == JsNumber(lN))
      && (IsInfinity(lN) && rN == NegZero ==> Divide(c, l, r) == JsNumber(Negate(lN)))
      && (lN.Finite? && rN == PosZero ==> Divide(c, l, r) == JsNumber(SignedInfinity(lN.x < 0.0)))
      && (lN.Finite? && rN == NegZero ==> Divide(c, l, r) == JsNumber(SignedInfinity(lN.x > 0.0)))
  {
  }

  // ---- equality ---------------------------------------------------------------

  /**
   * `x._type >= Types.None && x._type <= Types.Null`: the three tags that
   * precede Boolean in the enumeration (Types.cs is not part of this model).
   */
  predicate IsNoneUndefinedOrNull(t: Types) {
    t == TypeNone || t == TypeUndefined || t == TypeNull
  }

  /** `StrictlyEqual` (section 11.9.6). */
  function StrictlyEqual(x: JsValue, y: JsValue): bool {
    if Tag(x) != Tag(y) then false
    else if Tag(x) == TypeBoolean || Tag(x) == TypeString then JsValueEquality.Equals(x, Some(y))
    else if IsNoneUndefinedOrNull(Tag(x)) then true
    else if x.JsNumber? then !IsNaN(x.n) && !IsNaN(y.n) && NumEquals(x.n, y.n)
    else if x.JsObject? && x.kind.ObjectWrapper? then
      (if !(y.JsObject? && y.kind.ObjectWrapper?) then false
       else x.kind.target == y.kind.target)
    else JsValueEquality.OpEquals(Some(x), Some(y))
  }

  /** The rows the specification of strict equality lists. */
  lemma StrictlyEqualRows(x: JsValue, y: JsValue)
    ensures Tag(x) != Tag(y) ==> !StrictlyEqual(x, y)
    ensures x.JsUndefined? && y.JsUndefined? ==> StrictlyEqual(x, y)
    ensures x.JsNull? && y.JsNull? ==> StrictlyEqual(x, y)
    ensures (x.JsNumber? && IsNaN(x.n)) || (y.JsNumber? && IsNaN(y.n)) ==> !StrictlyEqual(x, y)
    ensures StrictlyEqual(JsNumber(PosZero), JsNumber(NegZero))
    ensures x.JsNumber? && y.JsNumber? ==> (StrictlyEqual(x, y) <==> NumEquals(x.n, y.n))
    ensures x.JsString? && y.JsString? ==> (StrictlyEqual(x, y) <==> x.s == y.s)
    ensures x.JsBoolean? && y.JsBoolean? ==> (StrictlyEqual(x, y) <==> x.b == y.b)
  {
  }

  /** Strict equality is symmetric, and reflexive on everything but NaN. */
  lemma StrictlyEqualSymmetric(x: JsValue, y: JsValue)
    ensures StrictlyEqual(x, y) == StrictlyEqual(y, x)
    ensures !(x.JsNumber? && IsNaN(x.n)) ==> StrictlyEqual(x, x)
  {
  }

  /** `SameValue` (section 9.12). */
  function SameValue(c: Converter, x: JsValue, y: JsValue): bool {
    var typea := c.primitiveType(x);
    var typeb := c.primitiveType(y);
    if typea != typeb then false
    else match typea
      case TypeNone => true
      case TypeNumber =>
        var nx := c.toNumber(x);
        var ny := c.toNumber(y);
        if IsNaN(nx) && IsNaN(ny) then true
        else if NumEquals(nx, ny) then
          (if IsZero(nx) then IsNegativeZero(nx) == IsNegativeZero(ny) else true)
        else false
      case TypeString => c.toString(x) == c.toString(y)
      case TypeBoolean => c.toBoolean(x) == c.toBoolean(y)
      case _ => JsValueEquality.OpEquals(Some(x), Some(y))
  }

  /**
   * On numbers `SameValue` is equality of the representation: NaN equals
   * NaN and +0 differs from -0; it agrees with strict equality elsewhere.
   */
  lemma SameValueNumbers(c: Converter, a: Num, b: Num)
    requires Faithful(c)
    ensures SameValue(c, JsNumber(a), JsNumber(b)) <==> a == b
    ensures SameValue(c, JsNumber(NaN), JsNumber(NaN))
    ensures !SameValue(c, JsNumber(PosZero), JsNumber(NegZero))
    ensures !IsNaN(a) && !IsZero(a) ==> (SameValue(c, JsNumber(a), JsNumber(b)) <==> StrictlyEqual(JsNumber(a), JsNumber(b)))
  {
    assert c.primitiveType(JsNumber(a)) == TypeNumber;
    assert c.primitiveType(JsNumber(b)) == TypeNumber;
  }

  /** The ordering `Equal` recurses along: numbers, strings, booleans, objects. */
  function Rank(v: JsValue): nat {
    match v
    case JsNumber(_) => 0
    case JsString(_) => 1
    case JsBoolean(_) => 2
    case JsObject(_, _) => 3
    case _ => 0
  }

  /** The abstract equality comparison `Equal` (section 11.9.3). */
  function Equal(c: Converter, x: JsValue, y: JsValue): bool
    decreases Rank(x) + Rank(y)
  {
    if Tag(x) == Tag(y) then StrictlyEqual(x, y)
    else if Tag(x) == TypeNull && Tag(y) == TypeUndefined then true
    else if Tag(x) == TypeUndefined && Tag(y) == TypeNull then true
    else if Tag(x) == TypeNumber && Tag(y) == TypeString then Equal(c, x, JsNumber(c.toNumber(y)))
    else if Tag(x) == TypeString && Tag(y) == TypeNumber then Equal(c, JsNumber(c.toNumber(x)), y)
    else if Tag(x) == TypeBoolean then Equal(c, JsNumber(c.toNumber(x)), y)
    else if Tag(y) == TypeBoolean then Equal(c, x, JsNumber(c.toNumber(y)))
    else if Tag(y) == TypeObject && (Tag(x) == TypeString || Tag(x) == TypeNumber) then
      Equal(c, x, c.toPrimitive(y, TypeNone))
    else if Tag(x) == TypeObject && (Tag(y) == TypeString || Tag(y) == TypeNumber) then
      Equal(c, c.toPrimitive(x, TypeNone), y)
    else false
  }

  /** The rows of the abstract equality table. */
  lemma EqualRows(c: Converter, x: JsValue, y: JsValue)
    ensures Tag(x) == Tag(y) ==> (Equal(c, x, y) <==> StrictlyEqual(x, y))
    ensures (x.JsNull? && y.JsUndefined?) || (x.JsUndefined? && y.JsNull?) ==> Equal(c, x, y)
    ensures x.JsNumber? && y.JsString? ==> (Equal(c, x, y) <==> NumEquals(x.n, c.toNumber(y)))
    ensures x.JsString? && y.JsNumber? ==> (Equal(c, x, y) <==> NumEquals(c.toNumber(x), y.n))
    ensures x.JsBoolean? && !y.JsBoolean? ==> Equal(c, x, y) == Equal(c, JsNumber(c.toNumber(x)), y)
    ensures y.JsBoolean? && !x.JsBoolean? ==> Equal(c, x, y) == Equal(c, x, JsNumber(c.toNumber(y)))
    ensures y.JsObject? && (x.JsString? || x.JsNumber?) ==> Equal(c, x, y) == Equal(c, x, c.toPrimitive(y, TypeNone))
    ensures x.JsObject? && (y.JsString? || y.JsNumber?) ==> Equal(c, x, y) == Equal(c, c.toPrimitive(x, TypeNone), y)
    ensures (x.JsUndefined? || x.JsNull?) && !(y.JsUndefined? || y.JsNull?) ==> !Equal(c, x, y)
    ensures x.JsSymbol? && !y.JsSymbol? && !y.JsBoolean? ==> !Equal(c, x, y)
  {
  }

  /** Abstract equality is symmetric, whatever the converter. */
  lemma {:induction false} EqualSymmetric(c: Converter, x: JsValue, y: JsValue)
    ensures Equal(c, x, y) == Equal(c, y, x)
    decreases Rank(x) + Rank(y)
  {
    if Tag(x) == Tag(y) {
      StrictlyEqualSymmetric(x, y);
    } else if Tag(x) == TypeNumber && Tag(y) == TypeString {
      StrictlyEqualSymmetric(x, JsNumber(c.toNumber(y)));
    } else if Tag(x) == TypeString && Tag(y) == TypeNumber {
      StrictlyEqualSymmetric(JsNumber(c.toNumber(x)), y);
    } else if Tag(x) == TypeBoolean {
      EqualSymmetric(c, JsNumber(c.toNumber(x)), y);
    } else if Tag(y) == TypeBoolean {
      EqualSymmetric(c, x, JsNumber(c.toNumber(y)));
    } else if Tag(y) == TypeObject && (Tag(x) == TypeString || Tag(x) == TypeNumber) {
      EqualSymmetric(c, x, c.toPrimitive(y, TypeNone));
    } else if Tag(x) == TypeObject && (Tag(y) == TypeString || Tag(y) == TypeNumber) {
      EqualSymmetric(c, c.toPrimitive(x, TypeNone), y);
    }
  }

  /** Strict equality implies abstract equality. */
  lemma StrictlyEqualImpliesEqual(c: Converter, x: JsValue, y: JsValue)
    requires StrictlyEqual(x, y)
    ensures Equal(c, x, y)
  {
  }

  // ---- relational comparison ----------------------------------------------------

  /** `String.CompareOrdinal(a, b)` < 0 on the UTF-16 code units of two strings: lexicographic order. */
  predicate OrdinalLess(a: seq<CodeUnit>, b: seq<CodeUnit>)
    decreases |a|
  {
    if |b| == 0 then false
    else if |a| == 0 then true
    else if a[0] != b[0] then a[0] < b[0]
    else OrdinalLess(a[1..], b[1..])
  }

  /** The ordinal order is irreflexive and asymmetric. */
  lemma {:induction false} OrdinalLessAsymmetric(a: seq<CodeUnit>, b: seq<CodeUnit>)
    ensures !OrdinalLess(a, a)
    ensures OrdinalLess(a, b) ==> !OrdinalLess(b, a)
    decreases |a|
  {
    if |a| > 0 && |b| > 0 {
      OrdinalLessAsymmetric(a[1..], b[1..]);
    }
    if |a| > 0 {
      OrdinalLessAsymmetric(a[1..], a[1..]);
    }
  }

  /** The ordinal order is transitive. */
  lemma {:induction false} OrdinalLessTransitive(a: seq<CodeUnit>, b: seq<CodeUnit>, d: seq<CodeUnit>)
    requires OrdinalLess(a, b) && OrdinalLess(b, d)
    ensures OrdinalLess(a, d)
    decreases |a|
  {
    if |a| > 0 && a[0] == b[0] && b[0] == d[0] {
      OrdinalLessTransitive(a[1..], b[1..], d[1..]);
    }
  }

  /** Any two different strings are ordered one way or the other. */
  lemma {:induction false} OrdinalLessTotal(a: seq<CodeUnit>, b: seq<CodeUnit>)
    requires a != b
    ensures OrdinalLess(a, b) || OrdinalLess(b, a)
    decreases |a|
  {
    if |a| > 0 && |b| > 0 && a[0] == b[0] {
      assert a == [a[0]] + a[1..] && b == [b[0]] + b[1..];
      OrdinalLessTotal(a[1..], b[1..]);
    }
  }

  /**
   * `Compare(x, y, leftFirst)` (section 11.8.5): Undefined when a NaN is
   * involved, else a boolean. `leftFirst` only orders the two conversions,
   * which have no side effects here.
   */
  function Compare(c: Converter, x: JsValue, y: JsValue, leftFirst: bool): (r: JsValue)
    ensures r == JsUndefined || r.JsBoolean?
  {
    var px := c.toPrimitive(x, TypeNumber);
    var py := c.toPrimitive(y, TypeNumber);
    if Tag(px) != TypeString || Tag(py) != TypeString then
      var nx := c.toNumber(px);
      var ny := c.toNumber(py);
      if IsNaN(nx) || IsNaN(ny) then JsUndefined
      else if NumEquals(nx, ny) then JsBoolean(false)
      else if nx.PosInf? then JsBoolean(false)
      else if ny.PosInf? then JsBoolean(true)
      else if ny.NegInf? then JsBoolean(false)
      else if nx.NegInf? then JsBoolean(true)
      else JsBoolean(NumLess(nx, ny))
    else
      JsBoolean(OrdinalLess(Encode(c.toString(x)), Encode(c.toString(y))))
  }

  /** On numbers `Compare` is the IEEE order, Undefined for NaN. */
  lemma CompareNumbers(c: Converter, a: Num, b: Num, leftFirst: bool)
    requires Faithful(c)
    ensures Compare(c, JsNumber(a), JsNumber(b), leftFirst) ==
      if IsNaN(a) || IsNaN(b) then JsUndefined else JsBoolean(NumLess(a, b))
  {
    assert c.toPrimitive(JsNumber(a), TypeNumber) == JsNumber(a);
    assert c.toPrimitive(JsNumber(b), TypeNumber) == JsNumber(b);
  }

  /** On strings `Compare` is the ordinal order of their UTF-16 code units. */
  lemma CompareStrings(c: Converter, a: string, b: string, leftFirst: bool)
    requires Faithful(c)
    ensures Compare(c, JsString(a), JsString(b), leftFirst) == JsBoolean(OrdinalLess(Encode(a), Encode(b)))
  {
    assert c.toPrimitive(JsString(a), TypeNumber) == JsString(a);
    assert c.toPrimitive(JsString(b), TypeNumber) == JsString(b);
  }

  /**
   * The order is that of .NET's code units, not that of the characters:
   * U+10000, the surrogate pair 0xD800 0xDC00, sorts before U+FFFF.
   */
  lemma CompareStringsByCodeUnits(c: Converter, leftFirst: bool)
    requires Faithful(c)
    ensures ('\U{FFFF}' as int) < ('\U{10000}' as int)
    ensures Compare(c, JsString("\U{10000}"), JsString("\U{FFFF}"), leftFirst) == JsBoolean(true)
    ensures Compare(c, JsString("\U{FFFF}"), JsString("\U{10000}"), leftFirst) == JsBoolean(false)
  {
    CompareStrings(c, "\U{10000}", "\U{FFFF}", leftFirst);
    CompareStrings(c, "\U{FFFF}", "\U{10000}", leftFirst);
    assert Encode("\U{10000}") == [0xD800, 0xDC00];
    assert Encode("\U{FFFF}") == [0xFFFF];
  }

  // ---- 32-bit integer operators ---------------------------------------------------


  function ToBits(a: Int32): bv32 {
    (if a < 0 then a + 0x1_0000_0000 else a) as bv32
  }

  function FromBits(b: bv32): Int32 {
    var u := b as int;
    if u < 0x8000_0000 then u else u - 0x1_0000_0000
  }

  /** `(int)(ToUint32(r) & 0x1F)`: the shift count is taken modulo 32. */
  function ShiftCount(u: Uint32): (k: nat)
    ensures k < 32 && k == u % 32
  {
    u % 32
  }

  /** `&`, `|` and `^` on two `int`s, bit by bit. */
  function Int32And(a: Int32, b: Int32): Int32 { FromBits(ToBits(a) & ToBits(b)) }

  function Int32Or(a: Int32, b: Int32): Int32 { FromBits(ToBits(a) | ToBits(b)) }

  function Int32XOr(a: Int32, b: Int32): Int32 { FromBits(ToBits(a) ^ ToBits(b)) }

  function Int32ShiftLeft(a: Int32, k: nat): Int32 requires k < 32 { FromBits(ToBits(a) << k) }

  /** `(uint)a >> k`: the bit pattern read as unsigned, then shifted. */
  function Uint32ShiftRight(a: Int32, k: nat): (r: nat)
    ensures r < 0x1_0000_0000
    ensures r == (if a < 0 then a as int + 0x1_0000_0000 else a as int) / Pow2(k)
    ensures a >= 0 ==> r == ShiftRight(a, k)
  {
    ShiftRight((a as int + 0x1_0000_0000) % 0x1_0000_0000, k)
  }

  /**
   * On a negative value `>>>` by `k` in 1..31 is `>>` plus `2^(32 - k)`:
   * zeros come in where `>>` copies the sign bit.
   */
  lemma Uint32ShiftRightOfNegative(a: Int32, k: nat)
    requires a < 0 && 0 < k < 32
    ensures Uint32ShiftRight(a, k) == ShiftRight(a, k) + Pow2(32 - k)
  {
    Pow2Widths();
    Pow2Add(32 - k, k);
    ShiftRightOfOffset(a, Pow2(32 - k), k);
  }

  /** `~a`: the two's complement of the bit pattern. */
  function Int32Not(a: Int32): (r: Int32)
    ensures r == -(a as int) - 1
  {
    -(a as int) - 1
  }

  // ---- the binary operators that need no heap ---------------------------------------

  /** `instanceof`, `in` and the logical operators are evaluated elsewhere. */
  predicate IsValueOperator(op: BinaryOperator) {
    !(op == InstanceOf || op == In || op == LogicalAnd || op == LogicalOr)
  }

  function Number(n: Num): JsValue { JsNumber(n) }

  function Int(i: int): JsValue { JsValues.FromInt(i) }

  /** `TypeConverter.ToString(lprim) + TypeConverter.ToString(rprim)` or numeric addition. */
  function Plus(c: Converter, left: JsValue, right: JsValue): JsValue {
    var lprim := c.toPrimitive(left, TypeNone);
    var rprim := c.toPrimitive(right, TypeNone);
    if IsString(lprim) || IsString(rprim) then JsString(c.toString(lprim) + c.toString(rprim))
    else JsNumber(c.add(c.toNumber(lprim), c.toNumber(rprim)))
  }

  predicate IsIntegerOperator(op: BinaryOperator) {
    op in {BinaryOperator.BitwiseAnd, BinaryOperator.BitwiseOr, BinaryOperator.BitwiseXOr,
           BinaryOperator.LeftShift, BinaryOperator.RightShift, BinaryOperator.UnsignedRightShift}
  }

  /**
   * The bitwise and shift operators: the left operand through ToInt32, the
   * right through ToInt32 or, for a shift, ToUint32 masked to five bits.
   */
  function IntegerOperator(c: Converter, op: BinaryOperator, left: JsValue, right: JsValue): JsValue
    requires IsIntegerOperator(op)
  {
    match op
    case BitwiseAnd => Int(Int32And(c.toInt32(left), c.toInt32(right)))
    case BitwiseOr => Int(Int32Or(c.toInt32(left), c.toInt32(right)))
    case BitwiseXOr => Int(Int32XOr(c.toInt32(left), c.toInt32(right)))
    case LeftShift => Int(Int32ShiftLeft(c.toInt32(left), ShiftCount(c.toUint32(right))))
    case RightShift => Int(ShiftRight(c.toInt32(left), ShiftCount(c.toUint32(right))))
    case UnsignedRightShift => Int(Uint32ShiftRight(c.toInt32(left), ShiftCount(c.toUint32(right))))
  }

  /**
   * The `switch (expression.Operator)` of `EvaluateBinaryExpression` for the
   * operators that need no heap.
   */
  function ValueOperator(c: Converter, op: BinaryOperator, left: JsValue, right: JsValue): JsValue
    requires IsValueOperator(op)
  {
    match op
    case Plus => Plus(c, left, right)
    case Minus => Number(c.subtract(c.toNumber(left), c.toNumber(right)))
    case Times =>
      if IsUndefined(left) || IsUndefined(right) then JsUndefined
      else Number(c.multiply(c.toNumber(left), c.toNumber(right)))
    case Divide => Divide(c, left, right)
    case Modulo =>
      if IsUndefined(left) || IsUndefined(right) then JsUndefined
      else Number(c.remainder(c.toNumber(left), c.toNumber(right)))
    case Equal => JsBoolean(Equal(c, left, right))
    case NotEqual => JsBoolean(!Equal(c, left, right))
    case Greater =>
      var value := Compare(c, right, left, false);
      if IsUndefined(value) then JsBoolean(false) else value
    case GreaterOrEqual =>
      var value := Compare(c, left, right, true);
      if IsUndefined(value) || value.b then JsBoolean(false) else JsBoolean(true)
    case Less =>
      var value := Compare(c, left, right, true);
      if IsUndefined(value) then JsBoolean(false) else value
    case LessOrEqual =>
      var value := Compare(c, right, left, false);
      if IsUndefined(value) || value.b then JsBoolean(false) else JsBoolean(true)
    case StrictlyEqual => JsBoolean(StrictlyEqual(left, right))
    case StricltyNotEqual => JsBoolean(!StrictlyEqual(left, right))
    case BitwiseAnd => IntegerOperator(c, op, left, right)
    case BitwiseOr => IntegerOperator(c, op, left, right)
    case BitwiseXOr => IntegerOperator(c, op, left, right)
    case LeftShift => IntegerOperator(c, op, left, right)
    case RightShift => IntegerOperator(c, op, left, right)
    case UnsignedRightShift => IntegerOperator(c, op, left, right)
  }

  /** `*` and `%` give Undefined exactly when an operand is Undefined, a number otherwise. */
  lemma TimesModuloUndefined(c: Converter, op: BinaryOperator, left: JsValue, right: JsValue)
    requires op == Times || op == Modulo
    ensures (ValueOperator(c, op, left, right) == JsUndefined) <==> (left.JsUndefined? || right.JsUndefined?)
    ensures !(left.JsUndefined? || right.JsUndefined?) ==> ValueOperator(c, op, left, right).JsNumber?
  {
  }

  /**
   * The relational operators: `<` and `>` read Undefined as false, `>=` and
   * `<=` are true exactly when the comparison they make is neither Undefined
   * nor true; `>` and `<=` compare with the operands swapped.
   */
  lemma RelationalOperators(c: Converter, left: JsValue, right: JsValue)
    ensures ValueOperator(c, Less, left, right) == JsBoolean(Compare(c, left, right, true) == JsBoolean(true))
    ensures ValueOperator(c, Greater, left, right) == JsBoolean(Compare(c, right, left, false) == JsBoolean(true))
    ensures ValueOperator(c, GreaterOrEqual, left, right) == JsBoolean(Compare(c, left, right, true) == JsBoolean(false))
    ensures ValueOperator(c, LessOrEqual, left, right) == JsBoolean(Compare(c, right, left, false) == JsBoolean(false))
  {
  }

  /** On numbers the four relational operators are the IEEE comparisons. */
  lemma RelationalOperatorsOnNumbers(c: Converter, a: Num, b: Num)
    requires Faithful(c)
    ensures ValueOperator(c, Less, JsNumber(a), JsNumber(b)) == JsBoolean(NumLess(a, b))
    ensures ValueOperator(c, Greater, JsNumber(a), JsNumber(b)) == JsBoolean(NumLess(b, a))
    ensures ValueOperator(c, GreaterOrEqual, JsNumber(a), JsNumber(b)) == JsBoolean(NumLess(b, a) || NumEquals(a, b))
    ensures ValueOperator(c, LessOrEqual, JsNumber(a), JsNumber(b)) == JsBoolean(NumLess(a, b) || NumEquals(a, b))
  {
    CompareNumbers(c, a, b, true);
    CompareNumbers(c, b, a, false);
    RelationalOperators(c, JsNumber(a), JsNumber(b));
    NumLessIsStrictOrder(a, b, b);
  }

  /** The negated operators are the negations. */
  lemma NegatedOperators(c: Converter, left: JsValue, right: JsValue)
    ensures ValueOperator(c, NotEqual, left, right).b == !ValueOperator(c, BinaryOperator.Equal, left, right).b
    ensures ValueOperator(c, StricltyNotEqual, left, right).b == !ValueOperator(c, BinaryOperator.StrictlyEqual, left, right).b
  {
  }

  // ---- compound assignment ------------------------------------------------------------

  /** The binary operator a compound assignment applies, if any. */
  function CompoundOperator(op: AssignmentOperator): Option<BinaryOperator> {
    match op
    case PlusAssign => Some(BinaryOperator.Plus)
    case MinusAssign => Some(Minus)
    case TimesAssign => Some(Times)
    case DivideAssign => Some(BinaryOperator.Divide)
    case ModuloAssign => Some(Modulo)
    case BitwiseAndAssign => Some(BinaryOperator.BitwiseAnd)
    case BitwiseOrAssign => Some(BinaryOperator.BitwiseOr)
    case BitwiseXOrAssign => Some(BinaryOperator.BitwiseXOr)
    case LeftShiftAssign => Some(BinaryOperator.LeftShift)
    case RightShiftAssign => Some(BinaryOperator.RightShift)
    case UnsignedRightShiftAssign => Some(BinaryOperator.UnsignedRightShift)
    case _ => None
  }

  /**
   * The `switch (assignmentExpression.Operator)` of
   * `EvaluateAssignmentExpression`: the new value of the target, or
   * NotImplemented for an operator it does not know.
   */
  function CompoundAssignment(c: Converter, op: AssignmentOperator, lval: JsValue, rval: JsValue): Result<JsValue>
    requires op != Assign
  {
    match op
    case PlusAssign =>
      var lprim := c.toPrimitive(lval, TypeNone);
      var rprim := c.toPrimitive(rval, TypeNone);
      if IsString(lprim) || IsString(rprim) then
        var prefix := if !lprim.JsString? then c.toString(lprim) else lprim.s;
        Ok(JsString(prefix + c.toString(rprim)))
      else Ok(JsNumber(c.add(c.toNumber(lprim), c.toNumber(rprim))))
    case MinusAssign => Ok(Number(c.subtract(c.toNumber(lval), c.toNumber(rval))))
    case TimesAssign =>
      if IsUndefined(lval) || IsUndefined(rval) then Ok(JsUndefined)
      else Ok(Number(c.multiply(c.toNumber(lval), c.toNumber(rval))))
    case DivideAssign => Ok(Divide(c, lval, rval))
    case ModuloAssign =>
      if IsUndefined(lval) || IsUndefined(rval) then Ok(JsUndefined)
      else Ok(Number(c.remainder(c.toNumber(lval), c.toNumber(rval))))
    case BitwiseAndAssign => Ok(IntegerOperator(c, BinaryOperator.BitwiseAnd, lval, rval))
    case BitwiseOrAssign => Ok(IntegerOperator(c, BinaryOperator.BitwiseOr, lval, rval))
    case BitwiseXOrAssign => Ok(IntegerOperator(c, BinaryOperator.BitwiseXOr, lval, rval))
    case LeftShiftAssign => Ok(IntegerOperator(c, BinaryOperator.LeftShift, lval, rval))
    case RightShiftAssign => Ok(IntegerOperator(c, BinaryOperator.RightShift, lval, rval))
    case UnsignedRightShiftAssign => Ok(IntegerOperator(c, BinaryOperator.UnsignedRightShift, lval, rval))
    case OtherAssign => ClrThrow(NotImplemented)
  }

  /**
   * `x op= y` stores what `x op y` computes: string concatenation by
   * `Append` agrees with `+` once ToString is the identity on strings.
   */
  lemma CompoundAssignmentMatchesBinary(c: Converter, op: AssignmentOperator, lval: JsValue, rval: JsValue)
    requires Faithful(c)
    requires op != Assign
    ensures CompoundOperator(op).Some? <==> CompoundAssignment(c, op, lval, rval).Ok?
    ensures CompoundOperator(op).Some? ==>
      IsValueOperator(CompoundOperator(op).value) &&
      CompoundAssignment(c, op, lval, rval).value == ValueOperator(c, CompoundOperator(op).value, lval, rval)
  {
    if op in {PlusAssign, MinusAssign, TimesAssign, DivideAssign, ModuloAssign} {
      ArithmeticAssignmentMatchesBinary(c, op, lval, rval);
    } else if op != OtherAssign {
      IntegerAssignmentMatchesBinary(c, op, lval, rval);
    }
  }

  lemma ArithmeticAssignmentMatchesBinary(c: Converter, op: AssignmentOperator, lval: JsValue, rval: JsValue)
    requires Faithful(c)
    requires op in {PlusAssign, MinusAssign, TimesAssign, DivideAssign, ModuloAssign}
    ensures CompoundOperator(op).Some? && IsValueOperator(CompoundOperator(op).value)
    ensures CompoundAssignment(c, op, lval, rval) == Ok(ValueOperator(c, CompoundOperator(op).value, lval, rval))
  {
    if op == PlusAssign {
      var lprim := c.toPrimitive(lval, TypeNone);
      if lprim.JsString? {
        assert c.toString(lprim) == lprim.s;
      }
    }
  }

  lemma IntegerAssignmentMatchesBinary(c: Converter, op: AssignmentOperator, lval: JsValue, rval: JsValue)
    requires op in {BitwiseAndAssign, BitwiseOrAssign, BitwiseXOrAssign, LeftShiftAssign, RightShiftAssign, UnsignedRightShiftAssign}
    ensures CompoundOperator(op).Some? && IsValueOperator(CompoundOperator(op).value)
    ensures CompoundAssignment(c, op, lval, rval) == Ok(ValueOperator(c, CompoundOperator(op).value, lval, rval))
  {
    var bop := CompoundOperator(op).value;
    assert CompoundAssignment(c, op, lval, rval) == Ok(IntegerOperator(c, bop, lval, rval));
    ValueOperatorOnIntegers(c, bop, lval, rval);
  }

  lemma ValueOperatorOnIntegers(c: Converter, op: BinaryOperator, left: JsValue, right: JsValue)
    requires IsIntegerOperator(op)
    ensures IsValueOperator(op) && ValueOperator(c, op, left, right) == IntegerOperator(c, op, left, right)
  {
  }

  // ---- typeof ---------------------------------------------------------------------------

  /** The `typeof` of a value (after the unresolvable-reference test). */
  function TypeOfValue(v: JsValue): (r: string)
    ensures v.JsNull? ==> r == "object"
    ensures v.JsUndefined? ==> r == "undefined"
    ensures v.JsObject? ==> (r == "function" <==> IsCallable(v))
  {
    if IsUndefined(v) then "undefined"
    else if IsNull(v) then "object"
    else if v.JsBoolean? then "boolean"
    else if v.JsNumber? then "number"
    else if v.JsString? then "string"
    else if TryCast(v, ICallableType, None) != Ok(None) then "function"
    else "object"
  }
}
