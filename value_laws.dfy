/**
 * How the operators of `Value` relate to one another: `==` and `!=` agree
 * on when they apply and give opposite answers, `>` and `<=` are `<` and
 * `>=` with the operands swapped, `>=` is the negation of `<`, and `/` and
 * `%` on Ints satisfy the C++ division identity.
 *
 * Pairs of Doubles are left out of the laws about results: `Host.compare`
 * is uninterpreted separately for each operator, so nothing relates its
 * answers for `==`, `!=`, `<` and the others to one another.
 */
module ValueLaws {
  import opened Int32Arith
  import opened StringOrder
  import opened Values

  predicate BothDouble(a: Value, b: Value) {
    a.Double? && b.Double?
  }

  /** `==` and `!=` accept the same operand pairs and, off Doubles, answer oppositely. */
  lemma EqNeComplement(h: Host, a: Value, b: Value)
    ensures Eq(h, a, b).Ok? <==> Ne(h, a, b).Ok?
    ensures Eq(h, a, b).Ok? && !BothDouble(a, b) ==> Ne(h, a, b).value.b == !Eq(h, a, b).value.b
  {
  }

  /** Every value other than a Double is `==` to itself and not `!=` to itself. */
  lemma EqReflexive(h: Host, a: Value)
    requires !a.Double?
    ensures Eq(h, a, a) == Ok(Bool(true))
    ensures Ne(h, a, a) == Ok(Bool(false))
  {
  }

  /** `==` gives the same answer, or the same failure, with its operands swapped. */
  lemma EqSymmetric(h: Host, a: Value, b: Value)
    requires !BothDouble(a, b)
    ensures Eq(h, a, b) == Eq(h, b, a)
  {
  }

  /** `a > b` is `b < a` and `a <= b` is `b >= a`, failures included. */
  lemma GtIsSwappedLt(h: Host, a: Value, b: Value)
    requires !BothDouble(a, b)
    ensures Gt(h, a, b).Ok? <==> Lt(h, b, a).Ok?
    ensures Gt(h, a, b).Ok? ==> Gt(h, a, b) == Lt(h, b, a)
    ensures Le(h, a, b).Ok? <==> Ge(h, b, a).Ok?
    ensures Le(h, a, b).Ok? ==> Le(h, a, b) == Ge(h, b, a)
  {
  }

  /** `a >= b` is the negation of `a < b`, and `a <= b` that of `a > b`. */
  lemma GeIsNotLt(h: Host, a: Value, b: Value)
    requires !BothDouble(a, b)
    ensures Ge(h, a, b).Ok? <==> Lt(h, a, b).Ok?
    ensures Ge(h, a, b).Ok? ==> Ge(h, a, b).value.b == !Lt(h, a, b).value.b
    ensures Le(h, a, b).Ok? <==> Gt(h, a, b).Ok?
    ensures Le(h, a, b).Ok? ==> Le(h, a, b).value.b == !Gt(h, a, b).value.b
  {
  }

  /**
   * Once either side is a String, exactly one of `<`, `==` and `>` holds:
   * the text order is a strict total order.
   */
  lemma {:induction false} TextTrichotomy(h: Host, a: Value, b: Value)
    requires EitherString(a, b)
    ensures Lt(h, a, b).Ok? && Eq(h, a, b).Ok? && Gt(h, a, b).Ok?
    ensures Lt(h, a, b).value.b || Eq(h, a, b).value.b || Gt(h, a, b).value.b
    ensures !(Lt(h, a, b).value.b && Eq(h, a, b).value.b)
    ensures !(Lt(h, a, b).value.b && Gt(h, a, b).value.b)
    ensures !(Eq(h, a, b).value.b && Gt(h, a, b).value.b)
  {
    var sa, sb := h.str(a), h.str(b);
    CompareNegativeIffLexLess(sa, sb);
    CompareNegativeIffLexLess(sb, sa);
    CompareAntisymmetric(sa, sb);
    CompareZeroIffEqual(sa, sb);
  }

  /**
   * An Int paired with a Double is promoted by the arithmetic operators but
   * has no rule under the comparison operators.
   */
  lemma IntDoubleMix(h: Host, n: int32, x: Float64)
    ensures Add(h, Int(n), Double(x)).Ok? && Add(h, Int(n), Double(x)).value.Double?
    ensures Div(h, Double(x), Int(n)).Ok? && Div(h, Double(x), Int(n)).value.Double?
    ensures Eq(h, Int(n), Double(x)) == Err(TypeMismatch(EqOp))
    ensures Ne(h, Double(x), Int(n)) == Err(TypeMismatch(NeOp))
    ensures Lt(h, Int(n), Double(x)) == Err(TypeMismatch(LtOp))
    ensures Ge(h, Double(x), Int(n)) == Err(TypeMismatch(GeOp))
  {
  }

  /** `+` reaches the same tag, and on two Ints the same sum, whichever operand comes first. */
  lemma AddCommutesOnTags(h: Host, a: Value, b: Value)
    requires IntPair(a, b) ==> InInt32(a.i as int + b.i as int)
    ensures Add(h, a, b).Ok? <==> Add(h, b, a).Ok?
    ensures Add(h, a, b).Ok? ==> TagOf(Add(h, a, b).value) == TagOf(Add(h, b, a).value)
    ensures IntPair(a, b) ==> Add(h, a, b) == Add(h, b, a)
  {
  }

  /**
   * `/` and `%` on two Ints: (a / b) * b + a % b == a, the remainder is
   * smaller than the divisor in magnitude and has the sign of the dividend.
   */
  lemma DivModIdentity(h: Host, a: Value, b: Value)
    requires IntPair(a, b) && IntDivisionDefined(a.i, b.i)
    ensures Div(h, a, b).value.i as int * b.i as int + Mod(a, b).value.i as int == a.i as int
    ensures Abs(Mod(a, b).value.i as int) < Abs(b.i as int)
    ensures Mod(a, b).value.i == 0 || ((Mod(a, b).value.i < 0) == (a.i < 0))
  {
    TruncDivRem(a.i as int, b.i as int);
  }

  /** `&` and `|` on Ints do not depend on operand order; -1 is the unit of `&`, 0 that of `|`. */
  lemma BitwiseCommutes(a: Value, b: Value)
    ensures BitwiseAnd(a, b) == BitwiseAnd(b, a)
    ensures BitwiseOr(a, b) == BitwiseOr(b, a)
    ensures a.Int? ==> BitwiseAnd(a, Int(-1)) == Ok(a) && BitwiseOr(a, Int(0)) == Ok(a)
  {
    if IntPair(a, b) {
      BitwiseLaws(a.i, b.i);
    }
    if a.Int? {
      BitwiseLaws(a.i, a.i);
    }
  }
}
