/**
 * Nyx's dynamic `Value`: a tagged union over Null, Bool, Int, Double and
 * String, and its fifteen binary operators. Each operator tests the pair of
 * operand tags in a fixed order and either builds a fresh Value or fails
 * with a type mismatch naming the operator.
 *
 * Operators are functions on values, so they cannot change their operands:
 * every result is a new Value.
 */
module Values {
  import opened Int32Arith
  import opened StringOrder

  /** A C++ `double`, kept as its IEEE 754 binary64 encoding and never inspected. */
  datatype Float64 = Float64(bits: bv64)

  datatype Value =
    | Null
    | Bool(b: bool)
    | Int(i: int32)
    | Double(d: Float64)
    | String(s: string)

  datatype Tag = TNull | TBool | TInt | TDouble | TString

  function TagOf(v: Value): Tag {
    match v
    case Null => TNull
    case Bool(_) => TBool
    case Int(_) => TInt
    case Double(_) => TDouble
    case String(_) => TString
  }

  /** The fifteen binary operators of `Value`. */
  datatype BinOp =
    | AddOp | SubOp | MulOp | DivOp | ModOp
    | AndOp | OrOp
    | EqOp | NeOp | GtOp | GeOp | LtOp | LeOp
    | BitAndOp | BitOrOp

  /** "unexpected arguments of <op>": no rule for this pair of operand tags. */
  datatype OpError = TypeMismatch(op: BinOp)

  datatype Result<T> = Ok(value: T) | Err(error: OpError)

  datatype Option<T> = None | Some(value: T)

  /**
   * What the operators take from outside this file, left uninterpreted:
   * the canonical stringification of a Value, the conversion of an `int`
   * to `double`, and `double` arithmetic and comparison by operator.
   */
  datatype Host = Host(
    str: Value -> string,
    toDouble: int32 -> Float64,
    arith: (BinOp, Float64, Float64) -> Float64,
    compare: (BinOp, Float64, Float64) -> bool)

  // ---------------------------------------------------------------------------
  // The coercion matrix, by operand tags
  // ---------------------------------------------------------------------------

  /** Result tag of `-`, `*` and `/`: Int for two Ints, Double for any other pair of numbers. */
  function NumericTag(l: Tag, r: Tag): Option<Tag> {
    match (l, r)
    case (TInt, TInt) => Some(TInt)
    case (TInt, TDouble) => Some(TDouble)
    case (TDouble, TInt) => Some(TDouble)
    case (TDouble, TDouble) => Some(TDouble)
    case _ => None
  }

  /** Result tag of `+`: the numeric rule, else String when either side is a String. */
  function PlusTag(l: Tag, r: Tag): Option<Tag> {
    match (l, r)
    case (TInt, TInt) => Some(TInt)
    case (TInt, TDouble) => Some(TDouble)
    case (TDouble, TInt) => Some(TDouble)
    case (TDouble, TDouble) => Some(TDouble)
    case (TString, _) => Some(TString)
    case (_, TString) => Some(TString)
    case _ => None
  }

  /** Operand tags `==` and `!=` accept: a String on either side, or the same tag on both. */
  predicate EqualityDomain(l: Tag, r: Tag) {
    l == TString || r == TString || l == r
  }

  /** Operand tags `>`, `>=`, `<` and `<=` accept: a String on either side, or two Ints, or two Doubles. */
  predicate OrderingDomain(l: Tag, r: Tag) {
    l == TString || r == TString || (l == TInt && r == TInt) || (l == TDouble && r == TDouble)
  }

  predicate IntPair(lhs: Value, rhs: Value) {
    lhs.Int? && rhs.Int?
  }

  predicate BoolPair(lhs: Value, rhs: Value) {
    lhs.Bool? && rhs.Bool?
  }

  predicate EitherString(lhs: Value, rhs: Value) {
    lhs.String? || rhs.String?
  }

  /** The C++ `int` quotient `a / b` is defined: a non-zero divisor, and not INT_MIN / -1. */
  predicate IntDivisionDefined(a: int32, b: int32) {
    b != 0 && !(a as int == MIN_INT32 && b == -1)
  }

  // ---------------------------------------------------------------------------
  // Arithmetic
  // ---------------------------------------------------------------------------

  /** `Value::operator+` */
  function Add(h: Host, lhs: Value, rhs: Value): (r: Result<Value>)
    requires IntPair(lhs, rhs) ==> InInt32(lhs.i as int + rhs.i as int)
    ensures r.Ok? <==> PlusTag(TagOf(lhs), TagOf(rhs)).Some?
    ensures r.Ok? ==> TagOf(r.value) == PlusTag(TagOf(lhs), TagOf(rhs)).value
    ensures r.Err? ==> r.error == TypeMismatch(AddOp)
    ensures IntPair(lhs, rhs) ==> r.Ok? && r.value.i as int == lhs.i as int + rhs.i as int
    ensures r.Ok? && r.value.String? ==> r.value.s == h.str(lhs) + h.str(rhs)
  {
    if lhs.Int? && rhs.Int? then Ok(Int(lhs.i + rhs.i))
    else if lhs.Double? && rhs.Double? then Ok(Double(h.arith(AddOp, lhs.d, rhs.d)))
    else if lhs.Int? && rhs.Double? then Ok(Double(h.arith(AddOp, h.toDouble(lhs.i), rhs.d)))
    else if lhs.Double? && rhs.Int? then Ok(Double(h.arith(AddOp, lhs.d, h.toDouble(rhs.i))))
    else if lhs.String? || rhs.String? then Ok(String(h.str(lhs) + h.str(rhs)))
    else Err(TypeMismatch(AddOp))
  }

  /**
   * The shared Double arms of `-`, `*` and `/`: two Doubles, or an Int and a
   * Double with the Int converted first.
   */
  function MixedArith(h: Host, op: BinOp, lhs: Value, rhs: Value): (r: Result<Value>)
    requires !IntPair(lhs, rhs)
    ensures r.Ok? <==> NumericTag(TagOf(lhs), TagOf(rhs)).Some?
    ensures r.Ok? ==> r.value.Double?
    ensures r.Err? ==> r.error == TypeMismatch(op)
  {
    if lhs.Double? && rhs.Double? then Ok(Double(h.arith(op, lhs.d, rhs.d)))
    else if lhs.Int? && rhs.Double? then Ok(Double(h.arith(op, h.toDouble(lhs.i), rhs.d)))
    else if lhs.Double? && rhs.Int? then Ok(Double(h.arith(op, lhs.d, h.toDouble(rhs.i))))
    else Err(TypeMismatch(op))
  }

  /** `Value::operator-` */
  function Sub(h: Host, lhs: Value, rhs: Value): (r: Result<Value>)
    requires IntPair(lhs, rhs) ==> InInt32(lhs.i as int - rhs.i as int)
    ensures r.Ok? <==> NumericTag(TagOf(lhs), TagOf(rhs)).Some?
    ensures r.Ok? ==> TagOf(r.value) == NumericTag(TagOf(lhs), TagOf(rhs)).value
    ensures r.Err? ==> r.error == TypeMismatch(SubOp)
    ensures IntPair(lhs, rhs) ==> r.Ok? && r.value.i as int == lhs.i as int - rhs.i as int
  {
    if lhs.Int? && rhs.Int? then Ok(Int(lhs.i - rhs.i))
    else MixedArith(h, SubOp, lhs, rhs)
  }

  /** `Value::operator*` */
  function Mul(h: Host, lhs: Value, rhs: Value): (r: Result<Value>)
    requires IntPair(lhs, rhs) ==> InInt32(lhs.i as int * rhs.i as int)
    ensures r.Ok? <==> NumericTag(TagOf(lhs), TagOf(rhs)).Some?
    ensures r.Ok? ==> TagOf(r.value) == NumericTag(TagOf(lhs), TagOf(rhs)).value
    ensures r.Err? ==> r.error == TypeMismatch(MulOp)
    ensures IntPair(lhs, rhs) ==> r.Ok? && r.value.i as int == lhs.i as int * rhs.i as int
  {
    if lhs.Int? && rhs.Int? then Ok(Int(lhs.i * rhs.i))
    else MixedArith(h, MulOp, lhs, rhs)
  }

  /** `Value::operator/`; on two Ints the quotient is truncated toward zero. */
  function Div(h: Host, lhs: Value, rhs: Value): (r: Result<Value>)
    requires IntPair(lhs, rhs) ==> IntDivisionDefined(lhs.i, rhs.i)
    ensures r.Ok? <==> NumericTag(TagOf(lhs), TagOf(rhs)).Some?
    ensures r.Ok? ==> TagOf(r.value) == NumericTag(TagOf(lhs), TagOf(rhs)).value
    ensures r.Err? ==> r.error == TypeMismatch(DivOp)
    ensures IntPair(lhs, rhs) ==> r.Ok? && r.value.i as int == TruncDiv(lhs.i as int, rhs.i as int)
  {
    if lhs.Int? && rhs.Int? then
      TruncDivFits(lhs.i, rhs.i);
      Ok(Int(TruncDiv(lhs.i as int, rhs.i as int) as int32))
    else MixedArith(h, DivOp, lhs, rhs)
  }

  /** `Value::operator%`: two Ints only, the remainder taking the sign of the dividend. */
  function Mod(lhs: Value, rhs: Value): (r: Result<Value>)
    requires IntPair(lhs, rhs) ==> IntDivisionDefined(lhs.i, rhs.i)
    ensures r.Ok? <==> IntPair(lhs, rhs)
    ensures r.Ok? ==> r.value.Int? && r.value.i as int == TruncRem(lhs.i as int, rhs.i as int)
    ensures r.Err? ==> r.error == TypeMismatch(ModOp)
  {
    if lhs.Int? && rhs.Int? then
      TruncRemFits(lhs.i, rhs.i);
      Ok(Int(TruncRem(lhs.i as int, rhs.i as int) as int32))
    else Err(TypeMismatch(ModOp))
  }

  // ---------------------------------------------------------------------------
  // Logical and bitwise
  // ---------------------------------------------------------------------------

  /** `Value::operator&&` */
  function And(lhs: Value, rhs: Value): (r: Result<Value>)
    ensures r.Ok? <==> BoolPair(lhs, rhs)
    ensures r.Ok? ==> r.value.Bool? && (r.value.b <==> lhs.b && rhs.b)
    ensures r.Err? ==> r.error == TypeMismatch(AndOp)
  {
    if lhs.Bool? && rhs.Bool? then Ok(Bool(lhs.b && rhs.b))
    else Err(TypeMismatch(AndOp))
  }

  /** `Value::operator||` */
  function Or(lhs: Value, rhs: Value): (r: Result<Value>)
    ensures r.Ok? <==> BoolPair(lhs, rhs)
    ensures r.Ok? ==> r.value.Bool? && (r.value.b <==> lhs.b || rhs.b)
    ensures r.Err? ==> r.error == TypeMismatch(OrOp)
  {
    if lhs.Bool? && rhs.Bool? then Ok(Bool(lhs.b || rhs.b))
    else Err(TypeMismatch(OrOp))
  }

  /** `Value::operator&` */
  function BitwiseAnd(lhs: Value, rhs: Value): (r: Result<Value>)
    ensures r.Ok? <==> IntPair(lhs, rhs)
    ensures r.Ok? ==> r.value.Int? && (r.value.i < 0 <==> lhs.i < 0 && rhs.i < 0)
    ensures r.Ok? ==> r.value.i == BitAnd(lhs.i, rhs.i)
    ensures r.Err? ==> r.error == TypeMismatch(BitAndOp)
  {
    if lhs.Int? && rhs.Int? then
      BitwiseLaws(lhs.i, rhs.i);
      Ok(Int(BitAnd(lhs.i, rhs.i)))
    else Err(TypeMismatch(BitAndOp))
  }

  /** `Value::operator|` */
  function BitwiseOr(lhs: Value, rhs: Value): (r: Result<Value>)
    ensures r.Ok? <==> IntPair(lhs, rhs)
    ensures r.Ok? ==> r.value.Int? && (r.value.i < 0 <==> lhs.i < 0 || rhs.i < 0)
    ensures r.Ok? ==> r.value.i == BitOr(lhs.i, rhs.i)
    ensures r.Err? ==> r.error == TypeMismatch(BitOrOp)
  {
    if lhs.Int? && rhs.Int? then
      BitwiseLaws(lhs.i, rhs.i);
      Ok(Int(BitOr(lhs.i, rhs.i)))
    else Err(TypeMismatch(BitOrOp))
  }

  // ---------------------------------------------------------------------------
  // Equality. The String arm comes before the Bool and Null arms, so a Bool or
  // Null compared with a String is compared as text.
  // ---------------------------------------------------------------------------

  /** `Value::operator==` */
  function Eq(h: Host, lhs: Value, rhs: Value): (r: Result<Value>)
    ensures r.Ok? <==> EqualityDomain(TagOf(lhs), TagOf(rhs))
    ensures r.Ok? ==> r.value.Bool?
    ensures r.Err? ==> r.error == TypeMismatch(EqOp)
    ensures IntPair(lhs, rhs) ==> r == Ok(Bool(lhs.i == rhs.i))
    ensures EitherString(lhs, rhs) ==> r == Ok(Bool(h.str(lhs) == h.str(rhs)))
    ensures BoolPair(lhs, rhs) ==> r == Ok(Bool(lhs.b == rhs.b))
    ensures lhs.Null? && rhs.Null? ==> r == Ok(Bool(true))
  {
    if lhs.Int? && rhs.Int? then Ok(Bool(lhs.i == rhs.i))
    else if lhs.Double? && rhs.Double? then Ok(Bool(h.compare(EqOp, lhs.d, rhs.d)))
    else if lhs.String? || rhs.String? then Ok(Bool(h.str(lhs) == h.str(rhs)))
    else if lhs.Bool? && rhs.Bool? then Ok(Bool(lhs.b == rhs.b))
    else if lhs.Null? && rhs.Null? then Ok(Bool(true))
    else Err(TypeMismatch(EqOp))
  }

  /** `Value::operator!=` */
  function Ne(h: Host, lhs: Value, rhs: Value): (r: Result<Value>)
    ensures r.Ok? <==> EqualityDomain(TagOf(lhs), TagOf(rhs))
    ensures r.Ok? ==> r.value.Bool?
    ensures r.Err? ==> r.error == TypeMismatch(NeOp)
    ensures IntPair(lhs, rhs) ==> r == Ok(Bool(lhs.i != rhs.i))
    ensures EitherString(lhs, rhs) ==> r == Ok(Bool(h.str(lhs) != h.str(rhs)))
    ensures BoolPair(lhs, rhs) ==> r == Ok(Bool(lhs.b != rhs.b))
    ensures lhs.Null? && rhs.Null? ==> r == Ok(Bool(false))
  {
    if lhs.Int? && rhs.Int? then Ok(Bool(lhs.i != rhs.i))
    else if lhs.Double? && rhs.Double? then Ok(Bool(h.compare(NeOp, lhs.d, rhs.d)))
    else if lhs.String? || rhs.String? then Ok(Bool(h.str(lhs) != h.str(rhs)))
    else if lhs.Bool? && rhs.Bool? then Ok(Bool(lhs.b != rhs.b))
    else if lhs.Null? && rhs.Null? then Ok(Bool(false))
    else Err(TypeMismatch(NeOp))
  }

  // ---------------------------------------------------------------------------
  // Ordering. Strings (and anything compared with a String, as its text) are
  // ordered lexicographically through `std::string::compare`.
  // ---------------------------------------------------------------------------

  /** `Value::operator>` */
  function Gt(h: Host, lhs: Value, rhs: Value): (r: Result<Value>)
    ensures r.Ok? <==> OrderingDomain(TagOf(lhs), TagOf(rhs))
    ensures r.Ok? ==> r.value.Bool?
    ensures r.Err? ==> r.error == TypeMismatch(GtOp)
    ensures IntPair(lhs, rhs) ==> r == Ok(Bool(lhs.i > rhs.i))
    ensures EitherString(lhs, rhs) ==> r == Ok(Bool(LexLess(h.str(rhs), h.str(lhs))))
  {
    if lhs.Int? && rhs.Int? then Ok(Bool(lhs.i > rhs.i))
    else if lhs.Double? && rhs.Double? then Ok(Bool(h.compare(GtOp, lhs.d, rhs.d)))
    else if lhs.String? || rhs.String? then
      var ls, rs := h.str(lhs), h.str(rhs);
      CompareAntisymmetric(ls, rs);
      CompareNegativeIffLexLess(rs, ls);
      Ok(Bool(Compare(ls, rs) > 0))
    else Err(TypeMismatch(GtOp))
  }

  /** `Value::operator>=` */
  function Ge(h: Host, lhs: Value, rhs: Value): (r: Result<Value>)
    ensures r.Ok? <==> OrderingDomain(TagOf(lhs), TagOf(rhs))
    ensures r.Ok? ==> r.value.Bool?
    ensures r.Err? ==> r.error == TypeMismatch(GeOp)
    ensures IntPair(lhs, rhs) ==> r == Ok(Bool(lhs.i >= rhs.i))
    ensures EitherString(lhs, rhs) ==> r == Ok(Bool(!LexLess(h.str(lhs), h.str(rhs))))
  {
    if lhs.Int? && rhs.Int? then Ok(Bool(lhs.i >= rhs.i))
    else if lhs.Double? && rhs.Double? then Ok(Bool(h.compare(GeOp, lhs.d, rhs.d)))
    else if lhs.String? || rhs.String? then
      var ls, rs := h.str(lhs), h.str(rhs);
      CompareNegativeIffLexLess(ls, rs);
      Ok(Bool(Compare(ls, rs) >= 0))
    else Err(TypeMismatch(GeOp))
  }

  /** `Value::operator<` */
  function Lt(h: Host, lhs: Value, rhs: Value): (r: Result<Value>)
    ensures r.Ok? <==> OrderingDomain(TagOf(lhs), TagOf(rhs))
    ensures r.Ok? ==> r.value.Bool?
    ensures r.Err? ==> r.error == TypeMismatch(LtOp)
    ensures IntPair(lhs, rhs) ==> r == Ok(Bool(lhs.i < rhs.i))
    ensures EitherString(lhs, rhs) ==> r == Ok(Bool(LexLess(h.str(lhs), h.str(rhs))))
  {
    if lhs.Int? && rhs.Int? then Ok(Bool(lhs.i < rhs.i))
    else if lhs.Double? && rhs.Double? then Ok(Bool(h.compare(LtOp, lhs.d, rhs.d)))
    else if lhs.String? || rhs.String? then
      var ls, rs := h.str(lhs), h.str(rhs);
      CompareNegativeIffLexLess(ls, rs);
      Ok(Bool(Compare(ls, rs) < 0))
    else Err(TypeMismatch(LtOp))
  }

  /** `Value::operator<=` */
  function Le(h: Host, lhs: Value, rhs: Value): (r: Result<Value>)
    ensures r.Ok? <==> OrderingDomain(TagOf(lhs), TagOf(rhs))
    ensures r.Ok? ==> r.value.Bool?
    ensures r.Err? ==> r.error == TypeMismatch(LeOp)
    ensures IntPair(lhs, rhs) ==> r == Ok(Bool(lhs.i <= rhs.i))
    ensures EitherString(lhs, rhs) ==> r == Ok(Bool(!LexLess(h.str(rhs), h.str(lhs))))
  {
    if lhs.Int? && rhs.Int? then Ok(Bool(lhs.i <= rhs.i))
    else if lhs.Double? && rhs.Double? then Ok(Bool(h.compare(LeOp, lhs.d, rhs.d)))
    else if lhs.String? || rhs.String? then
      var ls, rs := h.str(lhs), h.str(rhs);
      CompareAntisymmetric(ls, rs);
      CompareNegativeIffLexLess(rs, ls);
      Ok(Bool(Compare(ls, rs) <= 0))
    else Err(TypeMismatch(LeOp))
  }
}
