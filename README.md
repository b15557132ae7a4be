# Nyx values and contexts in Dafny

A model of the runtime core of the Nyx interpreter (`nyx/Nyx.cpp`):

- the dynamic `Value` type, a tagged union over Null, Bool, Int, Double and
  String, with its fifteen binary operators `+ - * / % && || == != > >= < <= & |`.
  Each operator walks a fixed chain of tests on the operand tags and either
  builds a fresh Value or throws "unexpected arguments of <op>";
- `LocalContext`, the table that owns the Variables of one evaluation frame,
  with `addVariable`, `findVariable`, `hasVariable` and `removeVariable`;
- the `GlobalContext` constructor, which fills the builtin table.

Files and modules:

- `int32.dfy` (`Int32Arith`): the C++ `int` payload as a 32-bit newtype, the
  truncating `/` and `%` of C++, and `&`/`|` on two's-complement patterns.
- `string_order.dfy` (`StringOrder`): the three-way `std::string` compare used
  once both operands of a comparison are text, and an independent,
  non-recursive statement of lexicographic order it is proved to agree with.
- `values.dfy` (`Values`): `Value`, the coercion matrix by operand tag, and the
  operators as functions returning `Result<Value>`; the thrown `runtime_error`
  becomes `Err(TypeMismatch(op))`. The arms are tested in the same order as in
  the C++: in `==`, `!=` and the ordering operators the "either side is a
  String" arm comes before the Bool and Null arms, so `true == "x"` compares
  text. In the C++ `rhs` is taken by value and `*this` is only read; as
  functions on immutable values the operators cannot change their operands
  either, and every result is a new Value.
- `value_laws.dfy` (`ValueLaws`): laws relating the operators to each other.
- `contexts.dfy` (`Contexts`): `Variable`, `LocalContext` and `GlobalContext`
  as classes whose methods update map fields in place.

Collaborators outside `nyx/Nyx.cpp` are parameters. `Values.Host` carries
`valueToStdString` (declared in `Utils.hpp`), the conversion of an `int` to
`double`, and `double` arithmetic and comparison, all uninterpreted; nothing is
claimed about their results. Doubles are kept as opaque 64-bit encodings.

Behaviour of the code worth noting:

- `addVariable` inserts with `emplace`, which keeps an existing binding, so
  binding a name twice leaves the first Variable in place rather than
  replacing it.
- Integer `/` and `%` have no zero check in the code; division by zero, like
  `INT_MIN / -1` and signed overflow in `+ - *`, is undefined behaviour in C++.
  The model makes these preconditions of the operators; no division-by-zero
  error is raised.
- The type-mismatch error names the operator only, as the thrown message does,
  not the operand tags.

## Model

| member | source | states |
|---|---|---|
| Int32Arith.TruncDivRem | nyx/Nyx.cpp:114-136 | C++ integer `/` and `%`: quotient times divisor plus remainder is the dividend, the remainder is smaller than the divisor in magnitude and has the dividend's sign, the quotient does not overshoot |
| Int32Arith.TruncDivFits | nyx/Nyx.cpp:114-116 | the truncated quotient of two 32-bit ints fits in 32 bits unless it is INT_MIN / -1 |
| Int32Arith.TruncRemFits | nyx/Nyx.cpp:134-136 | the truncated remainder of two 32-bit ints always fits in 32 bits |
| Int32Arith.BitwiseLaws | nyx/Nyx.cpp:297-317 | bitwise and and or on ints are commutative and idempotent, -1 is the unit of and, 0 the unit of or, and the sign bit of the result is the and/or of the operands' sign bits |
| StringOrder.CompareNegativeIffLexLess | nyx/Nyx.cpp:265-270 | the string compare says "before" exactly when the first string is a proper prefix of the second or is smaller at the first differing character |
| StringOrder.CompareAntisymmetric | nyx/Nyx.cpp:225-230 | swapping the strings negates the compare, so `a > b` on text is `b < a` |
| StringOrder.CompareZeroIffEqual | nyx/Nyx.cpp:245-250 | the compare is zero exactly for equal strings |
| Values.Add | nyx/Nyx.cpp:48-69 | `+` succeeds exactly on the pairs of the `+` coercion table: Int for two Ints (their sum), Double for any other pair of numbers, else String when either side is a String (the concatenated texts); anything else fails naming `+` |
| Values.MixedArith | nyx/Nyx.cpp:76-84 | the non-Int arms of `-`, `*`, `/` succeed exactly on Double/Double and Int/Double mixes, always with a Double |
| Values.Sub | nyx/Nyx.cpp:71-90 | `-` succeeds exactly on pairs of numbers, Int (the difference) for two Ints and Double otherwise; never on Strings; fails naming `-` |
| Values.Mul | nyx/Nyx.cpp:92-110 | `*` succeeds exactly on pairs of numbers, Int (the product) for two Ints and Double otherwise; fails naming `*` |
| Values.Div | nyx/Nyx.cpp:112-130 | `/` succeeds exactly on pairs of numbers, Int for two Ints holding the quotient truncated toward zero, Double otherwise; fails naming `/` |
| Values.Mod | nyx/Nyx.cpp:132-141 | `%` succeeds exactly on two Ints, giving the truncating remainder; fails naming `%` otherwise |
| Values.And | nyx/Nyx.cpp:143-152 | `&&` succeeds exactly on two Bools, giving their conjunction; fails naming `&&` otherwise |
| Values.Or | nyx/Nyx.cpp:154-163 | logical or succeeds exactly on two Bools, giving their disjunction; fails naming logical or otherwise |
| Values.BitwiseAnd | nyx/Nyx.cpp:297-306 | `&` succeeds exactly on two Ints, giving an Int that is negative exactly when both are; fails naming `&` otherwise |
| Values.BitwiseOr | nyx/Nyx.cpp:308-317 | bitwise or succeeds exactly on two Ints, giving an Int that is negative exactly when either is; fails naming bitwise or otherwise |
| Values.Eq | nyx/Nyx.cpp:165-189 | `==` succeeds exactly when either side is a String or both tags agree, always with a Bool: Int equality, text equality once a String is involved (Bool and Null included), Bool equality, true for two Nulls; Int vs Double fails |
| Values.Ne | nyx/Nyx.cpp:191-215 | `!=` has the same domain as `==`, with the negated answers and false for two Nulls |
| Values.Gt | nyx/Nyx.cpp:217-235 | `>` succeeds exactly on two Ints, two Doubles, or a String on either side, giving a Bool; on text it is the lexicographic order with the operands swapped |
| Values.Ge | nyx/Nyx.cpp:237-255 | `>=` has the ordering domain; on text it holds exactly when the left text is not lexicographically smaller |
| Values.Lt | nyx/Nyx.cpp:257-275 | `<` has the ordering domain, so Bool, Null and Int/Double mixes fail unless a String is involved; on text it is the lexicographic order |
| Values.Le | nyx/Nyx.cpp:277-295 | `<=` has the ordering domain; on text it holds exactly when the right text is not lexicographically smaller |
| ValueLaws.EqNeComplement | nyx/Nyx.cpp:165-215 | `==` and `!=` accept the same pairs and, off Double pairs, give opposite answers |
| ValueLaws.EqReflexive | nyx/Nyx.cpp:165-189 | every non-Double value is `==` itself and not `!=` itself |
| ValueLaws.EqSymmetric | nyx/Nyx.cpp:165-189 | `==` gives the same result with its operands swapped, off Double pairs |
| ValueLaws.GtIsSwappedLt | nyx/Nyx.cpp:217-295 | off Double pairs, `a > b` is `b < a` and `a <= b` is `b >= a`, including where they fail |
| ValueLaws.GeIsNotLt | nyx/Nyx.cpp:237-295 | off Double pairs, `a >= b` is the negation of `a < b` and `a <= b` that of `a > b`, on the same domain |
| ValueLaws.TextTrichotomy | nyx/Nyx.cpp:165-275 | once a String is involved exactly one of `<`, `==`, `>` is true |
| ValueLaws.IntDoubleMix | nyx/Nyx.cpp:48-275 | an Int paired with a Double is promoted to Double by `+` and `/` but fails under `==`, `!=`, `<` and `>=` |
| ValueLaws.AddCommutesOnTags | nyx/Nyx.cpp:48-69 | `+` succeeds and reaches the same tag whichever operand comes first, and commutes on two Ints |
| ValueLaws.DivModIdentity | nyx/Nyx.cpp:112-141 | on two Ints, `(a / b) * b + a % b == a`, with the remainder smaller than the divisor and of the dividend's sign |
| ValueLaws.BitwiseCommutes | nyx/Nyx.cpp:297-317 | `&` and bitwise or give the same result, or the same failure, with the operands swapped; -1 and 0 are their units on Ints |
| Contexts.Variable.constructor | nyx/Nyx.cpp:35-37 | a new Variable holds the given name and value |
| Contexts.LocalContext.HasVariable | nyx/Nyx.cpp:29-31 | true exactly when the name is bound; changes nothing |
| Contexts.LocalContext.FindVariable | nyx/Nyx.cpp:41-46 | null exactly when the name is unbound (when HasVariable is false), else the bound Variable, whose name is the one looked up and whose value is the bound value; changes nothing |
| Contexts.LocalContext.AddVariable | nyx/Nyx.cpp:33-39 | on an unbound name, a fresh Variable with that name and value is bound and every other binding is kept; on a bound name the table and every bound value are unchanged |
| Contexts.LocalContext.RemoveVariable | nyx/Nyx.cpp:23-27 | returns true exactly when the name was bound; afterwards it is unbound and all other bindings are as before, so an absent name leaves the table unchanged |
| Contexts.RebindingKeepsFirstBinding | nyx/Nyx.cpp:23-46 | binding `x` to 1 then to 2 leaves `x` bound to 1; removing an absent name returns false and keeps `x` |
| Contexts.GlobalContext.constructor | nyx/Nyx.cpp:5-9 | the builtin table has exactly the keys `print`, `typeof` and `input`, each referring to its native function |

## Left out

- Double payload values: `double` arithmetic, comparison and the `int` to `double` conversion are uninterpreted `Host` functions, since floating point is not modelled. Contracts state only tags and success or failure for Double operands, and the laws about comparison results exclude pairs of Doubles. `Host.compare` is uninterpreted separately for each operator, so nothing ties, say, `compare(NeOp, x, y)` to `compare(EqOp, x, y)`; under IEEE 754 some of these laws would still hold for Doubles (`!=` negates `==`, `==` is symmetric, `>` is `<` swapped), while NaN breaks reflexivity of `==`, `>=` as the negation of `<`, and trichotomy.
- Values.MixedArith: states only the Double tag of its results, not their values, for the reason above.
- Values.Add: states the tag but not the value of Double results; Double payloads are not modelled.
- Values.Sub: states the tag but not the value of Double results; Double payloads are not modelled.
- Values.Mul: states the tag but not the value of Double results; Double payloads are not modelled.
- Values.Div: states the tag but not the value of Double results; Double payloads are not modelled.
- Values.Eq: says nothing of the answer on two Doubles; Double comparison is not modelled.
- Values.Ne: says nothing of the answer on two Doubles; Double comparison is not modelled.
- Values.Gt: says nothing of the answer on two Doubles; Double comparison is not modelled.
- Values.Ge: says nothing of the answer on two Doubles; Double comparison is not modelled.
- Values.Lt: says nothing of the answer on two Doubles; Double comparison is not modelled.
- Values.Le: says nothing of the answer on two Doubles; Double comparison is not modelled.
- `valueToStdString` (`Utils.hpp`) is not part of this model: it is the uninterpreted `Host.str`, and nothing is claimed about the text it produces, not even that `str` of a String is its own text. So `1 + "a"` is known only to be `str(1) + str("a")`, not `"1a"`, and `"b" > "a"` cannot be derived.
- Text comparison orders characters by their Dafny code point; the byte encoding `std::string` uses is not modelled.
- Signed overflow of `+ - *`, integer division by zero and `INT_MIN / -1` (or `% -1`) are undefined behaviour in C++; the operators require them away instead of modelling a result.
- Memory management: the destructors of both contexts (`nyx/Nyx.cpp:11-21`), the `delete` in `removeVariable`, and the Variable that `addVariable` allocates and leaks when the name is already bound. The model allocates that Variable too but does not track what is released.
- The `funcs` collection of user function definitions: its element type is defined elsewhere and this file only destroys it.
- The builtin function bodies `nyx_builtin_print`, `nyx_builtin_typeof` and `nyx_builtin_input` (`Builtin.h`, not part of this model): I/O and foreign code; the builtin table records only which function each name refers to.
- In the model `Variable.name` is `const` (in the C++ it is an ordinary field assigned after allocation); nothing in this file changes it after `addVariable` sets it.
