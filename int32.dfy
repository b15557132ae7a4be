/**
 * The C++ `int` payload of an Int value: a 32-bit two's-complement integer,
 * with the truncating `/` and `%` of C++ and the bitwise `&` and `|`.
 *
 * Signed overflow is undefined behaviour in C++, so the operators that can
 * overflow are guarded by preconditions in the Values module rather than
 * given a wrap-around result.
 */
module Int32Arith {

  const MIN_INT32: int := -0x8000_0000
  const MAX_INT32: int := 0x7fff_ffff

  newtype int32 = x: int | -0x8000_0000 <= x < 0x8000_0000

  predicate InInt32(x: int) {
    MIN_INT32 <= x <= MAX_INT32
  }

  function Abs(x: int): nat {
    if x < 0 then -x else x
  }

  /** Integer quotient rounded toward zero (C++ `/` on `int`). */
  function TruncDiv(a: int, b: int): int
    requires b != 0
  {
    var q := Abs(a) / Abs(b);
    if (a < 0) == (b < 0) then q else -q
  }

  /** Integer remainder whose sign follows the dividend (C++ `%` on `int`). */
  function TruncRem(a: int, b: int): int
    requires b != 0
  {
    var r := Abs(a) % Abs(b);
    if a < 0 then -r else r
  }

  /**
   * The guarantee C++ gives for `/` and `%` on integers: the quotient times
   * the divisor plus the remainder gives back the dividend, the remainder is
   * smaller than the divisor in magnitude and never has the opposite sign of
   * the dividend, and the quotient never overshoots the dividend in magnitude.
   */
  lemma {:induction false} TruncDivRem(a: int, b: int)
    requires b != 0
    ensures TruncDiv(a, b) * b + TruncRem(a, b) == a
    ensures Abs(TruncRem(a, b)) < Abs(b)
    ensures TruncRem(a, b) == 0 || ((TruncRem(a, b) < 0) == (a < 0))
    ensures Abs(TruncDiv(a, b)) * Abs(b) <= Abs(a)
  {
    var bigA: int, bigB: int := Abs(a), Abs(b);
    var q: int, r: int := bigA / bigB, bigA % bigB;
    EuclidOnNaturals(bigA, bigB);
    NegatedProducts(q, bigB);
    var quot, rem := TruncDiv(a, b), TruncRem(a, b);
    if a < 0 && b < 0 {
      assert quot == q && rem == -r && b == -bigB && a == -bigA;
      assert quot * b == -(q * bigB);
    } else if a < 0 {
      assert quot == -q && rem == -r && b == bigB && a == -bigA;
      assert quot * b == -(q * bigB);
    } else if b < 0 {
      assert quot == -q && rem == r && b == -bigB && a == bigA;
      assert quot * b == q * bigB;
    } else {
      assert quot == q && rem == r && b == bigB && a == bigA;
    }
  }

  lemma EuclidOnNaturals(n: nat, m: nat)
    requires m > 0
    ensures n == (n / m) * m + n % m && 0 <= n % m < m && n / m >= 0
  {
  }

  lemma NegatedProducts(q: int, m: int)
    ensures q * -m == -(q * m) && -q * m == -(q * m) && -q * -m == q * m
  {
  }

  lemma ScaleAtLeast(q: nat, m: nat)
    requires m >= 1
    ensures q <= q * m
    ensures m >= 2 ==> 2 * q <= q * m
  {
  }

  /**
   * Truncating division of two 32-bit values stays in range except for
   * MIN_INT32 / -1, the one quotient C++ cannot represent.
   */
  lemma TruncDivFits(a: int32, b: int32)
    requires b != 0 && !(a as int == MIN_INT32 && b == -1)
    ensures InInt32(TruncDiv(a as int, b as int))
  {
    TruncDivRem(a as int, b as int);
    var q := Abs(TruncDiv(a as int, b as int));
    ScaleAtLeast(q, Abs(b as int));
    assert q <= 0x8000_0000;
    if q == 0x8000_0000 {
      assert Abs(b as int) == 1;
    }
  }

  /** Truncating remainder of two 32-bit values is always in range. */
  lemma TruncRemFits(a: int32, b: int32)
    requires b != 0
    ensures InInt32(TruncRem(a as int, b as int))
  {
    TruncDivRem(a as int, b as int);
  }

  function Pow2(n: nat): nat {
    if n == 0 then 1 else 2 * Pow2(n - 1)
  }

  lemma {:induction false} Pow2Add(m: nat, n: nat)
    ensures Pow2(m + n) == Pow2(m) * Pow2(n)
  {
    if m > 0 {
      Pow2Add(m - 1, n);
    }
  }

  lemma Pow2Of32()
    ensures Pow2(32) == 0x1_0000_0000 && Pow2(31) == 0x8000_0000
  {
    assert Pow2(4) == 16;
    Pow2Add(4, 4);
    Pow2Add(8, 8);
    Pow2Add(16, 16);
    Pow2Add(4, 3);
    Pow2Add(8, 7);
    Pow2Add(16, 15);
  }

  /** Bitwise and of the low `n` bits of `x` and `y`, one bit at a time. */
  function AndBits(x: nat, y: nat, n: nat): nat {
    if n == 0 then 0
    else (if x % 2 == 1 && y % 2 == 1 then 1 else 0) + 2 * AndBits(x / 2, y / 2, n - 1)
  }

  /** Bitwise or of the low `n` bits of `x` and `y`, one bit at a time. */
  function OrBits(x: nat, y: nat, n: nat): nat {
    if n == 0 then 0
    else (if x % 2 == 1 || y % 2 == 1 then 1 else 0) + 2 * OrBits(x / 2, y / 2, n - 1)
  }

  lemma {:induction false} BitsBelow(x: nat, y: nat, n: nat)
    ensures AndBits(x, y, n) < Pow2(n) && OrBits(x, y, n) < Pow2(n)
  {
    if n > 0 {
      BitsBelow(x / 2, y / 2, n - 1);
    }
  }

  lemma {:induction false} BitsCommute(x: nat, y: nat, n: nat)
    ensures AndBits(x, y, n) == AndBits(y, x, n) && OrBits(x, y, n) == OrBits(y, x, n)
  {
    if n > 0 {
      BitsCommute(x / 2, y / 2, n - 1);
    }
  }

  /** On an `n`-bit number, `x & x`, `x | x`, `x & 1...1` and `x | 0` are all `x`. */
  lemma {:induction false} BitsIdentities(x: nat, n: nat)
    requires x < Pow2(n)
    ensures AndBits(x, x, n) == x && OrBits(x, x, n) == x
    ensures AndBits(x, Pow2(n) - 1, n) == x && OrBits(x, 0, n) == x
  {
    if n > 0 {
      BitsIdentities(x / 2, n - 1);
      assert (Pow2(n) - 1) % 2 == 1 && (Pow2(n) - 1) / 2 == Pow2(n - 1) - 1;
    }
  }

  /** The top bit of an `n + 1`-bit and (or) is the and (or) of the top bits. */
  lemma {:induction false} TopBit(x: nat, y: nat, n: nat)
    requires x < Pow2(n + 1) && y < Pow2(n + 1)
    ensures AndBits(x, y, n + 1) >= Pow2(n) <==> x >= Pow2(n) && y >= Pow2(n)
    ensures OrBits(x, y, n + 1) >= Pow2(n) <==> x >= Pow2(n) || y >= Pow2(n)
  {
    if n > 0 {
      TopBit(x / 2, y / 2, n - 1);
    }
  }

  /** The 32-bit two's-complement pattern of `x`, read as an unsigned number. */
  function ToUnsigned(x: int32): nat {
    if x < 0 then x as int + 0x1_0000_0000 else x as int
  }

  /** The 32-bit integer whose two's-complement pattern, read unsigned, is `u`. */
  function FromUnsigned(u: nat): int32
    requires u < 0x1_0000_0000
  {
    if u < 0x8000_0000 then u as int32 else (u - 0x1_0000_0000) as int32
  }

  lemma UnsignedRoundTrip(x: int32, u: nat)
    requires u < 0x1_0000_0000
    ensures ToUnsigned(x) < 0x1_0000_0000
    ensures FromUnsigned(ToUnsigned(x)) == x
    ensures ToUnsigned(FromUnsigned(u)) == u
    ensures x < 0 <==> ToUnsigned(x) >= 0x8000_0000
  {
  }

  /** C++ `&` on `int`: bitwise and of the two's-complement patterns. */
  function BitAnd(a: int32, b: int32): int32 {
    Pow2Of32();
    BitsBelow(ToUnsigned(a), ToUnsigned(b), 32);
    FromUnsigned(AndBits(ToUnsigned(a), ToUnsigned(b), 32))
  }

  /** C++ `|` on `int`: bitwise or of the two's-complement patterns. */
  function BitOr(a: int32, b: int32): int32 {
    Pow2Of32();
    BitsBelow(ToUnsigned(a), ToUnsigned(b), 32);
    FromUnsigned(OrBits(ToUnsigned(a), ToUnsigned(b), 32))
  }

  /**
   * Laws of `&` and `|` on 32-bit integers: both are commutative and
   * idempotent, -1 (all bits set) is the unit of `&` and 0 that of `|`, and
   * the result is negative exactly when the sign bits combine to one.
   */
  lemma BitwiseLaws(a: int32, b: int32)
    ensures BitAnd(a, b) == BitAnd(b, a) && BitOr(a, b) == BitOr(b, a)
    ensures BitAnd(a, a) == a && BitOr(a, a) == a
    ensures BitAnd(a, -1) == a && BitOr(a, 0) == a
    ensures BitAnd(a, b) < 0 <==> a < 0 && b < 0
    ensures BitOr(a, b) < 0 <==> a < 0 || b < 0
  {
    var x, y := ToUnsigned(a), ToUnsigned(b);
    Pow2Of32();
    UnsignedRoundTrip(a, 0);
    UnsignedRoundTrip(b, 0);
    BitsBelow(x, y, 32);
    BitsCommute(x, y, 32);
    BitsIdentities(x, 32);
    assert ToUnsigned(-1) == 0xffff_ffff && ToUnsigned(0) == 0;
    TopBit(x, y, 31);
    UnsignedRoundTrip(a, AndBits(x, y, 32));
    UnsignedRoundTrip(a, OrBits(x, y, 32));
  }
}
