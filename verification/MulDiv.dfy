/** The M extension: the 64-bit products and truncating divisions of the execute stage against the
    exact integer results. */
module MulDiv {
  import opened Words
  import opened Instr

  const TWO32 := 0x1_0000_0000
  const TWO63 := 0x8000_0000_0000_0000
  const TWO64 := 0x1_0000_0000_0000_0000

  /** A 32-bit pattern as a number. */
  type U32 = x: int | 0 <= x < TWO32

  function Signed(x: U32): (r: int) { if x < TWO32 / 2 then x else x - TWO32 }

  function Pattern(x: int): (r: U32) { x % TWO32 }

  function Abs(x: int): (r: nat) { if x < 0 then -x else x }

  // ------------------------------------------------------------------------------------------
  // Reference: chapter 7 of the RISC-V Unprivileged specification, version 20191213
  // ------------------------------------------------------------------------------------------

  function LowHalf(p: int): (r: U32) { p % TWO32 }

  function HighHalf(p: int): (r: U32) { (p / TWO32) % TWO32 }

  /** Quotient rounded towards zero. */
  function Quotient(a: int, b: int): (r: int)
    requires b != 0
  {
    if (a < 0) == (b < 0) then Abs(a) / Abs(b) else -(Abs(a) / Abs(b))
  }

  function Exact(op: MulOp, a: U32, b: U32): (r: U32) {
    match op
    case Mul => LowHalf(Signed(a) * Signed(b))
    case Mulh => HighHalf(Signed(a) * Signed(b))
    case Mulhsu => HighHalf(Signed(a) * b)
    case Mulhu => HighHalf(a * b)
    case Div => if b == 0 then TWO32 - 1 else Pattern(Quotient(Signed(a), Signed(b)))
    case Divu => if b == 0 then TWO32 - 1 else Pattern(Quotient(a, b))
    case Rem => if b == 0 then a else Pattern(Signed(a) - Signed(b) * Quotient(Signed(a), Signed(b)))
    case Remu => if b == 0 then a else Pattern(a - b * Quotient(a, b))
  }

  // ------------------------------------------------------------------------------------------
  // The execute stage: 64-bit two's complement arithmetic
  // ------------------------------------------------------------------------------------------

  /** Sign extension and zero extension to a 64-bit pattern. */
  function SignExtend(x: U32): (r: int) { if x < TWO32 / 2 then x else x + (TWO64 - TWO32) }

  function Product64(x: int, y: int): (r: int) { (x * y) % TWO64 }

  /** Remainder with the sign of the dividend. */
  function SignedRemainder(a: int, b: int): (r: int)
    requires b != 0
  {
    if a < 0 then -(Abs(a) % Abs(b)) else Abs(a) % Abs(b)
  }

  function Result(op: MulOp, lhs: U32, rhs: U32): (r: U32) {
    var ss := Product64(SignExtend(lhs), SignExtend(rhs));
    var su := Product64(SignExtend(lhs), rhs);
    var uu := Product64(lhs, rhs);
    match op
    case Mul => ss % TWO32
    case Mulh => ss / TWO32
    case Mulhsu => su / TWO32
    case Mulhu => uu / TWO32
    case Div =>
      if rhs == 0 then 0xFFFF_FFFF
      else if lhs == 0x8000_0000 && rhs == 0xFFFF_FFFF then 0x8000_0000
      else Pattern(Quotient(Signed(lhs), Signed(rhs)))
    case Divu => if rhs == 0 then 0xFFFF_FFFF else lhs / rhs
    case Rem =>
      if rhs == 0 then lhs
      else if lhs == 0x8000_0000 && rhs == 0xFFFF_FFFF then 0
      else Pattern(SignedRemainder(Signed(lhs), Signed(rhs)))
    case Remu => if rhs == 0 then lhs else lhs % rhs
  }

  // ------------------------------------------------------------------------------------------
  // Products
  // ------------------------------------------------------------------------------------------

  lemma WrapOnce(p: int, k: int)
    ensures (p + k * TWO64) % TWO64 == p % TWO64
  {}

  /** Wrapped operands give the wrapped product. */
  lemma WrappedProduct(x: int, y: int, i: int, j: int)
    ensures Product64(x + i * TWO64, y + j * TWO64) == (x * y) % TWO64
  {
    calc {
      (x + i * TWO64) * (y + j * TWO64);
      x * y + (x * j + i * y + i * j * TWO64) * TWO64;
    }
    WrapOnce(x * y, x * j + i * y + i * j * TWO64);
  }

  lemma Halves(p: int)
    ensures (p % TWO64) % TWO32 == LowHalf(p)
    ensures (p % TWO64) / TWO32 == HighHalf(p)
  {}

  lemma SignExtendWraps(x: U32)
    ensures SignExtend(x) == Signed(x) + (if x < TWO32 / 2 then 0 else 1) * TWO64
  {}

  lemma ProductsAgree(a: U32, b: U32)
    ensures Result(Mul, a, b) == Exact(Mul, a, b) && Result(Mulh, a, b) == Exact(Mulh, a, b)
    ensures Result(Mulhsu, a, b) == Exact(Mulhsu, a, b) && Result(Mulhu, a, b) == Exact(Mulhu, a, b)
  {
    var i, j := if a < TWO32 / 2 then 0 else 1, if b < TWO32 / 2 then 0 else 1;
    SignExtendWraps(a);
    SignExtendWraps(b);
    WrappedProduct(Signed(a), Signed(b), i, j);
    WrappedProduct(Signed(a), b, i, 0);
    WrappedProduct(a, b, 0, 0);
    Halves(Signed(a) * Signed(b));
    Halves(Signed(a) * b);
    Halves(a * b);
  }

  // ------------------------------------------------------------------------------------------
  // Division
  // ------------------------------------------------------------------------------------------

  lemma DivMod(a: nat, b: nat)
    requires b > 0
    ensures a == b * (a / b) + a % b && 0 <= a % b < b
  {}

  lemma Negated(b: int, q: int)
    ensures b * (-q) == -(b * q) && (-b) * q == -(b * q)
  {}

  /** Division with remainder, by the signs of its operands. */
  lemma TruncatedDivision(a: int, b: int)
    requires b != 0
    ensures var q, r := Quotient(a, b), SignedRemainder(a, b);
      a == b * q + r && Abs(r) < Abs(b) && (r == 0 || (r < 0) == (a < 0))
  {
    DivMod(Abs(a), Abs(b));
    Negated(b, Abs(a) / Abs(b));
  }

  lemma QuotientBound(a: nat, b: nat)
    requires b > 0
    ensures 0 <= a / b <= a
    ensures b >= 2 && a > 0 ==> a / b < a
  {
    DivMod(a, b);
    if b >= 2 && a > 0 && a / b >= a { Product2(b, a / b, a); }
  }

  lemma Product2(b: nat, q: nat, a: nat)
    requires b >= 2 && q >= a > 0
    ensures b * q > a
  {}

  /** The only quotient that does not fit is -2^31 / -1. */
  lemma QuotientFits(a: int, b: int)
    requires -(TWO32 / 2) <= a < TWO32 / 2 && -(TWO32 / 2) <= b < TWO32 / 2 && b != 0
    requires !(a == -(TWO32 / 2) && b == -1)
    ensures -(TWO32 / 2) <= Quotient(a, b) < TWO32 / 2
  {
    QuotientBound(Abs(a), Abs(b));
  }

  lemma SmallPattern(x: int)
    requires 0 <= x < TWO32
    ensures Pattern(x) == x
  {}

  lemma SignedPattern(x: int)
    requires -(TWO32 / 2) <= x < TWO32 / 2
    ensures Signed(Pattern(x)) == x
  {}

  lemma UnsignedDivisionAgrees(a: U32, b: U32)
    ensures Result(Divu, a, b) == Exact(Divu, a, b) && Result(Remu, a, b) == Exact(Remu, a, b)
  {
    hide Pattern;
    if b != 0 {
      DivMod(a, b);
      QuotientBound(a, b);
      SmallPattern(a / b);
      SmallPattern(a % b);
    }
  }

  predicate Overflows(a: U32, b: U32) { a == 0x8000_0000 && b == 0xFFFF_FFFF }

  lemma SignedDivisionAgrees(a: U32, b: U32)
    ensures Result(Div, a, b) == Exact(Div, a, b) && Result(Rem, a, b) == Exact(Rem, a, b)
  {
    hide Pattern;
    if Overflows(a, b) {
      assert Quotient(Signed(a), Signed(b)) == 0x8000_0000;
      SmallPattern(0x8000_0000);
      SmallPattern(0);
    } else if b != 0 {
      TruncatedDivision(Signed(a), Signed(b));
    }
  }

  /** The execute stage computes the exact results, for every pair of operands. */
  lemma ResultIsExact(op: MulOp, a: U32, b: U32)
    ensures Result(op, a, b) == Exact(op, a, b)
  {
    hide *;
    match op {
      case Div => SignedDivisionAgrees(a, b);
      case Rem => SignedDivisionAgrees(a, b);
      case Divu => UnsignedDivisionAgrees(a, b);
      case Remu => UnsignedDivisionAgrees(a, b);
      case _ => ProductsAgree(a, b);
    }
  }

  /** A 64-bit pattern in two halves, as a signed number. */
  function Signed64(hi: U32, lo: U32): (r: int) {
    var p := hi * TWO32 + lo;
    if p < TWO63 then p else p - TWO64
  }

  lemma JoinedHalves(p: int)
    requires -TWO63 <= p < TWO63
    ensures Signed64(HighHalf(p), LowHalf(p)) == p
  {}

  lemma ProductBounds(x: int, y: int, m: int, n: int)
    requires m >= 0 && n >= 0
    requires -m <= x <= m && -n <= y <= n
    ensures -(m * n) <= x * y <= m * n
  {
    MulBound(Abs(x), Abs(y), m, n);
    assert x * y == Abs(x) * Abs(y) || x * y == -(Abs(x) * Abs(y));
  }

  lemma MulBound(x: nat, y: nat, m: nat, n: nat)
    requires x <= m && y <= n
    ensures 0 <= x * y <= m * n
  {
    assert x * y <= m * y <= m * n;
  }

  lemma SameLowHalf(p: int, k: int)
    ensures LowHalf(p + k * TWO32) == LowHalf(p)
  {}

  lemma WholeSigned(a: U32, b: U32)
    ensures Signed64(Result(Mulh, a, b), Result(Mul, a, b)) == Signed(a) * Signed(b)
  {
    hide Result, LowHalf, HighHalf, Signed64;
    ProductsAgree(a, b);
    ProductBounds(Signed(a), Signed(b), TWO32 / 2, TWO32 / 2);
    JoinedHalves(Signed(a) * Signed(b));
  }

  lemma SignedAsUnsigned(x: U32)
    ensures x == Signed(x) + (if x < TWO32 / 2 then 0 else 1) * TWO32
  {}

  lemma Distribute(x: int, y: int, j: int, t: int)
    ensures x * (y + j * t) == x * y + (j * x) * t
  {}

  lemma WholeMixed(a: U32, b: U32)
    ensures Signed64(Result(Mulhsu, a, b), Result(Mul, a, b)) == Signed(a) * b
    ensures Result(Mul, a, b) == LowHalf(Signed(a) * b)
  {
    hide Result, LowHalf, HighHalf, Signed64, Signed;
    ProductsAgree(a, b);
    SignedAsUnsigned(b);
    var j := if b < TWO32 / 2 then 0 else 1;
    Distribute(Signed(a), Signed(b), j, TWO32);
    SameLowHalf(Signed(a) * Signed(b), j * Signed(a));
    SignedRange(a);
    ProductBounds(Signed(a), b, TWO32 / 2, TWO32 - 1);
    JoinedHalves(Signed(a) * b);
  }

  lemma SignedRange(x: U32)
    ensures -(TWO32 / 2) <= Signed(x) < TWO32 / 2
  {}

  lemma TimesUnsigned(x: int, y: int, i: int, t: int)
    ensures (x + i * t) * y == x * y + (i * y) * t
  {}

  lemma SameLowProduct(a: U32, b: U32)
    ensures LowHalf(a * b) == LowHalf(Signed(a) * b)
  {
    hide LowHalf, Signed;
    SignedAsUnsigned(a);
    var i := if a < TWO32 / 2 then 0 else 1;
    TimesUnsigned(Signed(a), b, i, TWO32);
    SameLowHalf(Signed(a) * b, i * b);
  }

  lemma WholeUnsigned(a: U32, b: U32)
    ensures Result(Mulhu, a, b) * TWO32 + Result(Mul, a, b) == a * b
  {
    hide Result, LowHalf, HighHalf, Signed64, Signed;
    ProductsAgree(a, b);
    WholeMixed(a, b);
    SameLowProduct(a, b);
    ProductFits(a, b);
    UnsignedHalves(a * b);
  }

  lemma ProductFits(a: U32, b: U32)
    ensures 0 <= a * b < TWO64
  {
    MulBound(a, b, TWO32 - 1, TWO32 - 1);
  }

  /** MULH:MUL, MULHSU:MUL and MULHU:MUL are the whole products, for each signedness. */
  lemma WholeProducts(a: U32, b: U32)
    ensures Signed64(Result(Mulh, a, b), Result(Mul, a, b)) == Signed(a) * Signed(b)
    ensures Signed64(Result(Mulhsu, a, b), Result(Mul, a, b)) == Signed(a) * b
    ensures Result(Mulhu, a, b) * TWO32 + Result(Mul, a, b) == a * b
  {
    WholeSigned(a, b);
    WholeMixed(a, b);
    WholeUnsigned(a, b);
  }

  lemma UnsignedHalves(p: nat)
    requires p < TWO64
    ensures HighHalf(p) * TWO32 + LowHalf(p) == p
  {}

  /** DIV and REM: truncated division of the signed operands, unless the divisor is zero or the
      quotient is the one that does not fit. */
  lemma SignedDivision(a: U32, b: U32)
    requires b != 0 && !Overflows(a, b)
    ensures var q, r := Signed(Result(Div, a, b)), Signed(Result(Rem, a, b));
      Signed(a) == Signed(b) * q + r && Abs(r) < Abs(Signed(b)) && (r == 0 || (r < 0) == (Signed(a) < 0))
  {
    hide Pattern, Quotient, SignedRemainder;
    TruncatedDivision(Signed(a), Signed(b));
    QuotientFits(Signed(a), Signed(b));
    SignedPattern(Quotient(Signed(a), Signed(b)));
    SignedPattern(SignedRemainder(Signed(a), Signed(b)));
  }

  lemma UnsignedDivision(a: U32, b: U32)
    requires b != 0
    ensures a == b * Result(Divu, a, b) + Result(Remu, a, b) && Result(Remu, a, b) < b
  {
    DivMod(a, b);
  }

  /** Division by zero and signed overflow do not trap. */
  lemma DivisionSpecialCases(a: U32)
    ensures Result(Div, a, 0) == TWO32 - 1 && Result(Divu, a, 0) == TWO32 - 1
    ensures Result(Rem, a, 0) == a && Result(Remu, a, 0) == a
    ensures Signed(Result(Div, 0x8000_0000, 0xFFFF_FFFF)) == -(TWO32 / 2) && Result(Rem, 0x8000_0000, 0xFFFF_FFFF) == 0
  {}
}
