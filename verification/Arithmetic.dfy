/** What EX computes, in numbers: each instruction named by the constant bits of its encoding, its operands
    and its result as unsigned or two's-complement numbers. */
module Arithmetic {
  import opened Words
  import opened Digits
  import Instr
  import Decoder
  import Isa
  import MulDiv
  import DataPath
  import opened Pipeline

  /** Opcode, funct3 and funct7 of the instruction in EX, in their places. */
  function Code(x: Ex): (r: bv32) { x.instr.bits & 0xFE00_707F }

  predicate Encodes(code: bv32, f7: bv7, f3: bv3) { code == ((f7 as bv32) << 25) | ((f3 as bv32) << 12) | 0x33 }

  lemma RegisterCode(x: Ex, f7: bv7, f3: bv3)
    requires Encodes(Code(x), f7, f3)
    ensures Instr.Opcode(x.instr) == 0x33 && Instr.Funct3(x.instr) == f3 && Instr.Funct7(x.instr) == f7
  {}

  lemma ByAlu(x: Ex, f7: bv7, f3: bv3)
    requires Encodes(Code(x), f7, f3) && (f7 == 0 || f7 == 0x20)
    ensures ExResult(x) == Alu(x.rs1v, x.rs2v, f7 == 0x20, f3)
  {
    hide Instr.Opcode, Instr.Funct3, Instr.Funct7, Alu, Encodes, Code;
    RegisterCode(x, f7, f3);
    DataPath.Bit5(f7);
  }

  lemma ByMultiplier(x: Ex, f3: bv3)
    requires Encodes(Code(x), 1, f3)
    ensures ExResult(x)
         == Word(MulDiv.Result(Instr.MulOpOf(f3), Isa.Unsigned(x.rs1v), Isa.Unsigned(x.rs2v)) as bv32)
  {
    hide Instr.Opcode, Instr.Funct3, Instr.Funct7, Instr.MulOpOf, Encodes, Code, MulDiv.Result, Isa.Unsigned;
    RegisterCode(x, 1, f3);
  }

  // ------------------------------------------------------------------------------------------
  // The ALU
  // ------------------------------------------------------------------------------------------

  /** ADD and SUB. */
  lemma AddAndSubtract(x: Ex)
    ensures Code(x) == 0x0000_0033 ==> Number(ExResult(x)) == (Number(x.rs1v) + Number(x.rs2v)) % TWO32
    ensures Code(x) == 0x4000_0033 ==> Number(ExResult(x)) == (Number(x.rs1v) - Number(x.rs2v)) % TWO32
  {
    hide Isa.Sum, Isa.Difference, Number, ExResult, Code;
    SumNumber(x.rs1v, x.rs2v);
    DifferenceNumber(x.rs1v, x.rs2v);
    if Code(x) == 0x0000_0033 { ByAlu(x, 0, 0); }
    if Code(x) == 0x4000_0033 { ByAlu(x, 0x20, 0); }
  }

  lemma UnsignedLessNumber(a: Word, b: Word)
    ensures Isa.UnsignedLess(a, b) <==> Number(a) < Number(b)
  {
    hide Number, Lt;
    LessNumber(a, b);
  }

  lemma SignedLessNumber(a: Word, b: Word)
    ensures Isa.SignedLess(a, b) <==> SignedNumber(a) < SignedNumber(b)
  {
    hide Number, Isa.SignedLess, Isa.UnsignedLess;
    DataPath.SignedOrder(a, b);
    UnsignedLessNumber(a, b);
    NegativeNumber(a);
    NegativeNumber(b);
  }

  lemma FlagNumber(b: bool)
    ensures Number(Isa.Flag(b)) == if b then 1 else 0
  {}

  /** SLT and SLTU. */
  lemma SetLessThan(x: Ex)
    ensures Code(x) == 0x2033 ==> Number(ExResult(x)) == if SignedNumber(x.rs1v) < SignedNumber(x.rs2v) then 1 else 0
    ensures Code(x) == 0x3033 ==> Number(ExResult(x)) == if Number(x.rs1v) < Number(x.rs2v) then 1 else 0
  {
    hide Isa.SignedLess, Isa.UnsignedLess, Isa.Flag, Number, SignedNumber, ExResult, Code;
    SignedLessNumber(x.rs1v, x.rs2v);
    UnsignedLessNumber(x.rs1v, x.rs2v);
    FlagNumber(SignedNumber(x.rs1v) < SignedNumber(x.rs2v));
    FlagNumber(Number(x.rs1v) < Number(x.rs2v));
    if Code(x) == 0x2033 { ByAlu(x, 0, 2); }
    if Code(x) == 0x3033 { ByAlu(x, 0, 3); }
  }

  lemma BitOfXor(a: Word, b: Word, k: bv6)
    requires k < 32
    ensures Bit(Isa.BitXor(a, b), k) == (Bit(a, k) != Bit(b, k))
  {}

  lemma BitOfOr(a: Word, b: Word, k: bv6)
    requires k < 32
    ensures Bit(Isa.BitOr(a, b), k) == (Bit(a, k) || Bit(b, k))
  {}

  lemma BitOfAnd(a: Word, b: Word, k: bv6)
    requires k < 32
    ensures Bit(Isa.BitAnd(a, b), k) == (Bit(a, k) && Bit(b, k))
  {}

  /** XOR, OR and AND, digit by digit. */
  lemma Bitwise(x: Ex, k: bv6)
    requires k < 32
    ensures Code(x) == 0x4033 ==> Digit(ExResult(x), k) == (Digit(x.rs1v, k) != Digit(x.rs2v, k))
    ensures Code(x) == 0x6033 ==> Digit(ExResult(x), k) == (Digit(x.rs1v, k) || Digit(x.rs2v, k))
    ensures Code(x) == 0x7033 ==> Digit(ExResult(x), k) == (Digit(x.rs1v, k) && Digit(x.rs2v, k))
  {
    hide Isa.BitXor, Isa.BitOr, Isa.BitAnd, Bit, Number, Power, ExResult, Code;
    BitIsDigit(x.rs1v, k);
    BitIsDigit(x.rs2v, k);
    BitIsDigit(ExResult(x), k);
    BitOfXor(x.rs1v, x.rs2v, k);
    BitOfOr(x.rs1v, x.rs2v, k);
    BitOfAnd(x.rs1v, x.rs2v, k);
    if Code(x) == 0x4033 { ByAlu(x, 0, 4); }
    if Code(x) == 0x6033 { ByAlu(x, 0, 6); }
    if Code(x) == 0x7033 { ByAlu(x, 0, 7); }
  }

  /** Two to the shift amount: the second operand modulo 32. */
  function Scale(b: Word): (p: nat)
    ensures p > 0
  {
    Power(Number(b) % 32)
  }

  /** SLL multiplies modulo 2^32, SRL divides, and SRA divides the signed number; both round down. */
  lemma Shifts(x: Ex)
    ensures var a, p, r := x.rs1v, Scale(x.rs2v), ExResult(x);
      && (Code(x) == 0x0000_1033 ==> Number(r) == (Number(a) * p) % TWO32)
      && (Code(x) == 0x0000_5033 ==> Number(r) * p <= Number(a) < (Number(r) + 1) * p)
      && (Code(x) == 0x4000_5033 ==> SignedNumber(r) * p <= SignedNumber(a) < (SignedNumber(r) + 1) * p)
  {
    hide Isa.ShiftLeft, Isa.ShiftRight, Isa.ShiftRightArithmetic, Isa.Amount, Number, SignedNumber, Power, ExResult,
      Code;
    var a, n := x.rs1v, Isa.Amount(x.rs2v);
    AmountNumber(x.rs2v);
    ShiftLeftNumber(a, n);
    ShiftRightNumber(a, n);
    RoundedDown(Number(a), Power(n as int));
    ArithmeticShiftNumber(a, n);
    if Code(x) == 0x0000_1033 { ByAlu(x, 0, 1); }
    if Code(x) == 0x0000_5033 { ByAlu(x, 0, 5); }
    if Code(x) == 0x4000_5033 { ByAlu(x, 0x20, 5); }
  }

  // ------------------------------------------------------------------------------------------
  // Multiplication and division
  // ------------------------------------------------------------------------------------------

  lemma UnsignedIsNumber(a: Word)
    ensures Isa.Unsigned(a) == Number(a)
  {
    WholeWord(Number(a));
  }

  /** What the multiplier and divider give, as a number. */
  lemma MultiplierNumber(x: Ex, f3: bv3, a: MulDiv.U32, b: MulDiv.U32)
    requires Encodes(Code(x), 1, f3) && a == Number(x.rs1v) && b == Number(x.rs2v)
    ensures Number(ExResult(x)) == MulDiv.Result(Instr.MulOpOf(f3), a, b)
  {
    hide Number, Isa.Unsigned, MulDiv.Result, Encodes, Code, ExResult;
    ByMultiplier(x, f3);
    UnsignedIsNumber(x.rs1v);
    UnsignedIsNumber(x.rs2v);
    PatternNumber(MulDiv.Result(Instr.MulOpOf(f3), a, b));
  }

  /** A 64-bit number in two's complement. */
  function Signed64(p: int): (r: int) { if p < TWO32 * TWO31 then p else p - TWO32 * TWO32 }

  predicate SameOperands(x: Ex, y: Ex) { x.rs1v == y.rs1v && x.rs2v == y.rs2v }

  /** MUL gives the low half of the product; with it MULH, MULHSU and MULHU make up the whole product, of
      signed operands, of a signed and an unsigned one, and of unsigned ones. */
  lemma Products(lo: Ex, hi: Ex)
    requires Code(lo) == 0x0200_0033 && SameOperands(lo, hi)
    ensures var a, b, p := lo.rs1v, lo.rs2v, Number(ExResult(hi)) * TWO32 + Number(ExResult(lo));
      && (Code(hi) == 0x0200_1033 ==> Signed64(p) == SignedNumber(a) * SignedNumber(b))
      && (Code(hi) == 0x0200_2033 ==> Signed64(p) == SignedNumber(a) * Number(b))
      && (Code(hi) == 0x0200_3033 ==> p == Number(a) * Number(b))
  {
    hide Number, Code, ExResult, MulDiv.Result;
    var a, b := Number(lo.rs1v), Number(lo.rs2v);
    MultiplierNumber(lo, 0, a, b);
    MulDiv.WholeProducts(a, b);
    if Code(hi) == 0x0200_1033 { MultiplierNumber(hi, 1, a, b); }
    if Code(hi) == 0x0200_2033 { MultiplierNumber(hi, 2, a, b); }
    if Code(hi) == 0x0200_3033 { MultiplierNumber(hi, 3, a, b); }
  }

  function Magnitude(n: int): (m: nat) { if n < 0 then -n else n }

  predicate Overflows(a: Word, b: Word) { SignedNumber(a) == -TWO31 && SignedNumber(b) == -1 }

  /** DIV and REM of the same operands. */
  lemma SignedDivision(d: Ex, m: Ex)
    requires Code(d) == 0x0200_4033 && Code(m) == 0x0200_6033 && SameOperands(d, m)
    ensures var a, b := SignedNumber(d.rs1v), SignedNumber(d.rs2v);
      var q, r := SignedNumber(ExResult(d)), SignedNumber(ExResult(m));
      if b == 0 then q == -1 && r == a
      else if Overflows(d.rs1v, d.rs2v) then q == a && r == 0
      else a == b * q + r && Magnitude(r) < Magnitude(b) && (r == 0 || (r < 0) == (a < 0))
  {
    hide Number, Code, ExResult, MulDiv.Result;
    var a, b := Number(d.rs1v), Number(d.rs2v);
    MultiplierNumber(d, 4, a, b);
    MultiplierNumber(m, 6, a, b);
    if b == 0 || MulDiv.Overflows(a, b) { MulDiv.DivisionSpecialCases(a); } else { MulDiv.SignedDivision(a, b); }
  }

  /** DIVU and REMU of the same operands. */
  lemma UnsignedDivision(d: Ex, m: Ex)
    requires Code(d) == 0x0200_5033 && Code(m) == 0x0200_7033 && SameOperands(d, m)
    ensures var a, b, q, r := Number(d.rs1v), Number(d.rs2v), Number(ExResult(d)), Number(ExResult(m));
      if b == 0 then q == TWO32 - 1 && r == a else a == b * q + r && r < b
  {
    hide Number, Code, ExResult, MulDiv.Result;
    var a, b := Number(d.rs1v), Number(d.rs2v);
    MultiplierNumber(d, 5, a, b);
    MultiplierNumber(m, 7, a, b);
    if b == 0 { MulDiv.DivisionSpecialCases(a); } else { MulDiv.UnsignedDivision(a, b); }
  }

  // ------------------------------------------------------------------------------------------
  // Immediates
  // ------------------------------------------------------------------------------------------

  lemma PositiveImmediate(w: Word)
    requires w.bits & 0x8000_0000 == 0
    ensures Decoder.DecImmI(w) == Isa.ShiftRight(w, 20)
  {}

  lemma FilledSum(x: bv32)
    ensures 0xFFFF_F000 | (x >> 20) == (x >> 20) + 0xFFFF_F000
  {}

  lemma NegativeImmediate(w: Word)
    requires w.bits & 0x8000_0000 != 0
    ensures Decoder.DecImmI(w) == Isa.Sum(Isa.ShiftRight(w, 20), Word(0xFFFF_F000))
  {
    FilledSum(w.bits);
  }

  lemma FillNumber()
    ensures Number(Word(0xFFFF_F000)) == TWO32 - 0x1000
  {}

  /** The I-immediate is the instruction word, as a signed number, divided by 2^20. */
  lemma ImmediateNumber(w: Word)
    ensures SignedNumber(Decoder.DecImmI(w)) == SignedNumber(w) / 0x10_0000
  {
    hide Number, Decoder.DecImmI, Isa.ShiftRight, Isa.Sum, Power;
    NegativeNumber(w);
    ShiftRightNumber(w, 20);
    assert (20 as bv6) as int == 20;
    Powers2();
    if w.bits & 0x8000_0000 == 0 {
      PositiveImmediate(w);
    } else {
      NegativeImmediate(w);
      SumNumber(Isa.ShiftRight(w, 20), Word(0xFFFF_F000));
      FillNumber();
    }
  }

  /** Opcode and funct3. */
  function ShortCode(x: Ex): (r: bv32) { x.instr.bits & 0x707F }

  predicate EncodesImmediate(code: bv32, f3: bv3) { code == ((f3 as bv32) << 12) | 0x13 }

  lemma ImmediateCode(x: Ex, f3: bv3)
    requires EncodesImmediate(ShortCode(x), f3)
    ensures Instr.Opcode(x.instr) == 0x13 && Instr.Funct3(x.instr) == f3
  {}

  lemma ByImmediateAlu(x: Ex, f3: bv3)
    requires EncodesImmediate(ShortCode(x), f3) && f3 != 5
    ensures ExResult(x) == Alu(x.rs1v, Decoder.DecImmI(x.instr), false, f3)
  {
    hide Instr.Opcode, Instr.Funct3, Instr.Funct7, Decoder.DecImmI, Alu, EncodesImmediate, ShortCode, ExResult;
    ImmediateCode(x, f3);
    DataPath.ImmediateAlu(x);
  }

  predicate EncodesShift(code: bv32, f7: bv7) { code == ((f7 as bv32) << 25) | 0x5013 }

  lemma ShiftCode(x: Ex, f7: bv7)
    requires EncodesShift(Code(x), f7)
    ensures Instr.Opcode(x.instr) == 0x13 && Instr.Funct3(x.instr) == 5 && Instr.Funct7(x.instr) == f7
  {}

  lemma ByShiftAlu(x: Ex, f7: bv7)
    requires EncodesShift(Code(x), f7) && (f7 == 0 || f7 == 0x20)
    ensures ExResult(x) == Alu(x.rs1v, Decoder.DecImmI(x.instr), f7 == 0x20, 5)
  {
    hide Instr.Opcode, Instr.Funct3, Instr.Funct7, Decoder.DecImmI, Alu, EncodesShift, Code;
    ShiftCode(x, f7);
    DataPath.Bit5(f7);
  }

  /** The register form of an immediate instruction with the same first operand, and with the I-immediate
      in its second register. */
  predicate RegisterForm(x: Ex, y: Ex) {
    x.rs1v == y.rs1v && SignedNumber(y.rs2v) == SignedNumber(x.instr) / 0x10_0000
  }

  lemma SameSignedNumber(a: Word, b: Word)
    requires SignedNumber(a) == SignedNumber(b)
    ensures a == b
  {
    hide Number;
    SameNumber(a, b);
  }

  /** Immediate instructions do what their register forms do. */
  lemma Immediates(x: Ex, y: Ex)
    requires RegisterForm(x, y)
    ensures ShortCode(x) == 0x0013 && Code(y) == 0x0033 ==> ExResult(x) == ExResult(y)
    ensures ShortCode(x) == 0x1013 && Code(y) == 0x1033 ==> ExResult(x) == ExResult(y)
    ensures ShortCode(x) == 0x2013 && Code(y) == 0x2033 ==> ExResult(x) == ExResult(y)
    ensures ShortCode(x) == 0x3013 && Code(y) == 0x3033 ==> ExResult(x) == ExResult(y)
    ensures ShortCode(x) == 0x4013 && Code(y) == 0x4033 ==> ExResult(x) == ExResult(y)
    ensures ShortCode(x) == 0x6013 && Code(y) == 0x6033 ==> ExResult(x) == ExResult(y)
    ensures ShortCode(x) == 0x7013 && Code(y) == 0x7033 ==> ExResult(x) == ExResult(y)
    ensures Code(x) == 0x0000_5013 && Code(y) == 0x0000_5033 ==> ExResult(x) == ExResult(y)
    ensures Code(x) == 0x4000_5013 && Code(y) == 0x4000_5033 ==> ExResult(x) == ExResult(y)
  {
    hide Number, SignedNumber, Decoder.DecImmI, Alu, ExResult, Code, ShortCode;
    ImmediateNumber(x.instr);
    SameSignedNumber(y.rs2v, Decoder.DecImmI(x.instr));
    if ShortCode(x) == 0x0013 && Code(y) == 0x0033 { ByImmediateAlu(x, 0); ByAlu(y, 0, 0); }
    if ShortCode(x) == 0x1013 && Code(y) == 0x1033 { ByImmediateAlu(x, 1); ByAlu(y, 0, 1); }
    if ShortCode(x) == 0x2013 && Code(y) == 0x2033 { ByImmediateAlu(x, 2); ByAlu(y, 0, 2); }
    if ShortCode(x) == 0x3013 && Code(y) == 0x3033 { ByImmediateAlu(x, 3); ByAlu(y, 0, 3); }
    if ShortCode(x) == 0x4013 && Code(y) == 0x4033 { ByImmediateAlu(x, 4); ByAlu(y, 0, 4); }
    if ShortCode(x) == 0x6013 && Code(y) == 0x6033 { ByImmediateAlu(x, 6); ByAlu(y, 0, 6); }
    if ShortCode(x) == 0x7013 && Code(y) == 0x7033 { ByImmediateAlu(x, 7); ByAlu(y, 0, 7); }
    if Code(x) == 0x0000_5013 && Code(y) == 0x0000_5033 { ByShiftAlu(x, 0); ByAlu(y, 0, 5); }
    if Code(x) == 0x4000_5013 && Code(y) == 0x4000_5033 { ByShiftAlu(x, 0x20); ByAlu(y, 0x20, 5); }
  }
}
