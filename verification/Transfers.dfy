/** Branches, jumps, addresses, loads and atomics in numbers: each instruction named by the constant bits
    of its encoding. */
module Transfers {
  import opened Words
  import opened Digits
  import Instr
  import Decoder
  import Isa
  import Csr
  import DataPath
  import Arithmetic
  import opened Pipeline

  // ------------------------------------------------------------------------------------------
  // Fields
  // ------------------------------------------------------------------------------------------

  predicate BitOf5(x: bv5, k: bv6)
    requires k < 5
  {
    (x >> k) & 1 == 1
  }

  lemma RdBit(w: Word, k: bv6)
    requires k < 5
    ensures BitOf5(Instr.Rd(w).n, k) == Bit(w, k + 7)
  {}

  lemma Rs1Bit(w: Word, k: bv6)
    requires k < 5
    ensures BitOf5(Instr.Rs1(w).n, k) == Bit(w, k + 15)
  {}

  lemma Rs2Bit(w: Word, k: bv6)
    requires k < 5
    ensures BitOf5(Instr.Rs2(w).n, k) == Bit(w, k + 20)
  {}

  /** Register numbers are five bits from 7, 15 and 20 on, and CSR numbers the twelve bits from 20 on. */
  lemma FieldBits(w: Word, k: bv6)
    ensures k < 5 ==> BitOf5(Instr.Rd(w).n, k) == Bit(w, k + 7)
    ensures k < 5 ==> BitOf5(Instr.Rs1(w).n, k) == Bit(w, k + 15)
    ensures k < 5 ==> BitOf5(Instr.Rs2(w).n, k) == Bit(w, k + 20)
    ensures k < 12 ==> ((CsrAddr(w).bits >> k) & 1 == 1 <==> Bit(w, k + 20))
  {
    hide BitOf5, Bit, Instr.Rd, Instr.Rs1, Instr.Rs2, CsrAddr;
    if k < 5 {
      RdBit(w, k);
      Rs1Bit(w, k);
      Rs2Bit(w, k);
    }
    if k < 12 { CsrNumberBit(w, k); }
  }

  /** The group of a 16-bit instruction: its three high bits and its two low ones. */
  lemma CompressedGroup(c: Half)
    ensures c.bits & 0xE003 == ((Instr.CFunct3(c) as bv16) << 13) | (Instr.CQuad(c) as bv16)
  {}

  lemma CsrNumberBit(w: Word, k: bv6)
    requires k < 12
    ensures (CsrAddr(w).bits >> k) & 1 == 1 <==> Bit(w, k + 20)
  {}

  // ------------------------------------------------------------------------------------------
  // Immediates
  // ------------------------------------------------------------------------------------------

  lemma BitsOfI(w: Word, k: bv6)
    requires k < 32
    ensures Bit(Decoder.DecImmI(w), k) == Bit(w, if k <= 10 then k + 20 else 31)
  {}

  lemma BitsOfS(w: Word, k: bv6)
    requires k < 32
    ensures Bit(Decoder.DecImmS(w), k) == Bit(w, if k <= 4 then k + 7 else if k <= 10 then k + 20 else 31)
  {}

  /** The bit of a branch instruction that is bit k of its offset, and of a JAL. */
  function BranchPlace(k: bv6): (r: bv6)
    requires k < 32
    ensures r < 32
  {
    if k <= 4 then k + 7 else if k <= 10 then k + 20 else if k == 11 then 7 else 31
  }

  function JumpPlace(k: bv6): (r: bv6)
    requires k < 32
    ensures r < 32
  {
    if k <= 10 then k + 20 else if k == 11 then 20 else if k <= 19 then k else 31
  }

  lemma BitsOfB(w: Word, k: bv6)
    requires k < 32
    ensures Bit(Decoder.DecImmB(w), k) == (k != 0 && Bit(w, BranchPlace(k)))
  {}

  lemma BitsOfJ(w: Word, k: bv6)
    requires k < 32
    ensures Bit(Decoder.DecImmJ(w), k) == (k != 0 && Bit(w, JumpPlace(k)))
  {}

  lemma UpperBitsOfU(w: Word, k: bv6)
    requires 12 <= k < 32
    ensures Bit(Decoder.DecImmU(w), k) == Bit(w, k)
  {}

  lemma LowerBitsOfU(w: Word, k: bv6)
    requires k < 12
    ensures !Bit(Decoder.DecImmU(w), k)
  {}

  /** Each immediate bit by bit, as in the format diagrams of section 2.3 of the RISC-V Unprivileged
      specification. */
  lemma ImmediateBits(w: Word, k: bv6)
    requires k < 32
    ensures Bit(Decoder.DecImmI(w), k) == Bit(w, if k <= 10 then k + 20 else 31)
    ensures Bit(Decoder.DecImmS(w), k) == Bit(w, if k <= 4 then k + 7 else if k <= 10 then k + 20 else 31)
    ensures Bit(Decoder.DecImmB(w), k) == (k != 0 && Bit(w, BranchPlace(k)))
    ensures Bit(Decoder.DecImmU(w), k) == (12 <= k && Bit(w, k))
    ensures Bit(Decoder.DecImmJ(w), k) == (k != 0 && Bit(w, JumpPlace(k)))
  {
    hide Bit, Decoder.DecImmI, Decoder.DecImmS, Decoder.DecImmB, Decoder.DecImmU, Decoder.DecImmJ;
    BitsOfI(w, k);
    BitsOfS(w, k);
    BitsOfB(w, k);
    BitsOfJ(w, k);
    if k < 12 { LowerBitsOfU(w, k); } else { UpperBitsOfU(w, k); }
  }

  // ------------------------------------------------------------------------------------------
  // Branches and jumps
  // ------------------------------------------------------------------------------------------

  predicate EncodesBranch(code: bv32, f3: bv3) { code == ((f3 as bv32) << 12) | 0x63 }

  lemma BranchCode(x: Ex, f3: bv3)
    requires EncodesBranch(Arithmetic.ShortCode(x), f3)
    ensures Instr.Opcode(x.instr) == 0x63 && Instr.Funct3(x.instr) == f3
  {}

  /** BEQ, BNE, BLT, BGE, BLTU and BGEU compare numbers. */
  lemma Branches(x: Ex)
    ensures var c, a, b := Arithmetic.ShortCode(x), x.rs1v, x.rs2v;
      && (c == 0x0063 ==> (Taken(x) <==> Number(a) == Number(b)))
      && (c == 0x1063 ==> (Taken(x) <==> Number(a) != Number(b)))
      && (c == 0x4063 ==> (Taken(x) <==> SignedNumber(a) < SignedNumber(b)))
      && (c == 0x5063 ==> (Taken(x) <==> SignedNumber(a) >= SignedNumber(b)))
      && (c == 0x6063 ==> (Taken(x) <==> Number(a) < Number(b)))
      && (c == 0x7063 ==> (Taken(x) <==> Number(a) >= Number(b)))
  {
    hide Instr.Opcode, Instr.Funct3, Isa.SignedLess, Isa.UnsignedLess, Number, SignedNumber, Arithmetic.ShortCode;
    var c := Arithmetic.ShortCode(x);
    Arithmetic.SignedLessNumber(x.rs1v, x.rs2v);
    Arithmetic.UnsignedLessNumber(x.rs1v, x.rs2v);
    if Number(x.rs1v) == Number(x.rs2v) { SameNumber(x.rs1v, x.rs2v); }
    if c == 0x0063 { BranchCode(x, 0); }
    else if c == 0x1063 { BranchCode(x, 1); }
    else if c == 0x4063 { BranchCode(x, 4); }
    else if c == 0x5063 { BranchCode(x, 5); }
    else if c == 0x6063 { BranchCode(x, 6); }
    else if c == 0x7063 { BranchCode(x, 7); }
  }

  function OpcodeBits(x: Ex): (r: bv32) { x.instr.bits & 0x7F }

  lemma OpcodeCode(x: Ex, op: bv7)
    ensures Instr.Opcode(x.instr) == op <==> OpcodeBits(x) == op as bv32
  {
    if Instr.Opcode(x.instr) == op {} else {}
  }

  lemma LowBitApart(a: bv32)
    ensures (a & 0xFFFF_FFFE) + (a & 1) == a
  {}

  lemma EvenSum(w: Word)
    ensures Isa.Sum(Isa.EvenBelow(w), Masked(w, 1)) == w
  {
    LowBitApart(w.bits);
  }

  lemma EvenNumber(w: Word)
    ensures Number(Isa.EvenBelow(w)) == Number(w) - Number(w) % 2
  {
    hide Number, Isa.EvenBelow, Isa.Sum, Masked, Power;
    EvenSum(w);
    SumNumber(Isa.EvenBelow(w), Masked(w, 1));
    MaskedNumber(w, 1);
    assert (1 as bv6) as int == 1;
    Powers0();
    EvenLowBit(w);
    BitIsDigit(Isa.EvenBelow(w), 0);
  }

  lemma EvenLowBit(w: Word)
    ensures !Bit(Isa.EvenBelow(w), 0)
  {}

  lemma LinkNumber(x: Ex)
    ensures Number(LinkStep(x)) == if x.item.isC then 2 else 4
  {
    if x.item.isC {} else {}
  }

  /** JAL and taken branches add their offset to the pc, JALR adds its immediate to a register and clears
      the low bit; everything else goes on behind the instruction. */
  lemma Destinations(x: Ex)
    ensures var pc, r := Number(x.item.pc), Number(NextTarget(x));
      && (OpcodeBits(x) == 0x6F ==> r == (pc + Number(Decoder.DecImmJ(x.instr))) % TWO32)
      && (OpcodeBits(x) == 0x67 ==> r == Even((Number(x.rs1v) + Number(Decoder.DecImmI(x.instr))) % TWO32))
      && (OpcodeBits(x) == 0x63 && Taken(x) ==> r == (pc + Number(Decoder.DecImmB(x.instr))) % TWO32)
      && (OpcodeBits(x) != 0x6F && OpcodeBits(x) != 0x67 && !Taken(x) ==>
            r == (pc + if x.item.isC then 2 else 4) % TWO32)
  {
    hide Number, Instr.Opcode, OpcodeBits, Decoder.DecImmI, Decoder.DecImmJ, Decoder.DecImmB, Isa.Sum, Isa.EvenBelow,
      LinkStep;
    OpcodeCode(x, 0x6F);
    OpcodeCode(x, 0x67);
    OpcodeCode(x, 0x63);
    SumNumber(x.item.pc, Decoder.DecImmJ(x.instr));
    SumNumber(x.item.pc, Decoder.DecImmB(x.instr));
    SumNumber(x.item.pc, LinkStep(x));
    SumNumber(x.rs1v, Decoder.DecImmI(x.instr));
    EvenNumber(Isa.Sum(x.rs1v, Decoder.DecImmI(x.instr)));
    LinkNumber(x);
  }

  function Even(n: nat): (r: nat) { n - n % 2 }

  lemma OddNumber(w: Word)
    ensures Isa.IsOdd(w) <==> Odd(Number(w))
  {
    hide Number, Power;
    MaskIsDigit(w, 1, 0);
    assert (0 as bv6) as int == 0;
    FirstPower();
  }

  /** A legal jump or taken branch is reported for its target exactly if that is odd. */
  lemma OddTargets(x: Ex, k: Csr.State)
    requires LegalEff(x, k)
    ensures BadTarget(x, k) <==>
      (OpcodeBits(x) == 0x6F || OpcodeBits(x) == 0x67 || Taken(x)) && Odd(Number(NextTarget(x)))
  {
    hide Number, Instr.Opcode, OpcodeBits, LegalEff, Taken, NextTarget, Isa.IsOdd;
    OpcodeCode(x, 0x6F);
    OpcodeCode(x, 0x67);
    OddNumber(NextTarget(x));
  }

  /** LUI, AUIPC, the link of a jump, and the addresses of loads, stores and atomics. */
  lemma UpperLinkAndAddress(x: Ex)
    ensures var pc, r, base := Number(x.item.pc), Number(ExResult(x)), Number(x.rs1v);
      && (OpcodeBits(x) == 0x37 ==> r == Number(Decoder.DecImmU(x.instr)))
      && (OpcodeBits(x) == 0x17 ==> r == (pc + Number(Decoder.DecImmU(x.instr))) % TWO32)
      && (OpcodeBits(x) == 0x6F || OpcodeBits(x) == 0x67 ==> r == (pc + if x.item.isC then 2 else 4) % TWO32)
      && (OpcodeBits(x) == 0x03 ==> r == (base + Number(Decoder.DecImmI(x.instr))) % TWO32)
      && (OpcodeBits(x) == 0x23 ==> r == (base + Number(Decoder.DecImmS(x.instr))) % TWO32)
      && (OpcodeBits(x) == 0x2F ==> r == base)
  {
    hide Number, Instr.Opcode, Instr.Funct3, Instr.Funct7, OpcodeBits, Decoder.DecImmI, Decoder.DecImmS,
      Decoder.DecImmU, Isa.Sum, LinkStep;
    OpcodeCode(x, 0x37);
    OpcodeCode(x, 0x17);
    OpcodeCode(x, 0x6F);
    OpcodeCode(x, 0x67);
    OpcodeCode(x, 0x03);
    OpcodeCode(x, 0x23);
    OpcodeCode(x, 0x2F);
    DataPath.ZeroPlus(Decoder.DecImmU(x.instr));
    DataPath.ZeroPlus(x.rs1v);
    SumNumber(x.item.pc, Decoder.DecImmU(x.instr));
    SumNumber(x.item.pc, LinkStep(x));
    SumNumber(x.rs1v, Decoder.DecImmI(x.instr));
    SumNumber(x.rs1v, Decoder.DecImmS(x.instr));
    LinkNumber(x);
  }

  // ------------------------------------------------------------------------------------------
  // Loads
  // ------------------------------------------------------------------------------------------

  /** The n bytes of a little-endian word from byte `at` on, as a number. */
  function BytesOf(d: Word, at: nat, n: nat): (r: nat) { Number(d) / Power(8 * at) % Power(8 * n) }

  lemma LaneIsShift(a: Word, d: Word)
    ensures a.bits & 3 == 0 ==> ByteLane(a, d) == Masked(d, 8).bits && HalfLane(a, d) == Masked(d, 16).bits
    ensures a.bits & 3 == 1 ==> ByteLane(a, d) == Masked(Isa.ShiftRight(d, 8), 8).bits
    ensures a.bits & 3 == 2 ==> ByteLane(a, d) == Masked(Isa.ShiftRight(d, 16), 8).bits
    ensures a.bits & 3 == 2 ==> HalfLane(a, d) == Masked(Isa.ShiftRight(d, 16), 16).bits
    ensures a.bits & 3 == 3 ==> ByteLane(a, d) == Masked(Isa.ShiftRight(d, 24), 8).bits
  {}

  /** A field of the given size in two's complement. */
  function Extended(n: nat, size: nat): (r: int) { if n < size / 2 then n else n - size }

  lemma SmallSext(x: bv32, sign: bv32)
    requires x & sign == 0
    ensures Instr.Sext(x, sign) == x
  {}

  lemma ByteSext(x: bv32)
    requires x & 0x80 != 0 && x <= 0xFF
    ensures Isa.Difference(Word(x), Word(0x100)) == Word(Instr.Sext(x, 0x80))
  {}

  lemma HalfSext(x: bv32)
    requires x & 0x8000 != 0 && x <= 0xFFFF
    ensures Isa.Difference(Word(x), Word(0x1_0000)) == Word(Instr.Sext(x, 0x8000))
  {}

  lemma ByteSign(x: bv32)
    requires x <= 0xFF
    ensures x & 0x80 == 0 <==> Lt(x, 0x80)
  {
    if x & 0x80 == 0 {} else {}
  }

  lemma HalfSign(x: bv32)
    requires x <= 0xFFFF
    ensures x & 0x8000 == 0 <==> Lt(x, 0x8000)
  {
    if x & 0x8000 == 0 {} else {}
  }

  lemma SizeNumbers()
    ensures Number(Word(0x80)) == 0x80 && Number(Word(0x100)) == 0x100
    ensures Number(Word(0x8000)) == 0x8000 && Number(Word(0x1_0000)) == 0x1_0000
  {}

  lemma SextOfByte(x: bv32)
    requires x <= 0xFF && Number(Word(x)) < 0x100
    ensures SignedNumber(Word(Instr.Sext(x, 0x80))) == Extended(Number(Word(x)), 0x100)
  {
    hide Number, Instr.Sext, Isa.Difference, Lt;
    ByteSign(x);
    SizeNumbers();
    LessNumber(Word(x), Word(0x80));
    if x & 0x80 == 0 {
      SmallSext(x, 0x80);
    } else {
      ByteSext(x);
      DifferenceNumber(Word(x), Word(0x100));
    }
  }

  lemma SextOfHalf(x: bv32)
    requires x <= 0xFFFF && Number(Word(x)) < 0x1_0000
    ensures SignedNumber(Word(Instr.Sext(x, 0x8000))) == Extended(Number(Word(x)), 0x1_0000)
  {
    hide Number, Instr.Sext, Isa.Difference, Lt;
    HalfSign(x);
    SizeNumbers();
    LessNumber(Word(x), Word(0x8000));
    if x & 0x8000 == 0 {
      SmallSext(x, 0x8000);
    } else {
      HalfSext(x);
      DifferenceNumber(Word(x), Word(0x1_0000));
    }
  }

  lemma MaskedRange(w: Word)
    ensures Masked(w, 8).bits <= 0xFF && Masked(w, 16).bits <= 0xFFFF
  {}

  lemma LaneNumber(a: Word)
    ensures Number(a) % 4 == 0 <==> a.bits & 3 == 0
    ensures Number(a) % 4 == 1 <==> a.bits & 3 == 1
    ensures Number(a) % 4 == 2 <==> a.bits & 3 == 2
    ensures Number(a) % 4 == 3 <==> a.bits & 3 == 3
  {
    hide Number, Power;
    MaskedNumber(a, 2);
    assert (2 as bv6) as int == 2;
    Powers0();
    assert Masked(a, 2) == Word(a.bits & 3);
    FirstNumbers();
    if a.bits & 3 == 0 {} else if a.bits & 3 == 1 {} else if a.bits & 3 == 2 {} else if a.bits & 3 == 3 {}
  }

  lemma FirstNumbers()
    ensures Number(Word(0)) == 0 && Number(Word(1)) == 1 && Number(Word(2)) == 2 && Number(Word(3)) == 3
  {}

  /** The lane an access selects is the field of bytes it addresses. */
  lemma LaneBytes(a: Word, d: Word)
    ensures ByteLane(a, d) <= 0xFF && Number(Word(ByteLane(a, d))) == BytesOf(d, Number(a) % 4, 1)
    ensures Number(a) % 2 == 0
        ==> HalfLane(a, d) <= 0xFFFF && Number(Word(HalfLane(a, d))) == BytesOf(d, Number(a) % 4, 2)
  {
    hide Number, ByteLane, HalfLane, Isa.ShiftRight, Masked, Power;
    LaneNumber(a);
    LaneIsShift(a, d);
    ShiftNumbers(d);
    Powers0();
    Powers1();
    Powers2();
    Powers3();
    MaskedRange(d);
    MaskedRange(Isa.ShiftRight(d, 8));
    MaskedRange(Isa.ShiftRight(d, 16));
    MaskedRange(Isa.ShiftRight(d, 24));
  }

  lemma ShiftNumbers(d: Word)
    ensures Number(Masked(d, 8)) == Number(d) % Power(8) && Number(Masked(d, 16)) == Number(d) % Power(16)
    ensures Number(Masked(Isa.ShiftRight(d, 8), 8)) == Number(d) / Power(8) % Power(8)
    ensures Number(Masked(Isa.ShiftRight(d, 16), 8)) == Number(d) / Power(16) % Power(8)
    ensures Number(Masked(Isa.ShiftRight(d, 16), 16)) == Number(d) / Power(16) % Power(16)
    ensures Number(Masked(Isa.ShiftRight(d, 24), 8)) == Number(d) / Power(24) % Power(8)
  {
    hide Number, Isa.ShiftRight, Masked, Power;
    assert (8 as bv6) as int == 8 && (16 as bv6) as int == 16 && (24 as bv6) as int == 24;
    ShiftRightNumber(d, 8);
    ShiftRightNumber(d, 16);
    ShiftRightNumber(d, 24);
    MaskedNumber(d, 8);
    MaskedNumber(d, 16);
    MaskedNumber(Isa.ShiftRight(d, 8), 8);
    MaskedNumber(Isa.ShiftRight(d, 16), 8);
    MaskedNumber(Isa.ShiftRight(d, 16), 16);
    MaskedNumber(Isa.ShiftRight(d, 24), 8);
  }

  /** LB, LBU, LH, LHU and LW give the addressed bytes of the word, as a signed or an unsigned number. */
  lemma Loads(a: Word, d: Word)
    ensures var b := BytesOf(d, Number(a) % 4, 1);
      Number(LoadResult(4, a, d)) == b && SignedNumber(LoadResult(0, a, d)) == Extended(b, 0x100)
    ensures var h := BytesOf(d, Number(a) % 4, 2);
      Number(a) % 2 == 0 ==>
        Number(LoadResult(5, a, d)) == h && SignedNumber(LoadResult(1, a, d)) == Extended(h, 0x1_0000)
    ensures Number(LoadResult(2, a, d)) == Number(d)
  {
    hide Number, SignedNumber, ByteLane, HalfLane, BytesOf, Instr.Sext, Power;
    LaneBytes(a, d);
    ByteIsSmall(d, Number(a) % 4);
    SextOfByte(ByteLane(a, d));
    if Number(a) % 2 == 0 {
      HalfIsSmall(d, Number(a) % 4);
      SextOfHalf(HalfLane(a, d));
    }
  }

  lemma ByteIsSmall(d: Word, at: nat)
    ensures BytesOf(d, at, 1) < 0x100
  {
    hide Number;
    Powers1();
  }

  lemma HalfIsSmall(d: Word, at: nat)
    ensures BytesOf(d, at, 2) < 0x1_0000
  {
    hide Number;
    Powers2();
  }

  // ------------------------------------------------------------------------------------------
  // Atomics
  // ------------------------------------------------------------------------------------------

  function AtomicCode(w: Word): (r: bv32) { w.bits & 0xF800_707F }

  predicate EncodesAtomic(code: bv32, f5: bv5) { code == ((f5 as bv32) << 27) | 0x202F }

  lemma AtomicFunction(w: Word, f5: bv5)
    requires EncodesAtomic(AtomicCode(w), f5)
    ensures Instr.Funct5(w) == f5
  {}

  function Least(m: int, n: int): (r: int) { if m < n then m else n }

  function Greatest(m: int, n: int): (r: int) { if m < n then n else m }

  /** What AMOSWAP, AMOADD and the AMOMIN and AMOMAX instructions store. */
  lemma AtomicNumbers(w: Word, old_: Word, v: Word)
    ensures var c, r := AtomicCode(w), AmoNew(w, old_, v);
      && (c == 0x0800_202F ==> r == v)
      && (c == 0x0000_202F ==> Number(r) == (Number(old_) + Number(v)) % TWO32)
      && (c == 0x8000_202F ==> SignedNumber(r) == Least(SignedNumber(old_), SignedNumber(v)))
      && (c == 0xA000_202F ==> SignedNumber(r) == Greatest(SignedNumber(old_), SignedNumber(v)))
      && (c == 0xC000_202F ==> Number(r) == Least(Number(old_), Number(v)))
      && (c == 0xE000_202F ==> Number(r) == Greatest(Number(old_), Number(v)))
  {
    hide Number, SignedNumber, Instr.Funct5, AtomicCode, Isa.Sum, Isa.SignedLess, Isa.UnsignedLess, Isa.BitXor,
      Isa.BitOr, Isa.BitAnd;
    var c := AtomicCode(w);
    SumNumber(old_, v);
    Arithmetic.SignedLessNumber(old_, v);
    Arithmetic.SignedLessNumber(v, old_);
    Arithmetic.UnsignedLessNumber(old_, v);
    Arithmetic.UnsignedLessNumber(v, old_);
    if c == 0x0800_202F { AtomicFunction(w, 0x01); }
    if c == 0x0000_202F { AtomicFunction(w, 0x00); }
    if c == 0x8000_202F { AtomicFunction(w, 0x10); }
    if c == 0xA000_202F { AtomicFunction(w, 0x14); }
    if c == 0xC000_202F { AtomicFunction(w, 0x18); }
    if c == 0xE000_202F { AtomicFunction(w, 0x1C); }
  }

  /** What AMOXOR, AMOOR and AMOAND store, digit by digit. */
  lemma AtomicDigits(w: Word, old_: Word, v: Word, k: bv6)
    requires k < 32
    ensures var c, r := AtomicCode(w), AmoNew(w, old_, v);
      && (c == 0x2000_202F ==> Digit(r, k) == (Digit(old_, k) != Digit(v, k)))
      && (c == 0x4000_202F ==> Digit(r, k) == (Digit(old_, k) || Digit(v, k)))
      && (c == 0x6000_202F ==> Digit(r, k) == (Digit(old_, k) && Digit(v, k)))
  {
    hide Number, Power, Bit, Instr.Funct5, AtomicCode, Isa.BitXor, Isa.BitOr, Isa.BitAnd;
    var c := AtomicCode(w);
    BitIsDigit(old_, k);
    BitIsDigit(v, k);
    BitIsDigit(AmoNew(w, old_, v), k);
    Arithmetic.BitOfXor(old_, v, k);
    Arithmetic.BitOfOr(old_, v, k);
    Arithmetic.BitOfAnd(old_, v, k);
    if c == 0x2000_202F { AtomicFunction(w, 0x04); }
    if c == 0x4000_202F { AtomicFunction(w, 0x08); }
    if c == 0x6000_202F { AtomicFunction(w, 0x0C); }
  }
}
