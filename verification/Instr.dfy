/** The RV32IMAC_Zicsr instruction set as the ISA manuals define it: instructions, their 32-bit
    encodings and the meaning of the 16-bit ones. */
module Instr {
  import opened Words
  import Csr

  datatype Reg = Reg(n: bv5)

  const X0 := Reg(0)
  const RA := Reg(1)
  const SP := Reg(2)

  datatype Width = B | H | W

  datatype Cond = Eq | Ne | Lt | Ge | Ltu | Geu

  datatype AluOp = Add | Sub | Sll | Slt | Sltu | Xor | Srl | Sra | Or | And

  datatype MulOp = Mul | Mulh | Mulhsu | Mulhu | Div | Divu | Rem | Remu

  datatype AmoOp = Swap | AmoAdd | AmoXor | AmoAnd | AmoOr | Min | Max | Minu | Maxu

  datatype CsrSrc = FromReg(rs1: Reg) | FromImm(uimm: bv5)

  datatype Instr =
    | Lui(rd: Reg, imm: Word)
    | Auipc(rd: Reg, imm: Word)
    | Jal(rd: Reg, off: Word)
    | Jalr(rd: Reg, rs1: Reg, imm: Word)
    | Branch(cond: Cond, rs1: Reg, rs2: Reg, off: Word)
    | Load(width: Width, unsigned: bool, rd: Reg, rs1: Reg, imm: Word)
    | Store(width: Width, rs1: Reg, rs2: Reg, imm: Word)
    | OpImm(op: AluOp, rd: Reg, rs1: Reg, imm: Word)
    | Op(op: AluOp, rd: Reg, rs1: Reg, rs2: Reg)
    | MulDiv(mop: MulOp, rd: Reg, rs1: Reg, rs2: Reg)
    | Fence
    | Ecall
    | Ebreak
    | Mret
    | Wfi
    | Zicsr(csrOp: Csr.CsrOp, rd: Reg, csr: Csr.Addr, src: CsrSrc)
    | Lr(rd: Reg, rs1: Reg)
    | Sc(rd: Reg, rs1: Reg, rs2: Reg)
    | Amo(aop: AmoOp, rd: Reg, rs1: Reg, rs2: Reg)
    | Illegal

  // ------------------------------------------------------------------------------------------
  // Fields of a 32-bit encoding
  // ------------------------------------------------------------------------------------------

  function Opcode(w: Word): (r: bv7) { (w.bits & 0x7F) as bv7 }

  function Rd(w: Word): (r: Reg) { Reg(((w.bits >> 7) & 0x1F) as bv5) }

  function Funct3(w: Word): (r: bv3) { ((w.bits >> 12) & 7) as bv3 }

  function Rs1(w: Word): (r: Reg) { Reg(((w.bits >> 15) & 0x1F) as bv5) }

  function Rs2(w: Word): (r: Reg) { Reg(((w.bits >> 20) & 0x1F) as bv5) }

  function Funct7(w: Word): (r: bv7) { (w.bits >> 25) as bv7 }

  function Funct5(w: Word): (r: bv5) { (w.bits >> 27) as bv5 }

  function Funct12(w: Word): (r: bv12) { (w.bits >> 20) as bv12 }

  /** Sign extension of a field, given the weight of its sign bit. */
  function Sext(x: bv32, sign: bv32): (r: bv32) { if x & sign == 0 then x else x | (0 - sign) }

  function ImmI(w: Word): (r: Word) { Word(Sext(w.bits >> 20, 0x800)) }

  function ImmS(w: Word): (r: Word) { Word(Sext(((w.bits >> 25) << 5) | ((w.bits >> 7) & 0x1F), 0x800)) }

  function ImmB(w: Word): (r: Word) {
    Word(Sext(((w.bits >> 31) << 12) | (((w.bits >> 7) & 1) << 11) | (((w.bits >> 25) & 0x3F) << 5) |
              (((w.bits >> 8) & 0xF) << 1), 0x1000))
  }

  function ImmU(w: Word): (r: Word) { Word(w.bits & 0xFFFF_F000) }

  function ImmJ(w: Word): (r: Word) {
    Word(Sext(((w.bits >> 31) << 20) | (((w.bits >> 12) & 0xFF) << 12) | (((w.bits >> 20) & 1) << 11) |
              (((w.bits >> 21) & 0x3FF) << 1), 0x10_0000))
  }

  function Shamt(w: Word): (r: Word) { Word((w.bits >> 20) & 0x1F) }

  // ------------------------------------------------------------------------------------------
  // Decoding, by the opcode tables of the RISC-V Unprivileged specification
  // ------------------------------------------------------------------------------------------

  function DecodeBranch(w: Word): (r: Instr) {
    match Funct3(w)
    case 0 => Branch(Eq, Rs1(w), Rs2(w), ImmB(w))
    case 1 => Branch(Ne, Rs1(w), Rs2(w), ImmB(w))
    case 4 => Branch(Lt, Rs1(w), Rs2(w), ImmB(w))
    case 5 => Branch(Ge, Rs1(w), Rs2(w), ImmB(w))
    case 6 => Branch(Ltu, Rs1(w), Rs2(w), ImmB(w))
    case 7 => Branch(Geu, Rs1(w), Rs2(w), ImmB(w))
    case _ => Illegal
  }

  function DecodeLoad(w: Word): (r: Instr) {
    match Funct3(w)
    case 0 => Load(B, false, Rd(w), Rs1(w), ImmI(w))
    case 1 => Load(H, false, Rd(w), Rs1(w), ImmI(w))
    case 2 => Load(W, false, Rd(w), Rs1(w), ImmI(w))
    case 4 => Load(B, true, Rd(w), Rs1(w), ImmI(w))
    case 5 => Load(H, true, Rd(w), Rs1(w), ImmI(w))
    case _ => Illegal
  }

  function DecodeStore(w: Word): (r: Instr) {
    match Funct3(w)
    case 0 => Store(B, Rs1(w), Rs2(w), ImmS(w))
    case 1 => Store(H, Rs1(w), Rs2(w), ImmS(w))
    case 2 => Store(W, Rs1(w), Rs2(w), ImmS(w))
    case _ => Illegal
  }

  function DecodeOpImm(w: Word): (r: Instr) {
    match Funct3(w)
    case 0 => OpImm(Add, Rd(w), Rs1(w), ImmI(w))
    case 2 => OpImm(Slt, Rd(w), Rs1(w), ImmI(w))
    case 3 => OpImm(Sltu, Rd(w), Rs1(w), ImmI(w))
    case 4 => OpImm(Xor, Rd(w), Rs1(w), ImmI(w))
    case 6 => OpImm(Or, Rd(w), Rs1(w), ImmI(w))
    case 7 => OpImm(And, Rd(w), Rs1(w), ImmI(w))
    case 1 => if Funct7(w) == 0 then OpImm(Sll, Rd(w), Rs1(w), Shamt(w)) else Illegal
    case _ =>
      if Funct7(w) == 0 then OpImm(Srl, Rd(w), Rs1(w), Shamt(w))
      else if Funct7(w) == 0x20 then OpImm(Sra, Rd(w), Rs1(w), Shamt(w))
      else Illegal
  }

  function AluOpOf(f3: bv3): (r: AluOp) {
    match f3
    case 0 => Add
    case 1 => Sll
    case 2 => Slt
    case 3 => Sltu
    case 4 => Xor
    case 5 => Srl
    case 6 => Or
    case _ => And
  }

  function MulOpOf(f3: bv3): (r: MulOp) {
    match f3
    case 0 => Mul
    case 1 => Mulh
    case 2 => Mulhsu
    case 3 => Mulhu
    case 4 => Div
    case 5 => Divu
    case 6 => Rem
    case _ => Remu
  }

  function DecodeOp(w: Word): (r: Instr) {
    if Funct7(w) == 1 then MulDiv(MulOpOf(Funct3(w)), Rd(w), Rs1(w), Rs2(w))
    else if Funct7(w) == 0 then Op(AluOpOf(Funct3(w)), Rd(w), Rs1(w), Rs2(w))
    else if Funct7(w) == 0x20 && Funct3(w) == 0 then Op(Sub, Rd(w), Rs1(w), Rs2(w))
    else if Funct7(w) == 0x20 && Funct3(w) == 5 then Op(Sra, Rd(w), Rs1(w), Rs2(w))
    else Illegal
  }

  function DecodeSystem(w: Word): (r: Instr) {
    var csr := Csr.Addr(Funct12(w));
    match Funct3(w)
    case 0 =>
      if Funct12(w) == 0 then Ecall
      else if Funct12(w) == 1 then Ebreak
      else if Funct12(w) == 0x105 then Wfi
      else if Funct12(w) == 0x302 then Mret
      else Illegal
    case 1 => Zicsr(Csr.Write, Rd(w), csr, FromReg(Rs1(w)))
    case 2 => Zicsr(Csr.SetBits, Rd(w), csr, FromReg(Rs1(w)))
    case 3 => Zicsr(Csr.ClearBits, Rd(w), csr, FromReg(Rs1(w)))
    case 4 => Illegal
    case 5 => Zicsr(Csr.Write, Rd(w), csr, FromImm(Rs1(w).n))
    case 6 => Zicsr(Csr.SetBits, Rd(w), csr, FromImm(Rs1(w).n))
    case _ => Zicsr(Csr.ClearBits, Rd(w), csr, FromImm(Rs1(w).n))
  }

  function DecodeAmo(w: Word): (r: Instr) {
    if Funct3(w) != 2 then Illegal
    else
      match Funct5(w)
      case 0x02 => Lr(Rd(w), Rs1(w))
      case 0x03 => Sc(Rd(w), Rs1(w), Rs2(w))
      case 0x01 => Amo(Swap, Rd(w), Rs1(w), Rs2(w))
      case 0x00 => Amo(AmoAdd, Rd(w), Rs1(w), Rs2(w))
      case 0x04 => Amo(AmoXor, Rd(w), Rs1(w), Rs2(w))
      case 0x0C => Amo(AmoAnd, Rd(w), Rs1(w), Rs2(w))
      case 0x08 => Amo(AmoOr, Rd(w), Rs1(w), Rs2(w))
      case 0x10 => Amo(Min, Rd(w), Rs1(w), Rs2(w))
      case 0x14 => Amo(Max, Rd(w), Rs1(w), Rs2(w))
      case 0x18 => Amo(Minu, Rd(w), Rs1(w), Rs2(w))
      case 0x1C => Amo(Maxu, Rd(w), Rs1(w), Rs2(w))
      case _ => Illegal
  }

  function Decode(w: Word): (r: Instr) {
    match Opcode(w)
    case 0x37 => Lui(Rd(w), ImmU(w))
    case 0x17 => Auipc(Rd(w), ImmU(w))
    case 0x6F => Jal(Rd(w), ImmJ(w))
    case 0x67 => if Funct3(w) == 0 then Jalr(Rd(w), Rs1(w), ImmI(w)) else Illegal
    case 0x63 => DecodeBranch(w)
    case 0x03 => DecodeLoad(w)
    case 0x23 => DecodeStore(w)
    case 0x13 => DecodeOpImm(w)
    case 0x33 => DecodeOp(w)
    case 0x0F => if Funct3(w) == 0 then Fence else Illegal
    case 0x73 => DecodeSystem(w)
    case 0x2F => DecodeAmo(w)
    case _ => Illegal
  }

  // ------------------------------------------------------------------------------------------
  // 16-bit instructions, by the tables of section 16.8 of the same specification
  // ------------------------------------------------------------------------------------------

  function CBits(c: Half, lo: bv5, n: bv5): (r: bv32)
    requires lo <= 15 && n <= 15
  {
    (((c.bits >> lo) & (((1 as bv16) << n) - 1)) as bv32)
  }

  /** A full register number, and a three-bit one for x8..x15. */
  function CReg(c: Half, lo: bv5): (r: Reg)
    requires lo <= 11
  {
    Reg(((c.bits >> lo) & 0x1F) as bv5)
  }

  function CRegP(c: Half, lo: bv5): (r: Reg)
    requires lo <= 13
  {
    Reg(8 | (((c.bits >> lo) & 7) as bv5))
  }

  /** imm[5|4:0] at bits 12 and 6..2, sign-extended. */
  function CImm6(c: Half): (r: Word) { Word(Sext((CBits(c, 12, 1) << 5) | CBits(c, 2, 5), 0x20)) }

  /** imm[11|4|9:8|10|6|7|3:1|5] at bits 12..2. */
  function CImmJ(c: Half): (r: Word) {
    Word(Sext((CBits(c, 12, 1) << 11) | (CBits(c, 11, 1) << 4) | (CBits(c, 9, 2) << 8) | (CBits(c, 8, 1) << 10) |
              (CBits(c, 7, 1) << 6) | (CBits(c, 6, 1) << 7) | (CBits(c, 3, 3) << 1) | (CBits(c, 2, 1) << 5), 0x800))
  }

  /** imm[8|4:3] at bits 12..10 and imm[7:6|2:1|5] at bits 6..2. */
  function CImmB(c: Half): (r: Word) {
    Word(Sext((CBits(c, 12, 1) << 8) | (CBits(c, 10, 2) << 3) | (CBits(c, 5, 2) << 6) | (CBits(c, 3, 2) << 1) |
              (CBits(c, 2, 1) << 5), 0x100))
  }

  /** nzuimm[5:4|9:6|2|3] at bits 12..5. */
  function CImm4Spn(c: Half): (r: Word) {
    Word((CBits(c, 11, 2) << 4) | (CBits(c, 7, 4) << 6) | (CBits(c, 6, 1) << 2) | (CBits(c, 5, 1) << 3))
  }

  /** nzimm[9] at bit 12 and nzimm[4|6|8:7|5] at bits 6..2. */
  function CImm16Sp(c: Half): (r: Word) {
    Word(Sext((CBits(c, 12, 1) << 9) | (CBits(c, 6, 1) << 4) | (CBits(c, 5, 1) << 6) | (CBits(c, 3, 2) << 7) |
              (CBits(c, 2, 1) << 5), 0x200))
  }

  /** uimm[5:3] at bits 12..10, uimm[2|6] at bits 6..5. */
  function CImmLw(c: Half): (r: Word) {
    Word((CBits(c, 10, 3) << 3) | (CBits(c, 6, 1) << 2) | (CBits(c, 5, 1) << 6))
  }

  /** uimm[5] at bit 12, uimm[4:2|7:6] at bits 6..2. */
  function CImmLwsp(c: Half): (r: Word) {
    Word((CBits(c, 12, 1) << 5) | (CBits(c, 4, 3) << 2) | (CBits(c, 2, 2) << 6))
  }

  /** uimm[5:2|7:6] at bits 12..7. */
  function CImmSwsp(c: Half): (r: Word) { Word((CBits(c, 9, 4) << 2) | (CBits(c, 7, 2) << 6)) }

  function CQuad(c: Half): (r: bv2) { (c.bits & 3) as bv2 }

  function CFunct3(c: Half): (r: bv3) { (c.bits >> 13) as bv3 }

  function Rvc0(c: Half): (r: Instr) {
    match CFunct3(c)
    case 0 => if CImm4Spn(c) == ZERO then Illegal else OpImm(Add, CRegP(c, 2), SP, CImm4Spn(c))
    case 2 => Load(W, false, CRegP(c, 2), CRegP(c, 7), CImmLw(c))
    case 6 => Store(W, CRegP(c, 7), CRegP(c, 2), CImmLw(c))
    case _ => Illegal
  }

  function RvcArith(c: Half): (r: Instr) {
    var r := CRegP(c, 7);
    match (c.bits >> 10) & 3
    case 0 => if CBits(c, 12, 1) != 0 || CBits(c, 2, 5) == 0 then Illegal else OpImm(Srl, r, r, Word(CBits(c, 2, 5)))
    case 1 => if CBits(c, 12, 1) != 0 || CBits(c, 2, 5) == 0 then Illegal else OpImm(Sra, r, r, Word(CBits(c, 2, 5)))
    case 2 => OpImm(And, r, r, CImm6(c))
    case _ =>
      if CBits(c, 12, 1) != 0 then Illegal
      else
        match (c.bits >> 5) & 3
        case 0 => Op(Sub, r, r, CRegP(c, 2))
        case 1 => Op(Xor, r, r, CRegP(c, 2))
        case 2 => Op(Or, r, r, CRegP(c, 2))
        case _ => Op(And, r, r, CRegP(c, 2))
  }

  function Rvc1(c: Half): (r: Instr) {
    var rd := CReg(c, 7);
    match CFunct3(c)
    case 0 => OpImm(Add, rd, rd, CImm6(c))
    case 1 => Jal(RA, CImmJ(c))
    case 2 => OpImm(Add, rd, X0, CImm6(c))
    case 3 =>
      if rd == SP then if CImm16Sp(c) == ZERO then Illegal else OpImm(Add, SP, SP, CImm16Sp(c))
      else if CImm6(c) == ZERO then Illegal
      else Lui(rd, Word(CImm6(c).bits << 12))
    case 4 => RvcArith(c)
    case 5 => Jal(X0, CImmJ(c))
    case 6 => Branch(Eq, CRegP(c, 7), X0, CImmB(c))
    case _ => Branch(Ne, CRegP(c, 7), X0, CImmB(c))
  }

  function Rvc2(c: Half): (r: Instr) {
    var rd, rs2 := CReg(c, 7), CReg(c, 2);
    match CFunct3(c)
    case 0 =>
      if CBits(c, 12, 1) != 0 || CBits(c, 2, 5) == 0 || rd == X0 then Illegal
      else OpImm(Sll, rd, rd, Word(CBits(c, 2, 5)))
    case 2 => if rd == X0 then Illegal else Load(W, false, rd, SP, CImmLwsp(c))
    case 4 =>
      if CBits(c, 12, 1) == 0 then
        if rs2 != X0 then Op(Add, rd, X0, rs2)
        else if rd == X0 then Illegal
        else Jalr(X0, rd, ZERO)
      else if rs2 != X0 then Op(Add, rd, rd, rs2)
      else if rd == X0 then Ebreak
      else Jalr(RA, rd, ZERO)
    case 6 => Store(W, SP, rs2, CImmSwsp(c))
    case _ => Illegal
  }

  /** The meaning of a 16-bit instruction. Shifts by zero and C.SLLI with rd=x0, hints in the
      specification, count as illegal: the decompressor treats them so. */
  function Rvc(c: Half): (r: Instr) {
    match CQuad(c)
    case 0 => Rvc0(c)
    case 1 => Rvc1(c)
    case 2 => Rvc2(c)
    case _ => Illegal
  }
}
