/** The instruction decoder and the RV32C decompressor. */
module Decoder {
  import opened Words
  import opened Instr

  // ------------------------------------------------------------------------------------------
  // Decoder outputs
  // ------------------------------------------------------------------------------------------

  /** n copies of bit 31 in the bits of `upper`. */
  function SignFill(w: Word, upper: bv32): (r: bv32) { if w.bits & 0x8000_0000 != 0 then upper else 0 }

  function DecImmI(w: Word): (r: Word) { Word(SignFill(w, 0xFFFF_F000) | (w.bits >> 20)) }

  function DecImmS(w: Word): (r: Word) {
    Word(SignFill(w, 0xFFFF_F000) | ((w.bits >> 25) << 5) | ((w.bits >> 7) & 0x1F))
  }

  function DecImmB(w: Word): (r: Word) {
    Word(SignFill(w, 0xFFFF_F000) | (((w.bits >> 7) & 1) << 11) | (((w.bits >> 25) & 0x3F) << 5) |
         (((w.bits >> 8) & 0xF) << 1))
  }

  function DecImmU(w: Word): (r: Word) { Word((w.bits >> 12) << 12) }

  function DecImmJ(w: Word): (r: Word) {
    Word(SignFill(w, 0xFFF0_0000) | (((w.bits >> 12) & 0xFF) << 12) | (((w.bits >> 20) & 1) << 11) |
         (((w.bits >> 21) & 0x3FF) << 1))
  }

  predicate IsLui(w: Word) { Opcode(w) == 0x37 }
  predicate IsAuipc(w: Word) { Opcode(w) == 0x17 }
  predicate IsJal(w: Word) { Opcode(w) == 0x6F }
  predicate IsJalr(w: Word) { Opcode(w) == 0x67 }
  predicate IsBranch(w: Word) { Opcode(w) == 0x63 }
  predicate IsLoad(w: Word) { Opcode(w) == 0x03 }
  predicate IsStore(w: Word) { Opcode(w) == 0x23 }
  predicate IsAluImm(w: Word) { Opcode(w) == 0x13 }
  predicate IsAluReg(w: Word) { Opcode(w) == 0x33 }
  predicate IsFence(w: Word) { Opcode(w) == 0x0F }
  predicate IsSystem(w: Word) { Opcode(w) == 0x73 }
  predicate IsAtomic(w: Word) { Opcode(w) == 0x2F }

  predicate LegalBranch(f3: bv3) { f3 == 0 || f3 == 1 || f3 == 4 || f3 == 5 || f3 == 6 || f3 == 7 }

  predicate LegalLoad(f3: bv3) { f3 == 0 || f3 == 1 || f3 == 2 || f3 == 4 || f3 == 5 }

  predicate LegalStore(f3: bv3) { f3 == 0 || f3 == 1 || f3 == 2 }

  predicate LegalAluImm(f3: bv3, f7: bv7) {
    || f3 == 0 || f3 == 2 || f3 == 3 || f3 == 4 || f3 == 6 || f3 == 7
    || (f3 == 1 && f7 == 0)
    || (f3 == 5 && (f7 == 0 || f7 == 0x20))
  }

  predicate LegalAluReg(f3: bv3, f7: bv7) {
    || (f3 == 0 && (f7 == 0 || f7 == 0x20))
    || (f3 == 1 && f7 == 0) || (f3 == 2 && f7 == 0) || (f3 == 3 && f7 == 0) || (f3 == 4 && f7 == 0)
    || (f3 == 5 && (f7 == 0 || f7 == 0x20))
    || (f3 == 6 && f7 == 0) || (f3 == 7 && f7 == 0)
    || f7 == 1
  }

  predicate LegalSystem(f3: bv3, f12: bv12) {
    || (f3 == 0 && (f12 == 0 || f12 == 1 || f12 == 0x105 || f12 == 0x302))
    || f3 == 1 || f3 == 2 || f3 == 3 || f3 == 5 || f3 == 6 || f3 == 7
  }

  predicate LegalAtomic(f3: bv3, f5: bv5) {
    f3 == 2 &&
    (f5 == 0x02 || f5 == 0x03 || f5 == 0x01 || f5 == 0x00 || f5 == 0x04 || f5 == 0x0C || f5 == 0x08 ||
     f5 == 0x10 || f5 == 0x14 || f5 == 0x18 || f5 == 0x1C)
  }

  predicate IsLegal(w: Word) {
    || IsLui(w) || IsAuipc(w) || IsJal(w) || (IsJalr(w) && Funct3(w) == 0)
    || (IsBranch(w) && LegalBranch(Funct3(w)))
    || (IsLoad(w) && LegalLoad(Funct3(w)))
    || (IsStore(w) && LegalStore(Funct3(w)))
    || (IsAluImm(w) && LegalAluImm(Funct3(w), Funct7(w)))
    || (IsAluReg(w) && LegalAluReg(Funct3(w), Funct7(w)))
    || (IsSystem(w) && LegalSystem(Funct3(w), Funct12(w)))
    || (IsFence(w) && Funct3(w) == 0)
    || (IsAtomic(w) && LegalAtomic(Funct3(w), Funct5(w)))
  }

  // ------------------------------------------------------------------------------------------
  // Decompressor
  // ------------------------------------------------------------------------------------------

  function Bits(c: Half): (r: bv32) { c.bits as bv32 }

  /** c[hi:lo] as a field of `mask` ones. */
  function Fld(c: Half, lo: bv5, mask: bv32): (r: bv32)
    requires lo <= 15
  {
    (Bits(c) >> lo) & mask
  }

  function RdRs1(c: Half): (r: bv32) { Fld(c, 7, 0x1F) }

  function Rdp(c: Half): (r: bv32) { 8 | Fld(c, 2, 7) }

  function Rs1p(c: Half): (r: bv32) { 8 | Fld(c, 7, 7) }

  function LsUimm(c: Half): (r: bv32) {
    ((Bits(c) >> 7) & 0x38) | ((Bits(c) >> 4) & 0x04) | ((Bits(c) << 1) & 0x40)
  }

  function Addi4spnUimm(c: Half): (r: bv32) {
    (Fld(c, 7, 0xF) << 6) | (Fld(c, 11, 3) << 4) | (Fld(c, 5, 1) << 3) | (Fld(c, 6, 1) << 2)
  }

  function Imm6(c: Half): (r: bv32) { (Fld(c, 12, 1) << 5) | Fld(c, 2, 0x1F) }

  /** The sign bit imm6[5] repeated in the bits of `upper`, above imm6. */
  function Imm6Ext(c: Half, upper: bv32): (r: bv32) { (if Fld(c, 12, 1) != 0 then upper else 0) | Imm6(c) }

  function Addi16spUimm(c: Half): (r: bv32) {
    (Fld(c, 12, 1) << 9) | (Fld(c, 3, 3) << 7) | (Fld(c, 5, 1) << 6) | (Fld(c, 2, 1) << 5) | (Fld(c, 6, 1) << 4)
  }

  /** C.J/C.JAL offset, extended to 21 bits. */
  function CjOff(c: Half): (r: bv32) {
    (if Fld(c, 12, 1) != 0 then 0x1F_F000 else 0) |
    (Fld(c, 12, 1) << 11) | (Fld(c, 8, 1) << 10) | (Fld(c, 9, 3) << 8) | (Fld(c, 6, 1) << 7) | (Fld(c, 7, 1) << 6) |
    (Fld(c, 2, 1) << 5) | (Fld(c, 11, 1) << 4) | (Fld(c, 3, 7) << 1)
  }

  function JalFields(off: bv32): (r: bv32) {
    (((off >> 20) & 1) << 31) | (((off >> 1) & 0x3FF) << 21) | (((off >> 11) & 1) << 20) | (((off >> 12) & 0xFF) << 12)
  }

  /** C.BEQZ/C.BNEZ offset as a 12-bit number. */
  function CbImm(c: Half): (r: bv32) {
    var pre := ((Bits(c) >> 4) & 0x100) | ((Bits(c) << 1) & 0xC0) | ((Bits(c) << 3) & 0x20) |
               ((Bits(c) >> 7) & 0x18) | ((Bits(c) >> 2) & 6);
    if pre & 0x100 != 0 then (pre - 0x200) & 0xFFF else pre
  }

  function CbBase(c: Half): (r: bv32) {
    var s := CbImm(c);
    var ext := s | ((s & 0x800) << 1);
    ((ext & 0x1000) << 19) | ((s & 0x7E0) << 20) | ((s & 0x1E) << 7) | ((s & 0x800) >> 4)
  }

  function LwspUimm(c: Half): (r: bv32) { (Fld(c, 2, 3) << 6) | (Fld(c, 12, 1) << 5) | (Fld(c, 4, 7) << 2) }

  function SwspUimm(c: Half): (r: bv32) { (Fld(c, 7, 3) << 6) | (Fld(c, 9, 0xF) << 2) }

  function IType(imm: bv32, rs1: bv32, f3: bv32, rd: bv32, op: bv32): (r: Word) {
    Word((imm << 20) | (rs1 << 15) | (f3 << 12) | (rd << 7) | op)
  }

  function RType(f7: bv32, rs2: bv32, rs1: bv32, f3: bv32, rd: bv32, op: bv32): (r: Word) {
    Word((f7 << 25) | (rs2 << 20) | (rs1 << 15) | (f3 << 12) | (rd << 7) | op)
  }

  function SType(hi: bv32, rs2: bv32, rs1: bv32, lo: bv32): (r: Word) {
    Word((hi << 25) | (rs2 << 20) | (rs1 << 15) | (2 << 12) | (lo << 7) | 0x23)
  }

  function Expand0(c: Half): (r: Option<Word>) {
    match CFunct3(c)
    case 0 => if Addi4spnUimm(c) == 0 then None else Some(IType(Addi4spnUimm(c), 2, 0, Rdp(c), 0x13))
    case 2 => Some(IType(LsUimm(c), Rs1p(c), 2, Rdp(c), 0x03))
    case 6 => Some(SType((LsUimm(c) >> 5) & 3, Rdp(c), Rs1p(c), LsUimm(c) & 0x1F))
    case _ => None
  }

  function ExpandArith(c: Half): (r: Option<Word>) {
    match Fld(c, 10, 3)
    case 0 => if Fld(c, 12, 1) != 0 || Fld(c, 2, 0x1F) == 0 then None
              else Some(RType(0, Fld(c, 2, 0x1F), Rs1p(c), 5, Rs1p(c), 0x13))
    case 1 => if Fld(c, 12, 1) != 0 || Fld(c, 2, 0x1F) == 0 then None
              else Some(RType(0x20, Fld(c, 2, 0x1F), Rs1p(c), 5, Rs1p(c), 0x13))
    case 2 => Some(IType(Imm6Ext(c, 0xFC0), Rs1p(c), 7, Rs1p(c), 0x13))
    case _ =>
      if Fld(c, 12, 1) != 0 then None
      else
        match Fld(c, 5, 3)
        case 0 => Some(RType(0x20, Rdp(c), Rs1p(c), 0, Rs1p(c), 0x33))
        case 1 => Some(RType(0, Rdp(c), Rs1p(c), 4, Rs1p(c), 0x33))
        case 2 => Some(RType(0, Rdp(c), Rs1p(c), 6, Rs1p(c), 0x33))
        case _ => Some(RType(0, Rdp(c), Rs1p(c), 7, Rs1p(c), 0x33))
  }

  function Expand1(c: Half): (r: Option<Word>) {
    match CFunct3(c)
    case 0 => Some(IType(Imm6Ext(c, 0xFC0), RdRs1(c), 0, RdRs1(c), 0x13))
    case 1 => Some(Word(JalFields(CjOff(c)) | (1 << 7) | 0x6F))
    case 2 => Some(IType(Imm6Ext(c, 0xFC0), 0, 0, RdRs1(c), 0x13))
    case 3 =>
      if RdRs1(c) == 2 then
        if Addi16spUimm(c) == 0 then None
        else Some(IType((if Addi16spUimm(c) & 0x200 != 0 then 0xC00 else 0) | Addi16spUimm(c), 2, 0, 2, 0x13))
      else if Imm6(c) == 0 then None
      else Some(Word((Imm6Ext(c, 0xF_FFC0) << 12) | (RdRs1(c) << 7) | 0x37))
    case 4 => ExpandArith(c)
    case 5 => Some(Word(JalFields(CjOff(c)) | 0x6F))
    case 6 => Some(Word(CbBase(c) | (Rs1p(c) << 15) | 0x63))
    case _ => Some(Word(CbBase(c) | (Rs1p(c) << 15) | (1 << 12) | 0x63))
  }

  function Expand2(c: Half): (r: Option<Word>) {
    match CFunct3(c)
    case 0 =>
      if Fld(c, 12, 1) != 0 || Fld(c, 2, 0x1F) == 0 || RdRs1(c) == 0 then None
      else Some(RType(0, Fld(c, 2, 0x1F), RdRs1(c), 1, RdRs1(c), 0x13))
    case 2 => if RdRs1(c) == 0 then None else Some(IType(LwspUimm(c), 2, 2, RdRs1(c), 0x03))
    case 4 =>
      if Fld(c, 12, 1) == 0 then
        if Fld(c, 2, 0x1F) == 0 then
          if RdRs1(c) == 0 then None else Some(IType(0, RdRs1(c), 0, 0, 0x67))
        else Some(RType(0, Fld(c, 2, 0x1F), 0, 0, RdRs1(c), 0x33))
      else if Fld(c, 2, 0x1F) == 0 && RdRs1(c) == 0 then Some(Word(0x0010_0073))
      else if Fld(c, 2, 0x1F) == 0 then
        if RdRs1(c) == 0 then None else Some(IType(0, RdRs1(c), 0, 1, 0x67))
      else Some(RType(0, Fld(c, 2, 0x1F), RdRs1(c), 0, RdRs1(c), 0x33))
    case 6 => Some(SType((SwspUimm(c) >> 5) & 7, Fld(c, 2, 0x1F), 2, SwspUimm(c) & 0x1F))
    case _ => None
  }

  /** The expansion of a 16-bit instruction; None where the decompressor reports it illegal. */
  function Expand(c: Half): (r: Option<Word>) {
    match CQuad(c)
    case 0 => Expand0(c)
    case 1 => Expand1(c)
    case 2 => Expand2(c)
    case _ => None
  }

  /** What the decompressor drives: a NOP when it has no expansion. */
  function Decompressed(c: Half): (r: Word) {
    match Expand(c)
    case Some(w) => w
    case None => NOP
  }
}
