/** The decoder and the decompressor against the instruction set. */
module DecodeProof {
  import opened Words
  import opened Instr
  import opened Decoder

  // The immediates, by sign.

  lemma ImmINegative(w: Word)
    requires w.bits & 0x8000_0000 != 0
    ensures DecImmI(w) == ImmI(w)
  {}

  lemma ImmIPositive(w: Word)
    requires w.bits & 0x8000_0000 == 0
    ensures DecImmI(w) == ImmI(w)
  {}

  lemma ImmSNegative(w: Word)
    requires w.bits & 0x8000_0000 != 0
    ensures DecImmS(w) == ImmS(w)
  {}

  lemma ImmSPositive(w: Word)
    requires w.bits & 0x8000_0000 == 0
    ensures DecImmS(w) == ImmS(w)
  {}

  lemma ImmBNegative(w: Word)
    requires w.bits & 0x8000_0000 != 0
    ensures DecImmB(w) == ImmB(w)
  {}

  lemma ImmBPositive(w: Word)
    requires w.bits & 0x8000_0000 == 0
    ensures DecImmB(w) == ImmB(w)
  {}

  lemma ImmJNegative(w: Word)
    requires w.bits & 0x8000_0000 != 0
    ensures DecImmJ(w) == ImmJ(w)
  {}

  lemma ImmJPositive(w: Word)
    requires w.bits & 0x8000_0000 == 0
    ensures DecImmJ(w) == ImmJ(w)
  {}

  lemma ImmediatesAgree(w: Word)
    ensures DecImmI(w) == ImmI(w) && DecImmS(w) == ImmS(w) && DecImmB(w) == ImmB(w) && DecImmJ(w) == ImmJ(w)
  {
    hide *;
    if w.bits & 0x8000_0000 == 0 {
      ImmIPositive(w); ImmSPositive(w); ImmBPositive(w); ImmJPositive(w);
    } else {
      ImmINegative(w); ImmSNegative(w); ImmBNegative(w); ImmJNegative(w);
    }
  }

  lemma ImmUAgrees(w: Word)
    ensures DecImmU(w) == ImmU(w)
  {}

  /** The decoder accepts exactly the encodings that decode to an instruction. */
  lemma LegalIffDecodes(w: Word)
    ensures IsLegal(w) <==> Decode(w) != Illegal
  {
    hide Opcode, Funct3, Funct7, Funct5, Funct12, Rd, Rs1, Rs2, ImmI, ImmS, ImmB, ImmU, ImmJ, Shamt;
  }

  // ------------------------------------------------------------------------------------------
  // 16-bit instructions, one lemma for each expansion format
  // ------------------------------------------------------------------------------------------

  lemma Addi4spnFields(c: Half)
    ensures var w := IType(Addi4spnUimm(c), 2, 0, Rdp(c), 0x13);
      Opcode(w) == 0x13 && Funct3(w) == 0 && Rd(w) == CRegP(c, 2) && Rs1(w) == SP && ImmI(w) == CImm4Spn(c)
    ensures CImm4Spn(c) == ZERO <==> Addi4spnUimm(c) == 0
  {}

  lemma CAddi4spn(c: Half)
    requires CQuad(c) == 0 && CFunct3(c) == 0 && Addi4spnUimm(c) != 0
    ensures Expand(c).Some? && Decode(Expand(c).value) == Rvc(c) && Rvc(c) != Illegal
  {
    hide Opcode, Funct3, Funct7, Rd, Rs1, ImmI, IType, CRegP, CImm4Spn, Rdp, Addi4spnUimm;
    Addi4spnFields(c);
  }

  lemma CLw(c: Half)
    requires CQuad(c) == 0 && CFunct3(c) == 2
    ensures Expand(c).Some? && Decode(Expand(c).value) == Rvc(c) && Rvc(c) != Illegal
  {}

  lemma CSw(c: Half)
    requires CQuad(c) == 0 && CFunct3(c) == 6
    ensures Expand(c).Some? && Decode(Expand(c).value) == Rvc(c) && Rvc(c) != Illegal
  {}

  lemma CAddiP(c: Half)
    requires CQuad(c) == 1 && CFunct3(c) == 0 && Fld(c, 12, 1) == 0
    ensures Expand(c).Some? && Decode(Expand(c).value) == Rvc(c) && Rvc(c) != Illegal
  {}

  lemma CAddiN(c: Half)
    requires CQuad(c) == 1 && CFunct3(c) == 0 && Fld(c, 12, 1) != 0
    ensures Expand(c).Some? && Decode(Expand(c).value) == Rvc(c) && Rvc(c) != Illegal
  {}

  lemma CJalP(c: Half)
    requires CQuad(c) == 1 && CFunct3(c) == 1 && Fld(c, 12, 1) == 0
    ensures Expand(c).Some? && Decode(Expand(c).value) == Rvc(c) && Rvc(c) != Illegal
  {}

  lemma CJalN(c: Half)
    requires CQuad(c) == 1 && CFunct3(c) == 1 && Fld(c, 12, 1) != 0
    ensures Expand(c).Some? && Decode(Expand(c).value) == Rvc(c) && Rvc(c) != Illegal
  {}

  lemma CLiP(c: Half)
    requires CQuad(c) == 1 && CFunct3(c) == 2 && Fld(c, 12, 1) == 0
    ensures Expand(c).Some? && Decode(Expand(c).value) == Rvc(c) && Rvc(c) != Illegal
  {}

  lemma CLiN(c: Half)
    requires CQuad(c) == 1 && CFunct3(c) == 2 && Fld(c, 12, 1) != 0
    ensures Expand(c).Some? && Decode(Expand(c).value) == Rvc(c) && Rvc(c) != Illegal
  {}

  lemma CAddi16spP(c: Half)
    requires CQuad(c) == 1 && CFunct3(c) == 3 && RdRs1(c) == 2 && Addi16spUimm(c) != 0 && Fld(c, 12, 1) == 0
    ensures Expand(c).Some? && Decode(Expand(c).value) == Rvc(c) && Rvc(c) != Illegal
  {}

  lemma CAddi16spN(c: Half)
    requires CQuad(c) == 1 && CFunct3(c) == 3 && RdRs1(c) == 2 && Addi16spUimm(c) != 0 && Fld(c, 12, 1) != 0
    ensures Expand(c).Some? && Decode(Expand(c).value) == Rvc(c) && Rvc(c) != Illegal
  {}

  lemma CLuiP(c: Half)
    requires CQuad(c) == 1 && CFunct3(c) == 3 && RdRs1(c) != 2 && Imm6(c) != 0 && Fld(c, 12, 1) == 0
    ensures Expand(c).Some? && Decode(Expand(c).value) == Rvc(c) && Rvc(c) != Illegal
  {}

  lemma CLuiN(c: Half)
    requires CQuad(c) == 1 && CFunct3(c) == 3 && RdRs1(c) != 2 && Imm6(c) != 0 && Fld(c, 12, 1) != 0
    ensures Expand(c).Some? && Decode(Expand(c).value) == Rvc(c) && Rvc(c) != Illegal
  {}

  lemma CSrli(c: Half)
    requires CQuad(c) == 1 && CFunct3(c) == 4 && Fld(c, 10, 3) == 0 && Fld(c, 12, 1) == 0 && Fld(c, 2, 0x1F) != 0
    ensures Expand(c).Some? && Decode(Expand(c).value) == Rvc(c) && Rvc(c) != Illegal
  {}

  lemma CSrai(c: Half)
    requires CQuad(c) == 1 && CFunct3(c) == 4 && Fld(c, 10, 3) == 1 && Fld(c, 12, 1) == 0 && Fld(c, 2, 0x1F) != 0
    ensures Expand(c).Some? && Decode(Expand(c).value) == Rvc(c) && Rvc(c) != Illegal
  {}

  lemma CAndiP(c: Half)
    requires CQuad(c) == 1 && CFunct3(c) == 4 && Fld(c, 10, 3) == 2 && Fld(c, 12, 1) == 0
    ensures Expand(c).Some? && Decode(Expand(c).value) == Rvc(c) && Rvc(c) != Illegal
  {}

  lemma CAndiN(c: Half)
    requires CQuad(c) == 1 && CFunct3(c) == 4 && Fld(c, 10, 3) == 2 && Fld(c, 12, 1) != 0
    ensures Expand(c).Some? && Decode(Expand(c).value) == Rvc(c) && Rvc(c) != Illegal
  {}

  lemma CSub(c: Half)
    requires CQuad(c) == 1 && CFunct3(c) == 4 && Fld(c, 10, 3) == 3 && Fld(c, 12, 1) == 0 && Fld(c, 5, 3) == 0
    ensures Expand(c).Some? && Decode(Expand(c).value) == Rvc(c) && Rvc(c) != Illegal
  {}

  lemma CXor(c: Half)
    requires CQuad(c) == 1 && CFunct3(c) == 4 && Fld(c, 10, 3) == 3 && Fld(c, 12, 1) == 0 && Fld(c, 5, 3) == 1
    ensures Expand(c).Some? && Decode(Expand(c).value) == Rvc(c) && Rvc(c) != Illegal
  {}

  lemma COr(c: Half)
    requires CQuad(c) == 1 && CFunct3(c) == 4 && Fld(c, 10, 3) == 3 && Fld(c, 12, 1) == 0 && Fld(c, 5, 3) == 2
    ensures Expand(c).Some? && Decode(Expand(c).value) == Rvc(c) && Rvc(c) != Illegal
  {}

  lemma CAnd(c: Half)
    requires CQuad(c) == 1 && CFunct3(c) == 4 && Fld(c, 10, 3) == 3 && Fld(c, 12, 1) == 0 && Fld(c, 5, 3) == 3
    ensures Expand(c).Some? && Decode(Expand(c).value) == Rvc(c) && Rvc(c) != Illegal
  {}

  lemma CJP(c: Half)
    requires CQuad(c) == 1 && CFunct3(c) == 5 && Fld(c, 12, 1) == 0
    ensures Expand(c).Some? && Decode(Expand(c).value) == Rvc(c) && Rvc(c) != Illegal
  {}

  lemma CJN(c: Half)
    requires CQuad(c) == 1 && CFunct3(c) == 5 && Fld(c, 12, 1) != 0
    ensures Expand(c).Some? && Decode(Expand(c).value) == Rvc(c) && Rvc(c) != Illegal
  {}

  lemma CBeqzP(c: Half)
    requires CQuad(c) == 1 && CFunct3(c) == 6 && Fld(c, 12, 1) == 0
    ensures Expand(c).Some? && Decode(Expand(c).value) == Rvc(c) && Rvc(c) != Illegal
  {}

  lemma CBeqzN(c: Half)
    requires CQuad(c) == 1 && CFunct3(c) == 6 && Fld(c, 12, 1) != 0
    ensures Expand(c).Some? && Decode(Expand(c).value) == Rvc(c) && Rvc(c) != Illegal
  {}

  lemma CBnezP(c: Half)
    requires CQuad(c) == 1 && CFunct3(c) == 7 && Fld(c, 12, 1) == 0
    ensures Expand(c).Some? && Decode(Expand(c).value) == Rvc(c) && Rvc(c) != Illegal
  {}

  lemma CBnezN(c: Half)
    requires CQuad(c) == 1 && CFunct3(c) == 7 && Fld(c, 12, 1) != 0
    ensures Expand(c).Some? && Decode(Expand(c).value) == Rvc(c) && Rvc(c) != Illegal
  {}

  lemma CSlli(c: Half)
    requires CQuad(c) == 2 && CFunct3(c) == 0 && Fld(c, 12, 1) == 0 && Fld(c, 2, 0x1F) != 0 && RdRs1(c) != 0
    ensures Expand(c).Some? && Decode(Expand(c).value) == Rvc(c) && Rvc(c) != Illegal
  {}

  lemma LwspFields(c: Half)
    ensures var w := IType(LwspUimm(c), 2, 2, RdRs1(c), 0x03);
      Opcode(w) == 0x03 && Funct3(w) == 2 && Rd(w) == CReg(c, 7) && Rs1(w) == SP && ImmI(w) == CImmLwsp(c)
    ensures CReg(c, 7) == X0 <==> RdRs1(c) == 0
  {}

  lemma CLwsp(c: Half)
    requires CQuad(c) == 2 && CFunct3(c) == 2 && RdRs1(c) != 0
    ensures Expand(c).Some? && Decode(Expand(c).value) == Rvc(c) && Rvc(c) != Illegal
  {
    hide Opcode, Funct3, Rd, Rs1, ImmI, IType, CReg, CImmLwsp, LwspUimm, RdRs1;
    LwspFields(c);
  }

  lemma CJr(c: Half)
    requires CQuad(c) == 2 && CFunct3(c) == 4 && Fld(c, 12, 1) == 0 && Fld(c, 2, 0x1F) == 0 && RdRs1(c) != 0
    ensures Expand(c).Some? && Decode(Expand(c).value) == Rvc(c) && Rvc(c) != Illegal
  {}

  lemma CMv(c: Half)
    requires CQuad(c) == 2 && CFunct3(c) == 4 && Fld(c, 12, 1) == 0 && Fld(c, 2, 0x1F) != 0
    ensures Expand(c).Some? && Decode(Expand(c).value) == Rvc(c) && Rvc(c) != Illegal
  {}

  lemma CEbreak(c: Half)
    requires CQuad(c) == 2 && CFunct3(c) == 4 && Fld(c, 12, 1) != 0 && Fld(c, 2, 0x1F) == 0 && RdRs1(c) == 0
    ensures Expand(c).Some? && Decode(Expand(c).value) == Rvc(c) && Rvc(c) != Illegal
  {}

  lemma CJalr(c: Half)
    requires CQuad(c) == 2 && CFunct3(c) == 4 && Fld(c, 12, 1) != 0 && Fld(c, 2, 0x1F) == 0 && RdRs1(c) != 0
    ensures Expand(c).Some? && Decode(Expand(c).value) == Rvc(c) && Rvc(c) != Illegal
  {}

  lemma CAdd(c: Half)
    requires CQuad(c) == 2 && CFunct3(c) == 4 && Fld(c, 12, 1) != 0 && Fld(c, 2, 0x1F) != 0
    ensures Expand(c).Some? && Decode(Expand(c).value) == Rvc(c) && Rvc(c) != Illegal
  {}

  lemma CSwsp(c: Half)
    requires CQuad(c) == 2 && CFunct3(c) == 6
    ensures Expand(c).Some? && Decode(Expand(c).value) == Rvc(c) && Rvc(c) != Illegal
  {}

  lemma CAddi4spnZero(c: Half)
    requires CQuad(c) == 0 && CFunct3(c) == 0 && Addi4spnUimm(c) == 0
    ensures Expand(c).None? && Rvc(c) == Illegal
  {}

  lemma CQuadrant0Other(c: Half)
    requires CQuad(c) == 0 && CFunct3(c) != 0 && CFunct3(c) != 2 && CFunct3(c) != 6
    ensures Expand(c).None? && Rvc(c) == Illegal
  {}

  lemma CAddi16spZero(c: Half)
    requires CQuad(c) == 1 && CFunct3(c) == 3 && RdRs1(c) == 2 && Addi16spUimm(c) == 0
    ensures Expand(c).None? && Rvc(c) == Illegal
  {}

  lemma CLuiZero(c: Half)
    requires CQuad(c) == 1 && CFunct3(c) == 3 && RdRs1(c) != 2 && Imm6(c) == 0
    ensures Expand(c).None? && Rvc(c) == Illegal
  {}

  lemma CBadShift(c: Half)
    requires CQuad(c) == 1 && CFunct3(c) == 4 && (Fld(c, 10, 3) == 0 || Fld(c, 10, 3) == 1) && (Fld(c, 12, 1) != 0
        || Fld(c, 2, 0x1F) == 0)
    ensures Expand(c).None? && Rvc(c) == Illegal
  {}

  lemma CArithReserved(c: Half)
    requires CQuad(c) == 1 && CFunct3(c) == 4 && Fld(c, 10, 3) == 3 && Fld(c, 12, 1) != 0
    ensures Expand(c).None? && Rvc(c) == Illegal
  {}

  lemma CSlliBad(c: Half)
    requires CQuad(c) == 2 && CFunct3(c) == 0 && (Fld(c, 12, 1) != 0 || Fld(c, 2, 0x1F) == 0 || RdRs1(c) == 0)
    ensures Expand(c).None? && Rvc(c) == Illegal
  {}

  lemma CLwspX0(c: Half)
    requires CQuad(c) == 2 && CFunct3(c) == 2 && RdRs1(c) == 0
    ensures Expand(c).None? && Rvc(c) == Illegal
  {}

  lemma CJrX0(c: Half)
    requires CQuad(c) == 2 && CFunct3(c) == 4 && Fld(c, 12, 1) == 0 && Fld(c, 2, 0x1F) == 0 && RdRs1(c) == 0
    ensures Expand(c).None? && Rvc(c) == Illegal
  {}

  lemma CQuadrant2Other(c: Half)
    requires CQuad(c) == 2 && (CFunct3(c) == 1 || CFunct3(c) == 3 || CFunct3(c) == 5 || CFunct3(c) == 7)
    ensures Expand(c).None? && Rvc(c) == Illegal
  {}

  lemma TwoBits(c: Half, lo: bv5)
    requires lo <= 15
    ensures Fld(c, lo, 3) == 0 || Fld(c, lo, 3) == 1 || Fld(c, lo, 3) == 2 || Fld(c, lo, 3) == 3
  {}

  lemma MeantQuadrant0(c: Half)
    requires CQuad(c) == 0
    ensures Expand(c).Some? ==> Decode(Expand(c).value) == Rvc(c) && Rvc(c) != Illegal
    ensures Expand(c).None? ==> Rvc(c) == Illegal
  {
    hide *;
    if CFunct3(c) == 0 { if Addi4spnUimm(c) == 0 { CAddi4spnZero(c); } else { CAddi4spn(c); } }
    else if CFunct3(c) == 2 { CLw(c); }
    else if CFunct3(c) == 6 { CSw(c); }
    else { CQuadrant0Other(c); }
  }

  lemma MeantArith(c: Half)
    requires CQuad(c) == 1 && CFunct3(c) == 4
    ensures Expand(c).Some? ==> Decode(Expand(c).value) == Rvc(c) && Rvc(c) != Illegal
    ensures Expand(c).None? ==> Rvc(c) == Illegal
  {
    hide *;
    TwoBits(c, 10);
    TwoBits(c, 5);
    if Fld(c, 10, 3) == 2 {
      if Fld(c, 12, 1) == 0 { CAndiP(c); } else { CAndiN(c); }
    } else if Fld(c, 10, 3) == 3 {
      if Fld(c, 12, 1) != 0 { CArithReserved(c); }
      else if Fld(c, 5, 3) == 0 { CSub(c); }
      else if Fld(c, 5, 3) == 1 { CXor(c); }
      else if Fld(c, 5, 3) == 2 { COr(c); }
      else { CAnd(c); }
    } else if Fld(c, 12, 1) != 0 || Fld(c, 2, 0x1F) == 0 { CBadShift(c); }
    else if Fld(c, 10, 3) == 0 { CSrli(c); }
    else { CSrai(c); }
  }

  lemma MeantQuadrant1(c: Half)
    requires CQuad(c) == 1
    ensures Expand(c).Some? ==> Decode(Expand(c).value) == Rvc(c) && Rvc(c) != Illegal
    ensures Expand(c).None? ==> Rvc(c) == Illegal
  {
    hide *;
    var p := Fld(c, 12, 1) == 0;
    if CFunct3(c) == 0 { if p { CAddiP(c); } else { CAddiN(c); } }
    else if CFunct3(c) == 1 { if p { CJalP(c); } else { CJalN(c); } }
    else if CFunct3(c) == 2 { if p { CLiP(c); } else { CLiN(c); } }
    else if CFunct3(c) == 3 {
      if RdRs1(c) == 2 {
        if Addi16spUimm(c) == 0 { CAddi16spZero(c); } else if p { CAddi16spP(c); } else { CAddi16spN(c); }
      } else {
        if Imm6(c) == 0 { CLuiZero(c); } else if p { CLuiP(c); } else { CLuiN(c); }
      }
    }
    else if CFunct3(c) == 4 { MeantArith(c); }
    else if CFunct3(c) == 5 { if p { CJP(c); } else { CJN(c); } }
    else if CFunct3(c) == 6 { if p { CBeqzP(c); } else { CBeqzN(c); } }
    else { if p { CBnezP(c); } else { CBnezN(c); } }
  }

  lemma MeantQuadrant2(c: Half)
    requires CQuad(c) == 2
    ensures Expand(c).Some? ==> Decode(Expand(c).value) == Rvc(c) && Rvc(c) != Illegal
    ensures Expand(c).None? ==> Rvc(c) == Illegal
  {
    hide *;
    var rs2Zero, rdZero := Fld(c, 2, 0x1F) == 0, RdRs1(c) == 0;
    if CFunct3(c) == 0 {
      if Fld(c, 12, 1) != 0 || rs2Zero || rdZero { CSlliBad(c); } else { CSlli(c); }
    } else if CFunct3(c) == 2 {
      if rdZero { CLwspX0(c); } else { CLwsp(c); }
    } else if CFunct3(c) == 4 {
      if Fld(c, 12, 1) == 0 {
        if !rs2Zero { CMv(c); } else if rdZero { CJrX0(c); } else { CJr(c); }
      } else {
        if !rs2Zero { CAdd(c); } else if rdZero { CEbreak(c); } else { CJalr(c); }
      }
    } else if CFunct3(c) == 6 { CSwsp(c); }
    else { CQuadrant2Other(c); }
  }

  /** Every 16-bit word either expands to a 32-bit encoding of what the word means,
      or means nothing and is reported illegal. */
  lemma ExpansionMeans(c: Half)
    requires CQuad(c) != 3
    ensures Expand(c).Some? ==> Decode(Expand(c).value) == Rvc(c)
    ensures Expand(c).None? <==> Rvc(c) == Illegal
  {
    hide *;
    if CQuad(c) == 0 { MeantQuadrant0(c); }
    else if CQuad(c) == 1 { MeantQuadrant1(c); }
    else { MeantQuadrant2(c); }
  }
}
