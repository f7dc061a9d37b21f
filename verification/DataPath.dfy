/** The execute stage's wires against the meaning of the instruction it holds. */
module DataPath {
  import opened Words
  import opened Instr
  import opened Decoder
  import DecodeProof
  import MulDiv
  import F = Fetch
  import Pmp
  import Csr
  import opened Isa
  import opened Pipeline
  import opened Memory

  // ------------------------------------------------------------------------------------------
  // Bits
  // ------------------------------------------------------------------------------------------

  lemma ZeroPlus(b: Word)
    ensures Sum(ZERO, b) == b && Sum(b, ZERO) == b
  {}

  predicate Negative(a: Word) { a.bits & 0x8000_0000 != 0 }

  lemma NegativeIsLess(a: Word, b: Word)
    requires Negative(a) && !Negative(b)
    ensures SignedLess(a, b)
  {}

  lemma PositiveIsNotLess(a: Word, b: Word)
    requires !Negative(a) && Negative(b)
    ensures !SignedLess(a, b)
  {}

  lemma SignedToUnsigned(a: Word, b: Word)
    requires a.bits & 0x8000_0000 == b.bits & 0x8000_0000 && SignedLess(a, b)
    ensures UnsignedLess(a, b)
  {}

  lemma UnsignedToSigned(a: Word, b: Word)
    requires a.bits & 0x8000_0000 == b.bits & 0x8000_0000 && UnsignedLess(a, b)
    ensures SignedLess(a, b)
  {}

  lemma SignBit(a: Word)
    ensures a.bits & 0x8000_0000 == if Negative(a) then 0x8000_0000 else 0
  {
    if Negative(a) {} else {}
  }

  /** The signed order: a negative number is below a non-negative one, others compare as unsigned. */
  lemma SignedOrder(a: Word, b: Word)
    ensures SignedLess(a, b) <==> if Negative(a) != Negative(b) then Negative(a) else UnsignedLess(a, b)
  {
    hide Negative, SignedLess, UnsignedLess;
    SignBit(a);
    SignBit(b);
    if Negative(a) && !Negative(b) { NegativeIsLess(a, b); }
    else if !Negative(a) && Negative(b) { PositiveIsNotLess(a, b); }
    else if SignedLess(a, b) { SignedToUnsigned(a, b); }
    else if UnsignedLess(a, b) { UnsignedToSigned(a, b); }
  }

  lemma ShamtIsLowImm(w: Word)
    ensures Amount(DecImmI(w)) == Amount(Shamt(w))
  {}

  lemma Bit5(f: bv7)
    ensures f == 0 ==> f & 0x20 == 0
    ensures f == 0x20 ==> f & 0x20 != 0
  {}

  // ------------------------------------------------------------------------------------------
  // Which decoder flags an instruction raises
  // ------------------------------------------------------------------------------------------

  /** The opcode group of an instruction, and the group decoder that produced it. */
  predicate Grouped(w: Word, i: Instr) {
    match i
    case Lui(rd, imm) => Opcode(w) == 0x37 && rd == Rd(w) && imm == ImmU(w)
    case Auipc(rd, imm) => Opcode(w) == 0x17 && rd == Rd(w) && imm == ImmU(w)
    case Jal(rd, off) => Opcode(w) == 0x6F && rd == Rd(w) && off == ImmJ(w)
    case Jalr(rd, rs1, imm) => Opcode(w) == 0x67 && Funct3(w) == 0 && rd == Rd(w) && rs1 == Rs1(w) && imm == ImmI(w)
    case Branch(_, _, _, _) => Opcode(w) == 0x63 && i == DecodeBranch(w)
    case Load(_, _, _, _, _) => Opcode(w) == 0x03 && i == DecodeLoad(w)
    case Store(_, _, _, _) => Opcode(w) == 0x23 && i == DecodeStore(w)
    case OpImm(_, _, _, _) => Opcode(w) == 0x13 && i == DecodeOpImm(w)
    case Op(_, _, _, _) => Opcode(w) == 0x33 && i == DecodeOp(w)
    case MulDiv(_, _, _, _) => Opcode(w) == 0x33 && i == DecodeOp(w)
    case Fence => Opcode(w) == 0x0F && Funct3(w) == 0
    case Lr(_, _) => Opcode(w) == 0x2F && i == DecodeAmo(w)
    case Sc(_, _, _) => Opcode(w) == 0x2F && i == DecodeAmo(w)
    case Amo(_, _, _, _) => Opcode(w) == 0x2F && i == DecodeAmo(w)
    case Illegal => false
    case _ => Opcode(w) == 0x73 && i == DecodeSystem(w)
  }

  lemma DecodeGroups(w: Word, i: Instr)
    requires Decode(w) == i && i != Illegal
    ensures Grouped(w, i)
  {
    hide Opcode, Funct3, Funct7, Funct5, Funct12, Rd, Rs1, Rs2, ImmI, ImmS, ImmB, ImmU, ImmJ, Shamt;
  }

  // ------------------------------------------------------------------------------------------
  // Results
  // ------------------------------------------------------------------------------------------

  /** EX holds instruction i, decoded from its word. */
  predicate Holding(x: Ex, i: Instr) { Decode(x.instr) == i && i != Illegal }

  /** The value an instruction computes without memory or CSRs. */
  function Value(x: Ex, i: Instr): (r: Word) {
    match i
    case Lui(_, imm) => imm
    case Auipc(_, imm) => Sum(x.item.pc, imm)
    case OpImm(op, _, _, imm) => Compute(op, x.rs1v, imm)
    case Op(op, _, _, _) => Compute(op, x.rs1v, x.rs2v)
    case MulDiv(op, _, _, _) => Multiply(op, x.rs1v, x.rs2v)
    case Jal(_, _) => F.After(x.item)
    case Jalr(_, _, _) => F.After(x.item)
    case _ => ZERO
  }

  lemma SeqPcIsAfter(x: Ex)
    ensures SeqPc(x) == F.After(x.item)
  {
    if x.item.isC {} else {}
  }

  lemma ShiftImmediate(x: Ex)
    requires Opcode(x.instr) == 0x13 && (Funct3(x.instr) == 1 || Funct3(x.instr) == 5)
    requires DecodeOpImm(x.instr) != Illegal
    ensures ExResult(x) == Value(x, DecodeOpImm(x.instr))
  {
    hide Opcode, Funct3, Funct7, Rd, Rs1, Rs2, DecImmI, ImmI, Shamt, Amount, ShiftLeft, ShiftRight,
      ShiftRightArithmetic;
    ShamtIsLowImm(x.instr);
    Bit5(Funct7(x.instr));
  }

  /** For the other immediate operations the ALU sees bit 5 clear. */
  lemma ImmediateAlu(x: Ex)
    requires Opcode(x.instr) == 0x13 && Funct3(x.instr) != 5
    ensures ExResult(x) == Alu(x.rs1v, DecImmI(x.instr), false, Funct3(x.instr))
  {
    hide Opcode, Funct3, Funct7, DecImmI, Alu;
  }

  lemma PlainImmediate(x: Ex)
    requires Opcode(x.instr) == 0x13 && Funct3(x.instr) != 1 && Funct3(x.instr) != 5
    ensures ExResult(x) == Value(x, DecodeOpImm(x.instr))
  {
    hide Opcode, Funct3, Funct7, Rd, Rs1, Rs2, DecImmI, ImmI, Shamt, Sum, Difference, Flag, SignedLess, UnsignedLess,
      ExResult, BitXor, BitOr, BitAnd, Amount, ShiftLeft, ShiftRight, ShiftRightArithmetic, DecImmS, DecImmB, DecImmJ,
      ImmS, ImmB, ImmJ;
    ImmediateAlu(x);
    DecodeProof.ImmediatesAgree(x.instr);
    Funct3Cases(Funct3(x.instr));
  }

  lemma RegisterOperation(x: Ex)
    requires Opcode(x.instr) == 0x33 && Funct7(x.instr) != 1 && DecodeOp(x.instr) != Illegal
    ensures ExResult(x) == Value(x, DecodeOp(x.instr))
  {
    hide Opcode, Funct3, Funct7, Rd, Rs1, Rs2, Sum, Difference, Flag, SignedLess, UnsignedLess, BitXor, BitOr, BitAnd,
      Amount, ShiftLeft, ShiftRight, ShiftRightArithmetic, MulOpOf;
    Bit5(Funct7(x.instr));
  }

  lemma MulDivOperation(x: Ex)
    requires Opcode(x.instr) == 0x33 && Funct7(x.instr) == 1
    ensures ExResult(x) == Value(x, DecodeOp(x.instr))
  {
    hide Opcode, Funct3, Funct7, Rd, Rs1, Rs2, Unsigned, MulDiv.Exact, MulDiv.Result, MulOpOf;
    MulDiv.ResultIsExact(MulOpOf(Funct3(x.instr)), Unsigned(x.rs1v), Unsigned(x.rs2v));
  }

  lemma UpperImmediate(x: Ex)
    requires Opcode(x.instr) == 0x37 || Opcode(x.instr) == 0x17
    ensures ExResult(x) == if Opcode(x.instr) == 0x37 then ImmU(x.instr) else Sum(x.item.pc, ImmU(x.instr))
  {
    hide Opcode, Funct3, Funct7, DecImmU, ImmU, Sum;
    DecodeProof.ImmUAgrees(x.instr);
    ZeroPlus(DecImmU(x.instr));
  }

  lemma Link(x: Ex)
    requires Opcode(x.instr) == 0x6F || Opcode(x.instr) == 0x67
    ensures ExResult(x) == F.After(x.item)
  {
    hide Opcode, Funct3, Funct7, Sum, LinkStep;
    SeqPcIsAfter(x);
  }

  /** EX computes the value of every instruction that has one. */
  lemma ResultAgrees(x: Ex, i: Instr)
    requires Holding(x, i)
    requires i.Lui? || i.Auipc? || i.OpImm? || i.Op? || i.MulDiv? || i.Jal? || i.Jalr?
    ensures ExResult(x) == Value(x, i)
  {
    hide Opcode, Funct3, Funct7, Rd, Rs1, Rs2, ImmI, ImmU, ImmJ, Decode, DecodeOpImm, DecodeOp, ExResult, Sum,
      Compute, Multiply;
    DecodeGroups(x.instr, i);
    match i {
      case OpImm(_, _, _, _) =>
        if Funct3(x.instr) == 1 || Funct3(x.instr) == 5 { ShiftImmediate(x); } else { PlainImmediate(x); }
      case Op(_, _, _, _) => OpIsNotMulDiv(x.instr); RegisterOperation(x);
      case MulDiv(_, _, _, _) => OpIsNotMulDiv(x.instr); MulDivOperation(x);
      case Jal(_, _) => Link(x);
      case Jalr(_, _, _) => Link(x);
      case _ => UpperImmediate(x);
    }
  }

  lemma OpIsNotMulDiv(w: Word)
    requires DecodeOp(w) != Illegal
    ensures DecodeOp(w).MulDiv? <==> Funct7(w) == 1
  {
    hide Funct3, Funct7, Rd, Rs1, Rs2;
  }

  // ------------------------------------------------------------------------------------------
  // Control transfer
  // ------------------------------------------------------------------------------------------

  lemma TakenAgrees(x: Ex, i: Instr)
    requires Holding(x, i) && i.Branch?
    ensures Taken(x) <==> Holds(i.cond, x.rs1v, x.rs2v)
  {
    hide Opcode, Funct3, Rs1, Rs2, ImmB, Decode, SignedLess, UnsignedLess;
    DecodeGroups(x.instr, i);
  }

  /** Where the instruction goes if it transfers control. */
  function Target(x: Ex, i: Instr): (r: Word) {
    match i
    case Jal(_, off) => Sum(x.item.pc, off)
    case Jalr(_, _, imm) => EvenBelow(Sum(x.rs1v, imm))
    case Branch(c, _, _, off) => if Holds(c, x.rs1v, x.rs2v) then Sum(x.item.pc, off) else F.After(x.item)
    case _ => F.After(x.item)
  }

  lemma TargetAgrees(x: Ex, i: Instr)
    requires Holding(x, i)
    ensures NextTarget(x) == Target(x, i)
    ensures IsJal(x.instr) || IsJalr(x.instr) || Taken(x) <==>
      i.Jal? || i.Jalr? || (i.Branch? && Holds(i.cond, x.rs1v, x.rs2v))
  {
    hide Opcode, Funct3, Funct7, Funct5, Funct12, Rd, Rs1, Rs2, DecImmI, DecImmS, DecImmB, DecImmJ, ImmI, ImmS, ImmB,
      ImmJ, ImmU, Decode, DecodeOp, DecodeOpImm, DecodeLoad, DecodeStore, DecodeAmo, DecodeSystem, Sum, Holds, SeqPc;
    SeqPcIsAfter(x);
    DecodeProof.ImmediatesAgree(x.instr);
    DecodeGroups(x.instr, i);
    if i.Branch? {
      TakenAgrees(x, i);
      BranchImmediate(x.instr);
    } else {
      NotABranch(x.instr, i);
    }
  }

  lemma BranchImmediate(w: Word)
    requires DecodeBranch(w).Branch?
    ensures DecodeBranch(w).off == ImmB(w) && DecodeBranch(w).rs1 == Rs1(w) && DecodeBranch(w).rs2 == Rs2(w)
  {
    hide Funct3, ImmB, Rs1, Rs2;
  }

  lemma NotABranch(w: Word, i: Instr)
    requires Grouped(w, i) && !i.Branch?
    ensures !IsBranch(w)
  {
    hide Opcode, Funct3, Funct7, Funct5, Funct12, Rd, Rs1, Rs2, ImmI, ImmS, ImmB, ImmJ, ImmU, DecodeOp, DecodeOpImm,
      DecodeLoad, DecodeStore, DecodeAmo, DecodeSystem;
  }

  // ------------------------------------------------------------------------------------------
  // System instructions and data accesses
  // ------------------------------------------------------------------------------------------

  lemma SystemFlags(x: Ex, i: Instr)
    requires Holding(x, i)
    ensures IsEcall(x.instr) <==> i.Ecall?
    ensures IsEbreak(x.instr) <==> i.Ebreak?
    ensures IsMret(x.instr) <==> i.Mret?
    ensures IsWfi(x.instr) <==> i.Wfi?
    ensures IsCsrOp(x.instr) <==> i.Zicsr?
  {
    hide Opcode, Funct3, Funct7, Funct5, Funct12, Rd, Rs1, Rs2, ImmI, ImmS, ImmB, ImmJ, ImmU, Decode, DecodeOp,
      DecodeOpImm, DecodeLoad, DecodeStore, DecodeAmo, DecodeBranch;
    DecodeGroups(x.instr, i);
  }

  lemma CsrFields(x: Ex, i: Instr)
    requires Holding(x, i) && i.Zicsr?
    ensures i.rd == Rd(x.instr) && i.csr == CsrAddr(x.instr) && i.csrOp == CsrOpOf(x.instr)
    ensures i.src == if Funct3(x.instr) & 4 != 0 then FromImm(Rs1(x.instr).n) else FromReg(Rs1(x.instr))
  {
    hide Opcode, Funct12, Rd, Rs1, Decode;
    DecodeGroups(x.instr, i);
    Funct3Cases(Funct3(x.instr));
  }

  lemma Funct3Cases(f: bv3)
    ensures f == 0 || f == 1 || f == 2 || f == 3 || f == 4 || f == 5 || f == 6 || f == 7
  {}

  lemma DeniedAgrees(x: Ex, i: Instr, k: Csr.State)
    requires Holding(x, i) && x.priv == k.priv
    ensures PrivIllegal(x, k) <==> Denied(k, i)
  {
    hide Opcode, Funct3, Funct12, Rd, Rs1, Decode, CounterDenied, Csr.Tw, CsrOpOf;
    SystemFlags(x, i);
    if i.Zicsr? { CsrFields(x, i); RegIsZero(Rs1(x.instr)); }
  }

  lemma RegIsZero(r: Reg)
    ensures r != X0 <==> r.n != 0
  {}

  /** The source field of a CSR instruction: a register number or an immediate. */
  function SourceField(src: CsrSrc): (u: bv5) {
    match src
    case FromReg(r) => r.n
    case FromImm(u) => u
  }

  predicate IsReadOnly(a: Csr.Addr) { a.bits >> 10 == 3 }

  /** What the specification asks: no access to a register above the privilege, and no attempt to write
      a read-only one. CSRRW and CSRRWI always write, the others unless their field is zero. */
  predicate MustReport(k: Csr.State, op: Csr.CsrOp, a: Csr.Addr, src: CsrSrc) {
    CsrDenied(k, a, 0) || (IsReadOnly(a) && (op == Csr.Write || SourceField(src) != 0))
  }

  /** EX reports the CSR instructions it must, except exactly CSRRW and CSRRWI of a readable read-only
      register with a zero source field. */
  lemma ReadOnlyReported(x: Ex, k: Csr.State, op: Csr.CsrOp, rd: Reg, a: Csr.Addr, src: CsrSrc)
    requires Holding(x, Zicsr(op, rd, a, src)) && x.priv == k.priv
    ensures (PrivIllegal(x, k) <==> MustReport(k, op, a, src))
       <==> !(!CsrDenied(k, a, 0) && IsReadOnly(a) && op == Csr.Write && SourceField(src) == 0)
    ensures !CsrDenied(k, a, 0) && IsReadOnly(a) ==> (PrivIllegal(x, k) <==> SourceField(src) != 0)
  {
    hide CounterDenied, PrivIllegal, Decode;
    DeniedAgrees(x, Zicsr(op, rd, a, src), k);
  }

  lemma MemoryFlags(x: Ex, i: Instr)
    requires Holding(x, i)
    ensures IsLoad(x.instr) <==> i.Load?
    ensures IsStore(x.instr) <==> i.Store?
    ensures IsLr(x.instr) <==> i.Lr?
    ensures IsSc(x.instr) <==> i.Sc?
    ensures IsAmo(x.instr) <==> i.Amo?
    ensures IsAtomic(x.instr) <==> i.Lr? || i.Sc? || i.Amo?
  {
    hide Opcode, Funct3, Funct7, Funct5, Funct12, Rd, Rs1, Rs2, ImmI, ImmS, ImmB, ImmJ, ImmU, Decode, DecodeOp,
      DecodeOpImm, DecodeLoad, DecodeStore, DecodeSystem, DecodeBranch;
    DecodeGroups(x.instr, i);
  }

  /** The address of a load, store or atomic. */
  function Address(x: Ex, i: Instr): (r: Word) {
    match i
    case Load(_, _, _, _, imm) => Sum(x.rs1v, imm)
    case Store(_, _, _, imm) => Sum(x.rs1v, imm)
    case _ => x.rs1v
  }

  predicate IsAccess(i: Instr) { i.Load? || i.Store? || i.Lr? || i.Sc? || i.Amo? }

  lemma AddressAgrees(x: Ex, i: Instr)
    requires Holding(x, i) && IsAccess(i)
    ensures AluResult(x) == Address(x, i) && ExResult(x) == Address(x, i)
  {
    hide Opcode, Funct3, Funct7, Funct5, Rd, Rs1, Rs2, DecImmI, DecImmS, DecImmB, DecImmJ, ImmI, ImmS, ImmB, ImmJ,
      Decode, Sum;
    DecodeGroups(x.instr, i);
    DecodeProof.ImmediatesAgree(x.instr);
    ZeroPlus(x.rs1v);
  }

  function AccessWidth(i: Instr): (r: Width) {
    match i
    case Load(w, _, _, _, _) => w
    case Store(w, _, _, _) => w
    case _ => W
  }

  lemma MisalignedAgrees(x: Ex, i: Instr, a: Word)
    requires Holding(x, i) && IsAccess(i)
    ensures Pipeline.Misaligned(a, Funct3(x.instr)) <==> !Isa.Aligned(AccessWidth(i), a)
  {
    hide Opcode, Funct5, Rd, Rs1, Rs2, ImmI, ImmS, Decode;
    DecodeGroups(x.instr, i);
    Funct3Cases(Funct3(x.instr));
  }

  // ------------------------------------------------------------------------------------------
  // Data
  // ------------------------------------------------------------------------------------------

  lemma LoadAgrees(x: Ex, i: Instr, a: Word, d: Word)
    requires Holding(x, i) && i.Load? && Isa.Aligned(i.width, a)
    ensures LoadResult(Funct3(x.instr), a, d) == Extract(i.width, i.unsigned, a, d)
    ensures i.rd == Rd(x.instr)
  {
    hide Opcode, Rd, Rs1, ImmI, Decode, LoadResult, Extract, Isa.Aligned;
    DecodeGroups(x.instr, i);
    LoadLanes(a, d);
    WordLoadsIgnoreSign(a, d);
  }

  lemma WordLoadsIgnoreSign(a: Word, d: Word)
    ensures Extract(W, true, a, d) == d && Extract(W, false, a, d) == d && LoadResult(2, a, d) == d
  {}

  lemma LrAgrees(x: Ex, i: Instr, a: Word, d: Word)
    requires Holding(x, i) && i.Lr?
    ensures LoadResult(Funct3(x.instr), a, d) == d && i.rd == Rd(x.instr)
  {
    hide Opcode, Funct5, Rd, Rs1, Rs2, Decode, LoadResult;
    DecodeGroups(x.instr, i);
    WordLoadsIgnoreSign(a, d);
  }

  lemma StoreAgrees(x: Ex, i: Instr, a: Word, old_: Word, v: Word)
    requires Holding(x, i) && i.Store? && Isa.Aligned(i.width, a)
    ensures Strobed(old_, StoreData(Funct3(x.instr), a, v), StoreStrobe(Funct3(x.instr), a))
         == Insert(i.width, a, old_, v)
  {
    hide Opcode, Rs1, Rs2, ImmS, Decode, StoreData, StoreStrobe, Strobed, Insert, Isa.Aligned;
    DecodeGroups(x.instr, i);
    StoreByteLanes(a, old_, v);
    if Isa.Aligned(H, a) { StoreHalfLanes(a, old_, v); }
    StoreWordLanes(a, old_, v);
  }

  lemma AmoAgrees(x: Ex, i: Instr, old_: Word, v: Word)
    requires Holding(x, i) && i.Amo?
    ensures AmoNew(x.instr, old_, v) == AmoResult(i.aop, old_, v)
  {
    hide Opcode, Funct3, Rd, Rs1, Rs2, Decode, Sum, BitXor, BitOr, BitAnd, SignedLess, UnsignedLess;
    DecodeGroups(x.instr, i);
  }

  /** A strobe of all ones replaces the word. */
  lemma FullStrobe(old_: Word, v: Word)
    ensures Strobed(old_, v, 0xF) == v
  {}

  /** The source registers an instruction reads are the ones ID reads. */
  function Source1(i: Instr): (r: Option<Reg>) {
    match i
    case Jalr(_, r, _) => Some(r)
    case Branch(_, r, _, _) => Some(r)
    case Load(_, _, _, r, _) => Some(r)
    case Store(_, r, _, _) => Some(r)
    case OpImm(_, _, r, _) => Some(r)
    case Op(_, _, r, _) => Some(r)
    case MulDiv(_, _, r, _) => Some(r)
    case Zicsr(_, _, _, FromReg(r)) => Some(r)
    case Lr(_, r) => Some(r)
    case Sc(_, r, _) => Some(r)
    case Amo(_, _, r, _) => Some(r)
    case _ => None
  }

  function Source2(i: Instr): (r: Option<Reg>) {
    match i
    case Branch(_, _, r, _) => Some(r)
    case Store(_, _, r, _) => Some(r)
    case Op(_, _, _, r) => Some(r)
    case MulDiv(_, _, _, r) => Some(r)
    case Sc(_, _, r) => Some(r)
    case Amo(_, _, _, r) => Some(r)
    case _ => None
  }

  lemma SourcesAgree(x: Ex, i: Instr)
    requires Holding(x, i)
    ensures Source1(i).Some? ==> Source1(i).value == Rs1(x.instr)
    ensures Source2(i).Some? ==> Source2(i).value == Rs2(x.instr)
  {
    hide Opcode, Funct3, Funct7, Funct5, Funct12, Rd, Rs1, Rs2, ImmI, ImmS, ImmB, ImmJ, ImmU, Shamt, Decode, AluOpOf,
      MulOpOf;
    DecodeGroups(x.instr, i);
  }

  /** The destination register of an instruction that has one. */
  function Destination(i: Instr): (r: Option<Reg>) {
    match i
    case Lui(r, _) => Some(r)
    case Auipc(r, _) => Some(r)
    case Jal(r, _) => Some(r)
    case Jalr(r, _, _) => Some(r)
    case Load(_, _, r, _, _) => Some(r)
    case OpImm(_, r, _, _) => Some(r)
    case Op(_, r, _, _) => Some(r)
    case MulDiv(_, r, _, _) => Some(r)
    case Zicsr(_, r, _, _) => Some(r)
    case Lr(r, _) => Some(r)
    case Sc(r, _, _) => Some(r)
    case Amo(_, r, _, _) => Some(r)
    case _ => None
  }

  lemma DestinationAgrees(x: Ex, i: Instr)
    requires Holding(x, i)
    ensures HasResult(x.instr) <==> Destination(i).Some?
    ensures Destination(i).Some? ==> Destination(i).value == Rd(x.instr)
  {
    hide Opcode, Funct3, Funct7, Funct5, Funct12, Rd, Rs1, Rs2, ImmI, ImmS, ImmB, ImmJ, ImmU, Shamt, Decode, AluOpOf,
      MulOpOf;
    DecodeGroups(x.instr, i);
  }
}
