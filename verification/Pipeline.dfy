/** The pipeline behind the fetch stage: ID operand bypass, EX/MEM with its data-bus states, and
    WB. Wires are functions of the registers; one clock is the function Next. */
module Pipeline {
  import opened Words
  import opened Instr
  import opened Decoder
  import F = Fetch
  import Pmp
  import Csr
  import MulDiv
  import opened Isa

  // ------------------------------------------------------------------------------------------
  // Registers
  // ------------------------------------------------------------------------------------------

  datatype ExState = Exec | MemReq | MemWait | AmoStoreReq | AmoStoreWait

  /** EX/MEM registers. Decoded fields are functions of `instr` and are not stored again. */
  datatype Ex = Ex(valid: bool, st: ExState, item: F.Item, instr: Word, badC: bool,
                   rs1v: Word, rs2v: Word, priv: Pmp.Priv,
                   result: Word, addr: Word, rdata: Word, err: bool, misaligned: bool)

  /** WB registers. */
  datatype Wb = Wb(valid: bool, item: F.Item, instr: Word, legal: bool,
                   result: Word, addr: Word, rdata: Word, err: bool, misaligned: bool, badTarget: bool,
                   trigger: bool, src: Word, next: Word, irq: Option<Word>, priv: Pmp.Priv,
                   amoOld: Word, scResult: Word)

  datatype Core = Core(fe: F.Fe, ex: Ex, wb: Wb, regs: Regs, csr: Csr.State, counters: Csr.Counters,
                       resvValid: bool, resvAddr: Word, amoOld: Word)

  /** Inputs of one clock: instruction bus grant and answer, data bus grant and answer, interrupts. */
  datatype In = In(iReady: bool, iRsp: Option<F.FWord>, dReady: bool, dRsp: Option<DResp>, ext: Csr.Ext)

  // ------------------------------------------------------------------------------------------
  // EX wires
  // ------------------------------------------------------------------------------------------

  predicate IsLr(w: Word) { IsAtomic(w) && Funct5(w) == 2 }

  predicate IsSc(w: Word) { IsAtomic(w) && Funct5(w) == 3 }

  predicate IsAmo(w: Word) { IsAtomic(w) && !IsLr(w) && !IsSc(w) }

  predicate IsMulDiv(w: Word) { IsAluReg(w) && Funct7(w) == 1 }

  predicate IsEcall(w: Word) { IsSystem(w) && Funct3(w) == 0 && Funct12(w) == 0 }

  predicate IsEbreak(w: Word) { IsSystem(w) && Funct3(w) == 0 && Funct12(w) == 1 }

  predicate IsMret(w: Word) { IsSystem(w) && Funct3(w) == 0 && Funct12(w) == 0x302 }

  predicate IsWfi(w: Word) { IsSystem(w) && Funct3(w) == 0 && Funct12(w) == 0x105 }

  predicate IsCsrOp(w: Word) { IsSystem(w) && Funct3(w) != 0 }

  /** The ALU, selected by {funct7[5], funct3}. */
  function Alu(a: Word, b: Word, bit5: bool, f3: bv3): (r: Word) {
    match f3
    case 0 => if bit5 then Difference(a, b) else Sum(a, b)
    case 1 => if bit5 then ZERO else ShiftLeft(a, Amount(b))
    case 2 => if bit5 then ZERO else Flag(SignedLess(a, b))
    case 3 => if bit5 then ZERO else Flag(UnsignedLess(a, b))
    case 4 => if bit5 then ZERO else BitXor(a, b)
    case 5 => if bit5 then ShiftRightArithmetic(a, Amount(b)) else ShiftRight(a, Amount(b))
    case 6 => if bit5 then ZERO else BitOr(a, b)
    case _ => if bit5 then ZERO else BitAnd(a, b)
  }

  predicate Funct7Bit5(w: Word) { Funct7(w) & 0x20 != 0 }

  function LinkStep(x: Ex): (r: Word) { if x.item.isC then Word(2) else Word(4) }

  function AluResult(x: Ex): (r: Word) {
    var w := x.instr;
    if IsAluReg(w) then Alu(x.rs1v, x.rs2v, Funct7Bit5(w), Funct3(w))
    else if IsAluImm(w) then Alu(x.rs1v, DecImmI(w), Funct3(w) == 5 && Funct7Bit5(w), Funct3(w))
    else if IsLoad(w) || IsStore(w) then Alu(x.rs1v, if IsStore(w) then DecImmS(w) else DecImmI(w), false, 0)
    else if IsAtomic(w) then Alu(x.rs1v, ZERO, false, 0)
    else if IsBranch(w) then Alu(x.rs1v, x.rs2v, true, 0)
    else if IsLui(w) then Alu(ZERO, DecImmU(w), false, 0)
    else if IsAuipc(w) then Alu(x.item.pc, DecImmU(w), false, 0)
    else if IsJal(w) || IsJalr(w) then Alu(x.item.pc, LinkStep(x), false, 0)
    else Alu(x.rs1v, x.rs2v, false, 0)
  }

  function MulResult(x: Ex): (r: Word) {
    Word(MulDiv.Result(MulOpOf(Funct3(x.instr)), Unsigned(x.rs1v), Unsigned(x.rs2v)) as bv32)
  }

  /** What EX forwards and latches as its result. */
  function ExResult(x: Ex): (r: Word) { if IsMulDiv(x.instr) then MulResult(x) else AluResult(x) }

  predicate Taken(x: Ex) {
    IsBranch(x.instr) &&
    match Funct3(x.instr)
    case 0 => x.rs1v == x.rs2v
    case 1 => x.rs1v != x.rs2v
    case 4 => SignedLess(x.rs1v, x.rs2v)
    case 5 => !SignedLess(x.rs1v, x.rs2v)
    case 6 => UnsignedLess(x.rs1v, x.rs2v)
    case 7 => !UnsignedLess(x.rs1v, x.rs2v)
    case _ => false
  }

  function SeqPc(x: Ex): (r: Word) { Sum(x.item.pc, LinkStep(x)) }

  function JalrTarget(x: Ex): (r: Word) { EvenBelow(Sum(x.rs1v, DecImmI(x.instr))) }

  function NextTarget(x: Ex): (r: Word) {
    if IsJal(x.instr) then Sum(x.item.pc, DecImmJ(x.instr))
    else if IsJalr(x.instr) then JalrTarget(x)
    else if Taken(x) then Sum(x.item.pc, DecImmB(x.instr))
    else SeqPc(x)
  }

  predicate DecLegal(x: Ex) { IsLegal(x.instr) && !x.badC }

  predicate PrivIllegal(x: Ex, k: Csr.State) {
    || (IsMret(x.instr) && x.priv != Pmp.MACHINE)
    || (IsWfi(x.instr) && x.priv != Pmp.MACHINE && Csr.Tw(k.mstatus))
    || (IsCsrOp(x.instr) && CsrIllegal(x, k))
  }

  predicate CsrIllegal(x: Ex, k: Csr.State) {
    var n := Funct12(x.instr);
    var level := (n >> 8) & 3;
    || (level == 3 && x.priv != Pmp.MACHINE) || level == 1 || level == 2
    || (n >> 10 == 3 && Rs1(x.instr) != X0)
    || (x.priv == Pmp.USER && CounterDenied(k.mcounteren, n))
  }

  predicate LegalEff(x: Ex, k: Csr.State) { DecLegal(x) && !PrivIllegal(x, k) }

  predicate BadTarget(x: Ex, k: Csr.State) {
    LegalEff(x, k) && (IsJal(x.instr) || IsJalr(x.instr) || Taken(x)) && IsOdd(NextTarget(x))
  }

  predicate Misaligned(a: Word, f3: bv3) {
    match f3 & 3
    case 1 => a.bits & 1 != 0
    case 2 => a.bits & 3 != 0
    case _ => false
  }

  predicate ScSucceeds(x: Ex, resvValid: bool, resvAddr: Word) {
    IsSc(x.instr) && resvValid && resvAddr == x.rs1v
  }

  predicate AccessRaw(c: Core) {
    var w := c.ex.instr;
    IsLoad(w) || IsStore(w) || IsLr(w) || ScSucceeds(c.ex, c.resvValid, c.resvAddr) || IsAmo(w)
  }

  predicate DAllow(x: Ex, k: Csr.State)
    requires k.Valid()
  {
    var w := x.instr;
    Pmp.Allow(k.pmp, AluResult(x), DataPriv(k),
              Pmp.Access(IsLoad(w) || IsLr(w) || IsAmo(w), IsStore(w) || IsSc(w) || IsAmo(w), false))
  }

  predicate TriggerHit(e: Env, x: Ex) {
    var w := x.instr;
    var isStore := IsStore(w) || IsSc(w) || IsAmo(w);
    x.valid && x.st == Exec && DecLegal(x) &&
    (Fires(e.trig0, x.priv, x.item.pc, IsLoad(w), isStore, AluResult(x)) ||
     Fires(e.trig1, x.priv, x.item.pc, IsLoad(w), isStore, AluResult(x)))
  }

  predicate PmpFault(c: Core)
    requires c.csr.Valid()
  {
    AccessRaw(c) && !Misaligned(AluResult(c.ex), Funct3(c.ex.instr)) && !DAllow(c.ex, c.csr)
  }

  predicate MemAccess(e: Env, c: Core)
    requires c.csr.Valid()
  {
    AccessRaw(c) && !TriggerHit(e, c.ex) && !Misaligned(AluResult(c.ex), Funct3(c.ex.instr)) && DAllow(c.ex, c.csr)
  }

  // ------------------------------------------------------------------------------------------
  // Data bus
  // ------------------------------------------------------------------------------------------

  datatype DReq = DReq(addr: Word, we: bool, wdata: Word, strb: Strobe)

  predicate Requesting(e: Env, c: Core)
    requires c.csr.Valid()
  {
    c.ex.valid && ((c.ex.st == Exec && MemAccess(e, c)) || c.ex.st == MemReq || c.ex.st == AmoStoreReq)
  }

  function ReqAddr(e: Env, c: Core): (r: Word)
    requires c.csr.Valid()
  {
    if c.ex.st == Exec && MemAccess(e, c) then AluResult(c.ex) else c.ex.result
  }

  function StoreData(f3: bv3, a: Word, v: Word): (r: Word) {
    match f3 & 3
    case 0 =>
      (match a.bits & 3
       case 0 => Word(v.bits & 0xFF)
       case 1 => Word((v.bits & 0xFF) << 8)
       case 2 => Word((v.bits & 0xFF) << 16)
       case _ => Word((v.bits & 0xFF) << 24))
    case 1 => if a.bits & 2 == 0 then Word(v.bits & 0xFFFF) else Word((v.bits & 0xFFFF) << 16)
    case 2 => v
    case _ => ZERO
  }

  function StoreStrobe(f3: bv3, a: Word): (r: bv4) {
    match f3 & 3
    case 0 => (match a.bits & 3 case 0 => 1 case 1 => 2 case 2 => 4 case _ => 8)
    case 1 => if a.bits & 2 == 0 then 3 else 0xC
    case 2 => 0xF
    case _ => 0
  }

  function AmoNew(w: Word, old_: Word, v: Word): (r: Word) {
    match Funct5(w)
    case 0x01 => v
    case 0x00 => Sum(old_, v)
    case 0x04 => BitXor(old_, v)
    case 0x0C => BitAnd(old_, v)
    case 0x08 => BitOr(old_, v)
    case 0x10 => if SignedLess(old_, v) then old_ else v
    case 0x14 => if SignedLess(v, old_) then old_ else v
    case 0x18 => if UnsignedLess(old_, v) then old_ else v
    case 0x1C => if UnsignedLess(v, old_) then old_ else v
    case _ => old_
  }

  /** The request EX drives. */
  function Request(e: Env, c: Core): (r: DReq)
    requires c.csr.Valid()
  {
    var w := c.ex.instr;
    var a := ReqAddr(e, c);
    if IsAtomic(w) then
      if c.ex.st == AmoStoreReq || c.ex.st == AmoStoreWait then
        DReq(a, true, AmoNew(w, c.amoOld, c.ex.rs2v), Strobe(0xF))
      else DReq(a, IsSc(w), c.ex.rs2v, Strobe(if IsSc(w) then 0xF else 0))
    else
      DReq(a, IsStore(w), StoreData(Funct3(w), a, c.ex.rs2v),
           Strobe(if IsStore(w) then StoreStrobe(Funct3(w), a) else 0))
  }

  predicate ReqFire(e: Env, c: Core, i: In)
    requires c.csr.Valid()
  {
    Requesting(e, c) && i.dReady
  }

  predicate RspReady(c: Core) { c.ex.valid && (c.ex.st == MemWait || c.ex.st == AmoStoreWait) }

  predicate RspFire(c: Core, i: In) { i.dRsp.Some? && RspReady(c) }

  // ------------------------------------------------------------------------------------------
  // Leaving EX
  // ------------------------------------------------------------------------------------------

  predicate ExecToWb(e: Env, c: Core)
    requires c.csr.Valid()
  {
    c.ex.valid && c.ex.st == Exec && !MemAccess(e, c)
  }

  predicate MemToWb(c: Core, i: In) { c.ex.valid && c.ex.st == MemWait && RspFire(c, i) && !IsAmo(c.ex.instr) }

  predicate AmoToWb(c: Core, i: In) { c.ex.valid && c.ex.st == AmoStoreWait && RspFire(c, i) }

  predicate ToWb(e: Env, c: Core, i: In)
    requires c.csr.Valid()
  {
    ExecToWb(e, c) || MemToWb(c, i) || AmoToWb(c, i)
  }

  predicate DoneErr(e: Env, c: Core, i: In)
    requires c.csr.Valid()
  {
    if ExecToWb(e, c) && PmpFault(c) then true
    else if MemToWb(c, i) || AmoToWb(c, i) then i.dRsp.value.err
    else c.ex.err
  }

  predicate DoneMisaligned(e: Env, c: Core)
    requires c.csr.Valid()
  {
    var w := c.ex.instr;
    if ExecToWb(e, c) then (IsLoad(w) || IsStore(w) || IsAtomic(w)) && Misaligned(AluResult(c.ex), Funct3(w))
    else c.ex.misaligned
  }

  predicate Exception(e: Env, c: Core, i: In)
    requires c.csr.Valid()
  {
    TriggerHit(e, c.ex) || c.ex.item.err || DoneErr(e, c, i) || DoneMisaligned(e, c) ||
    BadTarget(c.ex, c.csr) || !LegalEff(c.ex, c.csr)
  }

  predicate TakesIrq(c: Core, i: In) { Csr.PendingIrq(c.csr, i.ext).Some? && !IsCsrOp(c.ex.instr) }

  function IrqVector(k: Csr.State, ext: Csr.Ext): (r: Word) {
    match Csr.PendingIrq(k, ext)
    case Some(cause) => IrqTarget(k.mtvec, cause)
    case None => TrapBase(k.mtvec)
  }

  /** Where EX steers the fetch stage when it redirects. */
  function ExTarget(e: Env, c: Core, i: In): (r: Word)
    requires c.csr.Valid()
  {
    var w := c.ex.instr;
    if Exception(e, c, i) then TrapBase(c.csr.mtvec)
    else if TakesIrq(c, i) then IrqVector(c.csr, i.ext)
    else if IsJal(w) || IsJalr(w) || Taken(c.ex) then NextTarget(c.ex)
    else if IsEcall(w) || IsEbreak(w) then TrapBase(c.csr.mtvec)
    else if IsMret(w) then c.csr.mepc
    else SeqPc(c.ex)
  }

  predicate Redirect(e: Env, c: Core, i: In)
    requires c.csr.Valid()
  {
    var w := c.ex.instr;
    ToWb(e, c, i) &&
    (Exception(e, c, i) || IsJal(w) || IsJalr(w) || Taken(c.ex) || IsEcall(w) || IsEbreak(w) || IsMret(w) ||
     TakesIrq(c, i))
  }

  // ------------------------------------------------------------------------------------------
  // WB wires
  // ------------------------------------------------------------------------------------------

  /** The byte, or halfword, of d that an access at a selects. */
  function ByteLane(a: Word, d: Word): (r: bv32) {
    match a.bits & 3
    case 0 => d.bits & 0xFF
    case 1 => (d.bits >> 8) & 0xFF
    case 2 => (d.bits >> 16) & 0xFF
    case _ => (d.bits >> 24) & 0xFF
  }

  function HalfLane(a: Word, d: Word): (r: bv32) {
    if a.bits & 2 == 0 then d.bits & 0xFFFF else d.bits >> 16
  }

  function LoadResult(f3: bv3, a: Word, d: Word): (r: Word) {
    match f3
    case 0 => Word(Sext(ByteLane(a, d), 0x80))
    case 1 => Word(Sext(HalfLane(a, d), 0x8000))
    case 4 => Word(ByteLane(a, d))
    case 5 => Word(HalfLane(a, d))
    case _ => d
  }

  function CsrAddr(w: Word): (r: Csr.Addr) { Csr.Addr(Funct12(w)) }

  function CsrOpOf(w: Word): (r: Csr.CsrOp) {
    match Funct3(w) & 3
    case 1 => Csr.Write
    case 2 => Csr.SetBits
    case 3 => Csr.ClearBits
    case _ => Csr.NoOp
  }

  function WbResult(c: Core, ext: Csr.Ext): (r: Word)
    requires c.csr.Valid()
  {
    var w := c.wb.instr;
    if IsLoad(w) || IsLr(w) then LoadResult(Funct3(w), c.wb.addr, c.wb.rdata)
    else if IsCsrOp(w) then Csr.Read(c.csr, c.counters, ext, CsrAddr(w))
    else if IsSc(w) then c.wb.scResult
    else if IsAmo(w) then c.wb.amoOld
    else c.wb.result
  }

  predicate HasResult(w: Word) {
    IsAluReg(w) || IsAluImm(w) || IsLui(w) || IsAuipc(w) || IsJal(w) || IsJalr(w) || IsLoad(w) || IsCsrOp(w) ||
    IsLr(w) || IsSc(w) || IsAmo(w)
  }

  predicate WritesRd(w: Wb) {
    w.valid && !w.trigger && !w.item.err && !w.err && !w.misaligned && !w.badTarget && w.legal && HasResult(w.instr)
  }

  function WbWrite(c: Core, ext: Csr.Ext): (r: Option<Write>)
    requires c.csr.Valid()
  {
    if WritesRd(c.wb) then Some(Write(Rd(c.wb.instr), WbResult(c, ext))) else None
  }

  /** The command WB gives the CSR unit. */
  function WbCommand(b: Wb): (r: Csr.Command) {
    var w := b.instr;
    if !b.valid then Csr.Idle
    else if b.item.err then Csr.Take(Csr.Trap(Word(1), b.item.pc, b.item.pc))
    else if b.trigger then Csr.Take(Csr.Trap(Word(3), ZERO, b.item.pc))
    else if b.misaligned then Csr.Take(Csr.Trap(if IsStore(w) then Word(6) else Word(4), b.addr, b.item.pc))
    else if b.err then
      Csr.Take(Csr.Trap(if IsStore(w) || IsAmo(w) || IsSc(w) then Word(7) else Word(5), b.addr, b.item.pc))
    else if b.badTarget then Csr.Take(Csr.Trap(Word(0), b.next, b.item.pc))
    else if !b.legal then Csr.Take(Csr.Trap(Word(2), b.item.raw, b.item.pc))
    else if IsCsrOp(w) then Csr.Access(CsrAddr(w), CsrOpOf(w), b.src)
    else if IsEcall(w) then Csr.Take(Csr.Trap(if b.priv == Pmp.MACHINE then Word(11) else Word(8), ZERO, b.item.pc))
    else if IsEbreak(w) then Csr.Take(Csr.Trap(Word(3), ZERO, b.item.pc))
    else if IsMret(w) then Csr.Mret
    else if b.irq.Some? then Csr.Take(Csr.Trap(b.irq.value, ZERO, b.next))
    else Csr.Idle
  }

  predicate Retires(b: Wb) {
    var w := b.instr;
    b.valid &&
    !(b.item.err || b.trigger || b.err || b.misaligned || b.badTarget || !b.legal || IsEcall(w) || IsEbreak(w) ||
      (b.irq.Some? && !IsCsrOp(w)))
  }

  // ------------------------------------------------------------------------------------------
  // ID: bypass and hazard
  // ------------------------------------------------------------------------------------------

  function IdInstr(f: F.Fe): (r: Word) {
    if f.id.isC then Decompressed(HalfOf(f.id.raw, false)) else f.id.raw
  }

  predicate IdBadC(f: F.Fe) { f.id.isC && Expand(HalfOf(f.id.raw, false)).None? }

  predicate ForwardValid(e: Env, c: Core)
    requires c.csr.Valid()
  {
    var w := c.ex.instr;
    c.ex.valid && c.ex.st == Exec && !TriggerHit(e, c.ex) && !c.ex.item.err && !BadTarget(c.ex, c.csr) &&
    DecLegal(c.ex) && !IsLoad(w) && !IsStore(w) && !IsAtomic(w) && !IsCsrOp(w) &&
    (IsAluReg(w) || IsAluImm(w) || IsLui(w) || IsAuipc(w) || IsJal(w) || IsJalr(w))
  }

  predicate Hazard(e: Env, c: Core)
    requires c.csr.Valid()
  {
    var rd := Rd(c.ex.instr);
    c.fe.idValid && c.ex.valid && rd != X0 && (rd == Rs1(IdInstr(c.fe)) || rd == Rs2(IdInstr(c.fe))) &&
    !ForwardValid(e, c)
  }

  /** A source operand: register file, overridden by WB, overridden by EX. */
  function Operand(e: Env, c: Core, ext: Csr.Ext, r: Reg): (x: Word)
    requires c.csr.Valid()
  {
    if ForwardValid(e, c) && Rd(c.ex.instr) != X0 && Rd(c.ex.instr) == r then ExResult(c.ex)
    else if WritesRd(c.wb) && Rd(c.wb.instr) != X0 && Rd(c.wb.instr) == r then WbResult(c, ext)
    else Get(c.regs, r)
  }

  predicate CanAccept(e: Env, c: Core, i: In)
    requires c.csr.Valid()
  {
    !c.ex.valid || ToWb(e, c, i)
  }

  predicate IdFire(e: Env, c: Core, i: In)
    requires c.csr.Valid()
  {
    c.fe.idValid && CanAccept(e, c, i) && !Redirect(e, c, i) && !Hazard(e, c)
  }

  // ------------------------------------------------------------------------------------------
  // One clock
  // ------------------------------------------------------------------------------------------

  /** The fetch stage's inputs; a response is checked by the PMP at the current privilege. */
  function FetchIn(e: Env, c: Core, i: In): (r: F.FeIn)
    requires c.csr.Valid()
  {
    var allow := Pmp.Allow(c.csr.pmp, ByteAddress(c.fe.PmpWord()), c.csr.priv, Pmp.FETCH);
    var rsp := match i.iRsp case Some(r) => F.FWord(r.data, r.err || !allow) case None => F.FWord(ZERO, false);
    F.FeIn(i.iReady, i.iRsp.Some?, rsp, Redirect(e, c, i), ExTarget(e, c, i), IdFire(e, c, i))
  }

  /** EX registers of an instruction arriving from ID. */
  function Loaded(e: Env, c: Core, ext: Csr.Ext): (r: Ex)
    requires c.csr.Valid()
  {
    var w := IdInstr(c.fe);
    Ex(true, Exec, c.fe.id, w, IdBadC(c.fe), Operand(e, c, ext, Rs1(w)), Operand(e, c, ext, Rs2(w)),
       c.csr.priv, ZERO, ZERO, ZERO, false, false)
  }

  /** EX registers of an instruction that stays or leaves. */
  function Advanced(e: Env, c: Core, i: In): (r: Ex)
    requires c.csr.Valid()
  {
    var x := c.ex;
    var w := x.instr;
    if !x.valid then x
    else
      match x.st
      case Exec =>
        var y := x.(result := ExResult(x), addr := AluResult(x),
                    misaligned := (IsLoad(w) || IsStore(w)) && Misaligned(AluResult(x), Funct3(w)), err := false);
        if MemAccess(e, c) then y.(st := if ReqFire(e, c, i) then MemWait else MemReq) else y.(valid := false)
      case MemReq => if ReqFire(e, c, i) then x.(st := MemWait) else x
      case MemWait =>
        if !RspFire(c, i) then x
        else
          var y := x.(rdata := i.dRsp.value.data, err := i.dRsp.value.err);
          if IsAmo(w) && !i.dRsp.value.err then y.(st := AmoStoreReq) else y.(valid := false)
      case AmoStoreReq => if ReqFire(e, c, i) then x.(st := AmoStoreWait) else x
      case AmoStoreWait => if RspFire(c, i) then x.(err := i.dRsp.value.err, valid := false) else x
  }

  function NextEx(e: Env, c: Core, i: In): (r: Ex)
    requires c.csr.Valid()
  {
    if IdFire(e, c, i) then Loaded(e, c, i.ext)
    else if Redirect(e, c, i) then Advanced(e, c, i).(valid := false, st := Exec)
    else Advanced(e, c, i)
  }

  /** WB registers of the instruction leaving EX. */
  function Completed(e: Env, c: Core, i: In): (r: Wb)
    requires c.csr.Valid()
  {
    var x := c.ex;
    var inExec := ExecToWb(e, c);
    Wb(true, x.item, x.instr, LegalEff(x, c.csr),
       if inExec then ExResult(x) else x.result,
       if inExec then AluResult(x) else x.addr,
       if MemToWb(c, i) then i.dRsp.value.data else x.rdata,
       DoneErr(e, c, i), DoneMisaligned(e, c), BadTarget(x, c.csr), TriggerHit(e, x),
       if Funct3(x.instr) & 4 != 0 then Word(Rs1(x.instr).n as bv32) else x.rs1v,
       NextTarget(x), Csr.PendingIrq(c.csr, i.ext), x.priv, c.amoOld,
       Flag(!ScSucceeds(x, c.resvValid, c.resvAddr)))
  }

  function NextWb(e: Env, c: Core, i: In): (r: Wb)
    requires c.csr.Valid()
  {
    if ToWb(e, c, i) then Completed(e, c, i) else c.wb.(valid := false)
  }

  /** The reservation: set by LR, dropped by a successful SC and by any redirect. */
  predicate NextResvValid(e: Env, c: Core, i: In)
    requires c.csr.Valid()
  {
    var answered := c.ex.valid && c.ex.st == MemWait && RspFire(c, i);
    if Redirect(e, c, i) then false
    else if answered && IsLr(c.ex.instr) && !i.dRsp.value.err then true
    else if answered && IsSc(c.ex.instr) then false
    else c.resvValid
  }

  predicate LrAnswered(c: Core, i: In) {
    c.ex.valid && c.ex.st == MemWait && RspFire(c, i) && IsLr(c.ex.instr) && !i.dRsp.value.err
  }

  predicate AmoAnswered(c: Core, i: In) {
    c.ex.valid && c.ex.st == MemWait && RspFire(c, i) && IsAmo(c.ex.instr) && !i.dRsp.value.err
  }

  function CsrInput(c: Core, i: In): (r: Csr.CsrIn) { Csr.CsrIn(WbCommand(c.wb), Retires(c.wb), i.ext) }

  function Next(e: Env, c: Core, i: In): (r: Core)
    requires c.csr.Valid()
    ensures r.csr.Valid()
  {
    Core(F.Next(c.fe, FetchIn(e, c, i)),
         NextEx(e, c, i),
         NextWb(e, c, i),
         Set(c.regs, WbWrite(c, i.ext)),
         Csr.Execute(c.csr, c.counters, i.ext, WbCommand(c.wb)),
         Csr.NextCounters(c.csr, c.counters, CsrInput(c, i)),
         NextResvValid(e, c, i),
         if LrAnswered(c, i) then c.ex.result else c.resvAddr,
         if AmoAnswered(c, i) then i.dRsp.value.data else c.amoOld)
  }
}
