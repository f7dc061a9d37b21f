/** A sequential interpreter for RV32IMAC_Zicsr with machine and user mode: one instruction at a
    time, with traps, interrupts and physical memory protection, and no pipeline. */
module Isa {
  import opened Words
  import opened Instr
  import F = Fetch
  import Pmp
  import Csr
  import MulDiv

  const RAM_WORDS := 0x1_0000

  type Regs = s: seq<Word> | |s| == 32 witness seq(32, _ => ZERO)

  type Ram = s: seq<Word> | |s| == RAM_WORDS witness seq(RAM_WORDS, _ => ZERO)

  datatype Write = Write(rd: Reg, v: Word)

  /** Architectural state. `resv` is the reservation of LR, if one is held. */
  datatype Arch = Arch(pc: Word, regs: Regs, ram: Ram, resv: Option<Word>, csr: Csr.State)

  /** A trigger as programmed in tdata1 and tdata2. */
  datatype Trigger = Trigger(tdata1: Word, tdata2: Word)

  /** What does not change during a run: instruction memory and the two triggers. */
  datatype Env = Env(imem: F.IMem, trig0: Trigger, trig1: Trigger)

  /** Answer of the data bus; only answers from outside RAM are inputs of the interpreter. */
  datatype DResp = DResp(data: Word, err: bool)

  /** What the outside supplies to one instruction: bus answers (of both beats of an AMO), the
      interrupt lines, and the counter values a CSR read sees. */
  datatype Io = Io(first: DResp, second: DResp, ext: Csr.Ext, counters: Csr.Counters)

  // ------------------------------------------------------------------------------------------
  // Registers, fetch and data memory
  // ------------------------------------------------------------------------------------------

  function Get(regs: Regs, r: Reg): (x: Word) { if r == X0 then ZERO else regs[r.n as int] }

  function Set(regs: Regs, w: Option<Write>): (r: Regs) {
    if w.Some? && w.value.rd != X0 then regs[w.value.rd.n as int := w.value.v] else regs
  }

  function ByteAddress(a: WordAddr): (r: Word) { Word((a.bits as bv32) << 2) }

  /** Instruction memory as seen at privilege p: a denied word is a faulting one. */
  function View(e: Env, g: Pmp.Regions, p: Pmp.Priv): (r: F.IMem)
    requires g.Valid()
  {
    (a: WordAddr) => F.FWord(e.imem(a).data, e.imem(a).err || !Pmp.Allow(g, ByteAddress(a), p, Pmp.FETCH))
  }

  predicate InRam(a: Word) { a.bits & 0xFFFC_0000 == 0x8000_0000 }

  function RamIndex(a: Word): (i: nat)
    ensures i < RAM_WORDS
  {
    ((a.bits >> 2) & 0xFFFF) as bv16 as nat
  }

  /** The answer to a read: RAM never fails, everything else answers as the outside says. */
  function ReadAnswer(ram: Ram, a: Word, outside: DResp): (r: DResp) {
    if InRam(a) then DResp(ram[RamIndex(a)], false) else outside
  }

  function WriteError(a: Word, outside: DResp): (r: bool) { !InRam(a) && outside.err }

  function Lane(a: Word): (r: bv6) { ((a.bits & 3) << 3) as bv6 }

  function WidthMask(w: Width): (r: bv32) {
    match w
    case B => 0xFF
    case H => 0xFFFF
    case W => 0xFFFF_FFFF
  }

  /** The bytes of a little-endian word that an access at `a` reads. */
  function Selected(w: Width, a: Word, data: Word): (r: bv32) { (data.bits >> Lane(a)) & WidthMask(w) }

  function Extract(w: Width, unsigned: bool, a: Word, data: Word): (r: Word) {
    var x := Selected(w, a, data);
    match w
    case B => Word(if unsigned then x else Sext(x, 0x80))
    case H => Word(if unsigned then x else Sext(x, 0x8000))
    case W => data
  }

  /** The word after writing the low bytes of v at `a`. */
  function Insert(w: Width, a: Word, old_: Word, v: Word): (r: Word) {
    match w
    case W => v
    case _ =>
      var m := WidthMask(w) << Lane(a);
      Word((old_.bits & !m) | ((v.bits & WidthMask(w)) << Lane(a)))
  }

  function StoreRam(ram: Ram, w: Width, a: Word, v: Word): (r: Ram) {
    if InRam(a) then ram[RamIndex(a) := Insert(w, a, ram[RamIndex(a)], v)] else ram
  }

  predicate Aligned(w: Width, a: Word) {
    match w
    case B => true
    case H => a.bits & 1 == 0
    case W => a.bits & 3 == 0
  }

  // ------------------------------------------------------------------------------------------
  // Arithmetic
  // ------------------------------------------------------------------------------------------

  function Sum(a: Word, b: Word): (r: Word) { Word(a.bits + b.bits) }

  predicate SignedLess(a: Word, b: Word) { (a.bits ^ 0x8000_0000) < (b.bits ^ 0x8000_0000) }

  predicate UnsignedLess(a: Word, b: Word) { Words.Lt(a.bits, b.bits) }

  /** With bit 0 cleared, as JALR targets are. */
  function EvenBelow(a: Word): (r: Word) { Word(a.bits & 0xFFFF_FFFE) }

  function Flag(b: bool): (r: Word) { Word(if b then 1 else 0) }

  function Amount(b: Word): (n: bv6)
    ensures n <= 31
  {
    (b.bits & 0x1F) as bv6
  }

  function Difference(a: Word, b: Word): (r: Word) { Word(a.bits - b.bits) }

  function ShiftLeft(a: Word, n: bv6): (r: Word)
    requires n <= 31
  {
    Word(a.bits << n)
  }

  function ShiftRight(a: Word, n: bv6): (r: Word)
    requires n <= 31
  {
    Word(a.bits >> n)
  }

  function Complement(a: Word): (r: Word) { Word(!a.bits) }

  /** Copies of the sign are shifted in: the complement of a negative number shifts in zeros. */
  function ShiftRightArithmetic(a: Word, n: bv6): (r: Word)
    requires n <= 31
  {
    if a.bits & 0x8000_0000 == 0 then ShiftRight(a, n) else Complement(ShiftRight(Complement(a), n))
  }

  function BitXor(a: Word, b: Word): (r: Word) { Word(a.bits ^ b.bits) }

  function BitOr(a: Word, b: Word): (r: Word) { Word(a.bits | b.bits) }

  function BitAnd(a: Word, b: Word): (r: Word) { Word(a.bits & b.bits) }

  function Compute(op: AluOp, a: Word, b: Word): (r: Word) {
    match op
    case Add => Sum(a, b)
    case Sub => Difference(a, b)
    case Sll => ShiftLeft(a, Amount(b))
    case Slt => Flag(SignedLess(a, b))
    case Sltu => Flag(UnsignedLess(a, b))
    case Xor => BitXor(a, b)
    case Srl => ShiftRight(a, Amount(b))
    case Sra => ShiftRightArithmetic(a, Amount(b))
    case Or => BitOr(a, b)
    case And => BitAnd(a, b)
  }

  /** The number a word denotes; the remainder only tells the verifier its range. */
  function Unsigned(a: Word): (r: MulDiv.U32) { (a.bits as int) % MulDiv.TWO32 }

  function Multiply(op: MulOp, a: Word, b: Word): (r: Word) {
    Word(MulDiv.Exact(op, Unsigned(a), Unsigned(b)) as bv32)
  }

  predicate Holds(c: Cond, a: Word, b: Word) {
    match c
    case Eq => a == b
    case Ne => a != b
    case Lt => SignedLess(a, b)
    case Ge => !SignedLess(a, b)
    case Ltu => UnsignedLess(a, b)
    case Geu => !UnsignedLess(a, b)
  }

  function AmoResult(op: AmoOp, old_: Word, v: Word): (r: Word) {
    match op
    case Swap => v
    case AmoAdd => Sum(old_, v)
    case AmoXor => BitXor(old_, v)
    case AmoAnd => BitAnd(old_, v)
    case AmoOr => BitOr(old_, v)
    case Min => if SignedLess(old_, v) then old_ else v
    case Max => if SignedLess(v, old_) then old_ else v
    case Minu => if UnsignedLess(old_, v) then old_ else v
    case Maxu => if UnsignedLess(v, old_) then old_ else v
  }

  // ------------------------------------------------------------------------------------------
  // Privilege
  // ------------------------------------------------------------------------------------------

  function DataPriv(s: Csr.State): (r: Pmp.Priv) {
    if s.priv == Pmp.MACHINE && Csr.Mprv(s.mstatus) then Csr.Mpp(s.mstatus) else s.priv
  }

  predicate MayAccess(s: Csr.State, a: Word, r: bool, w: bool)
    requires s.Valid()
  {
    Pmp.Allow(s.pmp, a, DataPriv(s), Pmp.Access(r, w, false))
  }

  predicate CsrDenied(s: Csr.State, a: Csr.Addr, srcField: bv5) {
    var level := (a.bits >> 8) & 3;
    || (level == 3 && s.priv != Pmp.MACHINE) || level == 1 || level == 2
    || (a.bits >> 10 == 3 && srcField != 0)
    || (s.priv == Pmp.USER && CounterDenied(s.mcounteren, a.bits))
  }

  predicate CounterDenied(en: Word, n: bv12) {
    || ((n == 0xC00 || n == 0xC80) && en.bits & 1 == 0)
    || ((n == 0xC02 || n == 0xC82) && en.bits & 4 == 0)
    || (((0xC03 <= n && n <= 0xC1F) || (0xC83 <= n && n <= 0xC9F)) && (en.bits >> ((n & 0x1F) as bv6)) & 1 == 0)
  }

  /** Legal in itself but not at this privilege. */
  predicate Denied(s: Csr.State, i: Instr) {
    match i
    case Mret => s.priv != Pmp.MACHINE
    case Wfi => s.priv != Pmp.MACHINE && Csr.Tw(s.mstatus)
    case Zicsr(_, _, a, FromReg(r)) => CsrDenied(s, a, r.n)
    case Zicsr(_, _, a, FromImm(u)) => CsrDenied(s, a, u)
    case _ => false
  }

  // ------------------------------------------------------------------------------------------
  // Triggers
  // ------------------------------------------------------------------------------------------

  /** The data address an instruction uses. */
  function DataAddress(regs: Regs, i: Instr): (r: Word) {
    match i
    case Load(_, _, _, rs1, imm) => Sum(Get(regs, rs1), imm)
    case Store(_, rs1, _, imm) => Sum(Get(regs, rs1), imm)
    case Lr(_, rs1) => Get(regs, rs1)
    case Sc(_, rs1, _) => Get(regs, rs1)
    case Amo(_, _, rs1, _) => Get(regs, rs1)
    case _ => ZERO
  }

  predicate WatchesPriv(t: Trigger, p: Pmp.Priv) {
    (t.tdata1.bits & 0x40 != 0 && p == Pmp.MACHINE) || (t.tdata1.bits & 0x8 != 0 && p == Pmp.USER)
  }

  predicate WatchesLoad(t: Trigger) { t.tdata1.bits & 1 != 0 }

  predicate WatchesStore(t: Trigger) { t.tdata1.bits & 2 != 0 }

  predicate WatchesPc(t: Trigger) { t.tdata1.bits & 4 != 0 }

  predicate Fires(t: Trigger, p: Pmp.Priv, pc: Word, isLoad: bool, isStore: bool, addr: Word) {
    WatchesPriv(t, p) &&
    (|| (WatchesPc(t) && pc == t.tdata2)
     || (WatchesLoad(t) && isLoad && addr == t.tdata2)
     || (WatchesStore(t) && isStore && addr == t.tdata2))
  }

  /** An execute trigger on the pc, or a load/store trigger on the data address, fires. */
  predicate Breaks(e: Env, a: Arch, i: Instr) {
    var addr := DataAddress(a.regs, i);
    var isStore := i.Store? || i.Sc? || i.Amo?;
    Fires(e.trig0, a.csr.priv, a.pc, i.Load?, isStore, addr) || Fires(e.trig1, a.csr.priv, a.pc, i.Load?, isStore, addr)
  }

  // ------------------------------------------------------------------------------------------
  // One instruction
  // ------------------------------------------------------------------------------------------

  /** Everything one instruction does: the next pc, a register write, a command to the CSR unit,
      memory, reservation, and whether it counts as retired. */
  datatype Commit = Commit(next: Word, wr: Option<Write>, cmd: Csr.Command, ram: Ram, resv: Option<Word>, retired: bool)

  function TrapBase(mtvec: Word): (r: Word) { Word(mtvec.bits & 0xFFFF_FFFC) }

  predicate Vectored(mtvec: Word) { mtvec.bits & 1 != 0 }

  function IrqTarget(mtvec: Word, cause: Word): (r: Word) {
    if Vectored(mtvec) then Sum(TrapBase(mtvec), Word((cause.bits & 0x1F) << 2)) else TrapBase(mtvec)
  }

  function Faults(a: Arch, cause: bv32, tval: Word): (r: Commit) {
    Commit(TrapBase(a.csr.mtvec), None, Csr.Take(Csr.Trap(Word(cause), tval, a.pc)), a.ram, None, false)
  }

  /** The instruction completes; a pending interrupt is taken before the next one. */
  function Completes(a: Arch, io: Io, next: Word, wr: Option<Write>, ram: Ram, resv: Option<Word>): (r: Commit) {
    match Csr.PendingIrq(a.csr, io.ext)
    case Some(cause) =>
      Commit(IrqTarget(a.csr.mtvec, cause), wr, Csr.Take(Csr.Trap(cause, ZERO, next)), ram, None, false)
    case None => Commit(next, wr, Csr.Idle, ram, resv, true)
  }

  predicate IsOdd(a: Word) { a.bits & 1 != 0 }

  /** The instruction transfers control, which drops any reservation. */
  function Jumps(a: Arch, io: Io, target: Word, wr: Option<Write>): (r: Commit) {
    if IsOdd(target) then Faults(a, 0, target) else Completes(a, io, target, wr, a.ram, None)
  }

  function Meaning(item: F.Item): (r: Instr) {
    if item.isC then Rvc(HalfOf(item.raw, false)) else Decode(item.raw)
  }

  function ExecLoad(a: Arch, io: Io, seqPc: Word, w: Width, unsigned: bool, rd: Reg, addr: Word): (r: Commit)
    requires a.csr.Valid()
  {
    if !Aligned(w, addr) then Faults(a, 4, addr)
    else if !MayAccess(a.csr, addr, true, false) then Faults(a, 5, addr)
    else
      var r := ReadAnswer(a.ram, addr, io.first);
      if r.err then Faults(a, 5, addr)
      else Completes(a, io, seqPc, Some(Write(rd, Extract(w, unsigned, addr, r.data))), a.ram, a.resv)
  }

  function ExecStore(a: Arch, io: Io, seqPc: Word, w: Width, addr: Word, v: Word): (r: Commit)
    requires a.csr.Valid()
  {
    if !Aligned(w, addr) then Faults(a, 6, addr)
    else if !MayAccess(a.csr, addr, false, true) || WriteError(addr, io.first) then Faults(a, 7, addr)
    else Completes(a, io, seqPc, None, StoreRam(a.ram, w, addr, v), a.resv)
  }

  function ExecLr(a: Arch, io: Io, seqPc: Word, rd: Reg, addr: Word): (r: Commit)
    requires a.csr.Valid()
  {
    if !Aligned(W, addr) then Faults(a, 4, addr)
    else if !MayAccess(a.csr, addr, true, false) then Faults(a, 5, addr)
    else
      var r := ReadAnswer(a.ram, addr, io.first);
      if r.err then Faults(a, 5, addr)
      else Completes(a, io, seqPc, Some(Write(rd, r.data)), a.ram, Some(addr))
  }

  /** SC succeeds only with a reservation on its own address. A failing SC leaves memory and the
      reservation alone. */
  function ExecSc(a: Arch, io: Io, seqPc: Word, rd: Reg, addr: Word, v: Word): (r: Commit)
    requires a.csr.Valid()
  {
    if !Aligned(W, addr) then Faults(a, 4, addr)
    else if a.resv != Some(addr) then Completes(a, io, seqPc, Some(Write(rd, Flag(true))), a.ram, a.resv)
    else if !MayAccess(a.csr, addr, false, true) || WriteError(addr, io.first) then Faults(a, 7, addr)
    else Completes(a, io, seqPc, Some(Write(rd, Flag(false))), StoreRam(a.ram, W, addr, v), None)
  }

  function ExecAmo(a: Arch, io: Io, seqPc: Word, op: AmoOp, rd: Reg, addr: Word, v: Word): (r: Commit)
    requires a.csr.Valid()
  {
    if !Aligned(W, addr) then Faults(a, 4, addr)
    else if !MayAccess(a.csr, addr, true, true) then Faults(a, 7, addr)
    else
      var old_ := ReadAnswer(a.ram, addr, io.first).data;
      if WriteError(addr, io.second) then Faults(a, 7, addr)
      else Completes(a, io, seqPc, Some(Write(rd, old_)), StoreRam(a.ram, W, addr, AmoResult(op, old_, v)), a.resv)
  }

  function CsrSource(a: Arch, s: CsrSrc): (r: Word) {
    match s
    case FromReg(r) => Get(a.regs, r)
    case FromImm(u) => Word(u as bv32)
  }

  function Exec(e: Env, a: Arch, io: Io, item: F.Item, i: Instr): (r: Commit)
    requires a.csr.Valid()
  {
    var seqPc := F.After(item);
    match i
    case Illegal => Faults(a, 2, item.raw)
    case Lui(rd, imm) => Completes(a, io, seqPc, Some(Write(rd, imm)), a.ram, a.resv)
    case Auipc(rd, imm) => Completes(a, io, seqPc, Some(Write(rd, Sum(a.pc, imm))), a.ram, a.resv)
    case OpImm(op, rd, rs1, imm) =>
      Completes(a, io, seqPc, Some(Write(rd, Compute(op, Get(a.regs, rs1), imm))), a.ram, a.resv)
    case Op(op, rd, rs1, rs2) =>
      Completes(a, io, seqPc, Some(Write(rd, Compute(op, Get(a.regs, rs1), Get(a.regs, rs2)))), a.ram, a.resv)
    case MulDiv(op, rd, rs1, rs2) =>
      Completes(a, io, seqPc, Some(Write(rd, Multiply(op, Get(a.regs, rs1), Get(a.regs, rs2)))), a.ram, a.resv)
    case Fence => Completes(a, io, seqPc, None, a.ram, a.resv)
    case Wfi => Completes(a, io, seqPc, None, a.ram, a.resv)
    case Jal(rd, off) => Jumps(a, io, Sum(a.pc, off), Some(Write(rd, seqPc)))
    case Jalr(rd, rs1, imm) =>
      Jumps(a, io, EvenBelow(Sum(Get(a.regs, rs1), imm)), Some(Write(rd, seqPc)))
    case Branch(c, rs1, rs2, off) =>
      if Holds(c, Get(a.regs, rs1), Get(a.regs, rs2)) then Jumps(a, io, Sum(a.pc, off), None)
      else Completes(a, io, seqPc, None, a.ram, a.resv)
    case Load(w, unsigned, rd, _, _) => ExecLoad(a, io, seqPc, w, unsigned, rd, DataAddress(a.regs, i))
    case Store(w, _, rs2, _) => ExecStore(a, io, seqPc, w, DataAddress(a.regs, i), Get(a.regs, rs2))
    case Lr(rd, _) => ExecLr(a, io, seqPc, rd, DataAddress(a.regs, i))
    case Sc(rd, _, rs2) => ExecSc(a, io, seqPc, rd, DataAddress(a.regs, i), Get(a.regs, rs2))
    case Amo(op, rd, _, rs2) => ExecAmo(a, io, seqPc, op, rd, DataAddress(a.regs, i), Get(a.regs, rs2))
    case Ecall => Faults(a, if a.csr.priv == Pmp.MACHINE then 11 else 8, ZERO)
    case Ebreak => Faults(a, 3, ZERO)
    case Mret => Commit(a.csr.mepc, None, Csr.Mret, a.ram, None, true)
    case Zicsr(op, rd, csr, src) =>
      Commit(seqPc, Some(Write(rd, Csr.Read(a.csr, io.counters, io.ext, csr))),
             Csr.Access(csr, op, CsrSource(a, src)), a.ram, a.resv, true)
  }

  function Outcome(e: Env, a: Arch, io: Io): (r: Commit)
    requires a.csr.Valid()
  {
    var item := F.ParseAt(View(e, a.csr.pmp, a.csr.priv), a.pc);
    var i := Meaning(item);
    if item.err then Faults(a, 1, a.pc)
    else if i == Illegal then Faults(a, 2, item.raw)
    else if Breaks(e, a, i) then Faults(a, 3, ZERO)
    else if Denied(a.csr, i) then Faults(a, 2, item.raw)
    else Exec(e, a, io, item, i)
  }

  function Apply(a: Arch, io: Io, c: Commit): (r: Arch)
    requires a.csr.Valid()
    ensures r.csr.Valid()
  {
    Arch(c.next, Set(a.regs, c.wr), c.ram, c.resv, Csr.Execute(a.csr, io.counters, io.ext, c.cmd))
  }

  /** The sequential interpreter. */
  function Step(e: Env, a: Arch, io: Io): (r: Arch)
    requires a.csr.Valid()
    ensures r.csr.Valid()
  {
    Apply(a, io, Outcome(e, a, io))
  }
}
