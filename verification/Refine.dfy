/** Every clock of the pipelined system is either invisible or exactly one step of the sequential
    interpreter. */
module Refine {
  import opened Words
  import opened Instr
  import opened Decoder
  import DecodeProof
  import F = Fetch
  import FetchProof
  import Pmp
  import Csr
  import opened Isa
  import opened Pipeline
  import opened Memory
  import opened DataPath
  import opened System

  const NO_EXT := Csr.Ext(false, false, false)

  // ------------------------------------------------------------------------------------------
  // The relation
  // ------------------------------------------------------------------------------------------

  /** CSR state once the instruction in WB has had its effect. */
  function Settled(c: Core): (r: Csr.State)
    requires c.csr.Valid()
    ensures r.Valid()
  {
    Csr.Execute(c.csr, c.counters, NO_EXT, WbCommand(c.wb))
  }

  predicate WbTraps(b: Wb) { WbCommand(b).Take? || WbCommand(b).Mret? }

  predicate WbCovered(b: Wb) { WbCommand(b).Access? ==> Covered(WbCommand(b).a) }

  /** EX holds a decoded instruction that fetch delivered. */
  predicate FromFetch(x: Ex) {
    var h := HalfOf(x.item.raw, false);
    && x.instr == (if x.item.isC then Decompressed(h) else x.item.raw)
    && (x.badC <==> x.item.isC && Expand(h).None?)
  }

  /** Instruction memory as the interpreter sees it. */
  function ArchView(e: Env, a: Arch): (r: F.IMem)
    requires a.csr.Valid()
  {
    View(e, a.csr.pmp, a.csr.priv)
  }

  predicate ExOk(e: Env, c: Core, a: Arch)
    requires a.csr.Valid()
  {
    var x := c.ex;
    x.valid ==>
      && x.item == F.ParseAt(ArchView(e, a), a.pc)
      && FromFetch(x)
      && x.priv == a.csr.priv
      && x.rs1v == Get(a.regs, Rs1(x.instr)) && x.rs2v == Get(a.regs, Rs2(x.instr))
      && F.After(x.item) == c.fe.Head()
  }

  /** The memory instruction in EX has passed its checks and is on its way over the data bus. */
  predicate Granted(e: Env, c: Core, a: Arch)
    requires a.csr.Valid()
  {
    var x := c.ex;
    var i := Meaning(x.item);
    var addr := Address(x, i);
    && !x.item.err && i != Illegal && IsAccess(i)
    && !Breaks(e, a, i)
    && Isa.Aligned(AccessWidth(i), addr)
    && MayAccess(a.csr, addr, i.Load? || i.Lr? || i.Amo?, i.Store? || i.Sc? || i.Amo?)
    && (i.Sc? ==> a.resv == Some(addr))
    && x.result == addr && x.addr == addr && !x.misaligned
  }

  function Pending(a: Arch, addr: Word, wrote: bool): (p: Pend) {
    Pend(InRam(addr), if wrote then None else Some(a.ram[RamIndex(addr)]))
  }

  /** The access on the bus is a write. */
  predicate Wrote(x: Ex, i: Instr) { x.st == AmoStoreWait || i.Store? || i.Sc? }

  /** RAM once the first bus beat of instruction i has been accepted. */
  function AfterFirst(a: Arch, x: Ex, i: Instr): (r: Ram) {
    match i
    case Store(w, _, _, _) => StoreRam(a.ram, w, Address(x, i), x.rs2v)
    case Sc(_, _, _) => StoreRam(a.ram, W, Address(x, i), x.rs2v)
    case _ => a.ram
  }

  predicate MemOk(e: Env, s: Sys, a: Arch)
    requires a.csr.Valid()
  {
    var x := s.core.ex;
    var i := Meaning(x.item);
    var addr := Address(x, i);
    if !x.valid then s.dbus.None? && s.ram == a.ram
    else
      match x.st
      case Exec => s.dbus.None? && s.ram == a.ram && !x.err && !x.misaligned
      case MemReq => Granted(e, s.core, a) && s.dbus.None? && s.ram == a.ram
      case MemWait =>
        Granted(e, s.core, a) && s.dbus == Some(Pending(a, addr, i.Store? || i.Sc?)) && s.ram == AfterFirst(a, x, i)
      case AmoStoreReq =>
        Granted(e, s.core, a) && i.Amo? && s.dbus.None? && s.ram == a.ram
        && (InRam(addr) ==> s.core.amoOld == a.ram[RamIndex(addr)])
      case AmoStoreWait =>
        Granted(e, s.core, a) && i.Amo? && s.dbus == Some(Pending(a, addr, true))
        && (InRam(addr) ==> s.core.amoOld == a.ram[RamIndex(addr)])
        && s.ram == StoreRam(a.ram, W, addr, AmoResult(i.aop, s.core.amoOld, x.rs2v))
  }

  predicate ResvOk(c: Core, a: Arch) { a.resv == if c.resvValid then Some(c.resvAddr) else None }

  /** The pipelined system s is at architectural state a. */
  ghost predicate Refines(e: Env, s: Sys, a: Arch) {
    && s.core.csr.Valid() && a.csr.Valid()
    && WbCovered(s.core.wb)
    && a.csr == Settled(s.core)
    && a.regs == Set(s.core.regs, WbWrite(s.core, NO_EXT))
    && a.pc == (if s.core.ex.valid then s.core.ex.item.pc else s.core.fe.Head())
    && FetchProof.Inv(ArchView(e, a), s.core.fe, s.ibus)
    && (WbTraps(s.core.wb) ==> !s.core.ex.valid && FetchProof.Quiet(s.core.fe))
    && ExOk(e, s.core, a)
    && MemOk(e, s, a)
    && ResvOk(s.core, a)
  }

  // ------------------------------------------------------------------------------------------
  // What a run may not contain
  // ------------------------------------------------------------------------------------------

  /** All CSRs but those the model does not have, the PMP registers, whose effect on words already buffered
      fetch ignores, and mip, which shows the lines of the clock in which it is read. */
  predicate Covered(a: Csr.Addr) {
    !Csr.IsUnmodelled(a.bits) && Csr.CfgSlot(a).None? && Csr.AddrIndex(a).None? && a.bits != Csr.MIP
  }

  /** An encoding that traps in decode must not look like a memory access: EX would still make it. */
  predicate WellEncoded(x: Ex) {
    x.item.err || !DecLegal(x) ==> !IsLoad(x.instr) && !IsStore(x.instr) && !IsAtomic(x.instr)
  }

  /** EX and WB rank a pending interrupt differently against mret, and in vectored mode against
      ecall and ebreak. */
  predicate RanksAgree(c: Core, i: In) {
    var w := c.ex.instr;
    Csr.PendingIrq(c.csr, i.ext).Some? ==> !IsMret(w) && !(Vectored(c.csr.mtvec) && (IsEcall(w) || IsEbreak(w)))
  }

  /** The CSR fields EX reads while WB may be about to change them. */
  predicate SameForEx(k: Csr.State, l: Csr.State) {
    k.mstatus == l.mstatus && k.mie == l.mie && k.mtvec == l.mtvec && k.mepc == l.mepc &&
    k.mcounteren == l.mcounteren && k.priv == l.priv && k.pmp == l.pmp
  }

  /** An instruction that reads no CSR field in EX, provided no interrupt is pending. */
  predicate Plain(i: Instr) {
    i.Lui? || i.Auipc? || i.OpImm? || i.Op? || i.MulDiv? || i.Fence? || i.Jal? || i.Jalr? || i.Branch?
  }

  /** A CSR write in WB does not change what the instruction now in EX depends on. */
  predicate NoCsrHazard(e: Env, c: Core, ext: Csr.Ext)
    requires c.csr.Valid()
  {
    !c.ex.valid || SameForEx(c.csr, Settled(c)) ||
    (Plain(Meaning(c.ex.item)) && !c.ex.item.err && !TriggerHit(e, c.ex) && !BadTarget(c.ex, c.csr) &&
     Csr.PendingIrq(c.csr, ext).None? && Csr.PendingIrq(Settled(c), ext).None?)
  }

  /** Unless it faults, what completes is not outranked, and is no CSR operation outside Covered. */
  predicate CompletesWell(e: Env, c: Core, i: In)
    requires c.csr.Valid()
  {
    Exception(e, c, i) || (RanksAgree(c, i) && (IsCsrOp(c.ex.instr) ==> Covered(CsrAddr(c.ex.instr))))
  }

  predicate Allowed(e: Env, s: Sys, t: Tick)
    requires s.core.csr.Valid()
  {
    var i := Inputs(e, s, t);
    var x := s.core.ex;
    && NoCsrHazard(e, s.core, t.ext)
    && (x.valid ==> WellEncoded(x))
    && (x.valid && x.st == MemWait && IsAmo(x.instr) && i.dRsp.Some? ==> !i.dRsp.value.err)
    && (ToWb(e, s.core, i) ==> CompletesWell(e, s.core, i))
  }
}
