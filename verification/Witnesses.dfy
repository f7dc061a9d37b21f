/** States of the core in which it does not do what its specification asks: one for each condition on
    a run of the refinement, a failing SC, and a write to a read-only register. */
module Witnesses {
  import opened Words
  import opened Instr
  import opened Decoder
  import F = Fetch
  import Pmp
  import Csr
  import opened Isa
  import opened Pipeline
  import DataPath
  import DataPort

  const NO_LINES := Csr.Ext(false, false, false)

  const OPEN := Pmp.Regions(seq(Csr.ENTRIES, _ => Pmp.Cfg(0)), seq(Csr.ENTRIES, _ => ZERO))

  function CsrAt(mepc: Word, g: Pmp.Regions): (r: Csr.State) {
    Csr.State(ZERO, ZERO, ZERO, ZERO, ZERO, mepc, ZERO, ZERO, ZERO, Pmp.MACHINE, g)
  }

  function ItemAt(pc: Word, raw: Word): (r: F.Item) { F.Item(pc, raw, false, false) }

  /** An instruction in its first EX cycle, its operands zero. */
  function ExAt(pc: Word, w: Word): (r: Ex) {
    Ex(true, ExState.Exec, ItemAt(pc, w), w, false, ZERO, ZERO, Pmp.MACHINE, ZERO, ZERO, ZERO, false, false)
  }

  const NO_EX := ExAt(ZERO, NOP).(valid := false)

  /** A legal instruction in WB with source operand v. */
  function WbAt(pc: Word, w: Word, v: Word): (r: Wb) {
    Wb(true, ItemAt(pc, w), w, true, ZERO, ZERO, ZERO, false, false, false, false, v, Plus(pc, 4), None, Pmp.MACHINE,
       ZERO, ZERO)
  }

  const NO_WB := WbAt(ZERO, NOP, ZERO).(valid := false)

  function CoreWith(f: F.Fe, x: Ex, b: Wb, k: Csr.State): (r: Core) {
    Core(f, x, b, seq(32, _ => ZERO), k, Csr.Counters(Csr.Count(0), Csr.Count(0)), false, ZERO, ZERO)
  }

  const QUIET := In(false, None, false, None, NO_LINES)

  const NO_TRIGGER := Trigger(ZERO, ZERO)

  /** Every entry off: machine mode may do anything. */
  lemma OpenAllows(a: Word, q: Pmp.Access)
    ensures OPEN.Valid() && Pmp.Allow(OPEN, a, Pmp.MACHINE, q)
  {
    forall k | 0 <= k < Csr.ENTRIES ensures !Pmp.EntryMatches(OPEN, k, a) { OffNeverMatches(k, a); }
  }

  lemma OffNeverMatches(k: nat, a: Word)
    requires k < Csr.ENTRIES
    ensures OPEN.Valid() && !Pmp.EntryMatches(OPEN, k, a)
  {
    assert OPEN.cfg[k] == Pmp.Cfg(0);
    assert Pmp.Cfg(0).A() == Pmp.OFF;
  }

  // ------------------------------------------------------------------------------------------
  // WellEncoded: an illegal store still asks for the bus
  // ------------------------------------------------------------------------------------------

  /** A store with funct3 6, at address zero. */
  const BAD_STORE := Word(0x0000_6023)

  lemma BadStoreFields()
    ensures Opcode(BAD_STORE) == 0x23 && Funct3(BAD_STORE) == 6 && DecImmS(BAD_STORE) == ZERO
  {}

  /** In EX it drives a write request, though it decodes to no instruction. */
  lemma IllegalStoreRequests(e: Env, c: Core)
    requires c.ex == ExAt(ZERO, BAD_STORE) && c.csr == CsrAt(ZERO, OPEN)
    ensures c.csr.Valid() && !DecLegal(c.ex) && Decode(c.ex.instr) == Illegal && Requesting(e, c) && Request(e, c).we
  {
    hide Opcode, Funct3, Funct5, Funct7, Funct12, DecImmS, DecImmI, DecImmU, StoreData, StoreStrobe, Pmp.Allow, OPEN;
    BadStoreFields();
    forall a, q ensures OPEN.Valid() && Pmp.Allow(OPEN, a, Pmp.MACHINE, q) { OpenAllows(a, q); }
    OpenSize();
    assert AluResult(c.ex) == Sum(ZERO, ZERO);
    assert !Misaligned(Sum(ZERO, ZERO), 6);
    assert DataPriv(c.csr) == Pmp.MACHINE;
  }

  lemma OpenSize()
    ensures OPEN.Valid() && |OPEN.cfg| == Csr.ENTRIES
  {}

  // ------------------------------------------------------------------------------------------
  // NoCsrHazard: MRET behind a write of mepc
  // ------------------------------------------------------------------------------------------

  /** CSRRW x0, mepc, x1 */
  const WRITE_MEPC := Word(0x3410_9073)

  const MRET := Word(0x3020_0073)

  lemma WriteMepcFields()
    ensures Opcode(WRITE_MEPC) == 0x73 && Funct3(WRITE_MEPC) == 1 && Funct12(WRITE_MEPC) == Csr.MEPC
  {}

  lemma MretFields()
    ensures Opcode(MRET) == 0x73 && Funct3(MRET) == 0 && Funct12(MRET) == 0x302
  {}

  lemma NothingPending(mepc: Word, g: Pmp.Regions)
    ensures Csr.PendingIrq(CsrAt(mepc, g), NO_LINES).None?
  {}

  /** MRET completes with mepc 0x100 being written: EX returns to the old mepc, zero. */
  lemma MretReturnsToOldMepc(e: Env, f: F.Fe)
    requires e.trig0 == NO_TRIGGER && e.trig1 == NO_TRIGGER
    ensures var c := CoreWith(f, ExAt(ZERO, MRET), WbAt(ZERO, WRITE_MEPC, Word(0x100)), CsrAt(ZERO, OPEN));
      && c.csr.Valid() && ToWb(e, c, QUIET) && !Exception(e, c, QUIET) && DataPort.WritesMepc(c, NO_LINES)
      && ExTarget(e, c, QUIET) == ZERO && Next(e, c, QUIET).csr.mepc == Word(0x100)
  {
    hide Opcode, Funct3, Funct5, Funct7, Funct12, OPEN, Pmp.Allow, AluResult, ExResult, NextTarget, Csr.PendingIrq,
      NextEx, NextWb, NextResvValid, LrAnswered, AmoAnswered, F.Next, FetchIn, Csr.NextCounters, Set, WbWrite,
      Csr.MstatusWarl, Csr.WriteCfg, Csr.WriteAddr, Csr.CfgSlot, Csr.AddrIndex, Csr.NoTimeBit, Rs1, Misaligned,
      DAllow, CsrIllegal;
    var c := CoreWith(f, ExAt(ZERO, MRET), WbAt(ZERO, WRITE_MEPC, Word(0x100)), CsrAt(ZERO, OPEN));
    WriteMepcFields();
    MretFields();
    OpenSize();
    NothingPending(ZERO, OPEN);
    SilentTriggers(e, c.ex);
    assert LegalEff(c.ex, c.csr);
    assert !Exception(e, c, QUIET) && !TakesIrq(c, QUIET);
    assert WbCommand(c.wb) == Csr.Access(Csr.Addr(Csr.MEPC), Csr.Write, Word(0x100));
    assert Csr.EvenWord(Word(0x100)) == Word(0x100);
  }

  lemma SilentTriggers(e: Env, x: Ex)
    requires e.trig0 == NO_TRIGGER && e.trig1 == NO_TRIGGER
    ensures !TriggerHit(e, x)
  {
    hide AluResult, DecLegal, IsLoad, IsStore, IsSc, IsAmo;
  }

  // ------------------------------------------------------------------------------------------
  // RanksAgree: MRET with an interrupt pending
  // ------------------------------------------------------------------------------------------

  const SOFTWARE := Csr.Ext(true, false, false)

  /** Software interrupts on, trap vector 0x200, mepc 0x100. */
  function Interruptible(g: Pmp.Regions): (k: Csr.State) {
    Csr.State(Word(8), Word(8), Word(0x200), ZERO, ZERO, Word(0x100), ZERO, ZERO, ZERO, Pmp.MACHINE, g)
  }

  lemma SoftwarePending(k: Csr.State)
    requires k.mstatus == Word(8) && k.mie == Word(8) && k.mtvec == Word(0x200)
    ensures Csr.PendingIrq(k, SOFTWARE) == Some(Word(0x8000_0003)) && TrapBase(k.mtvec) == Word(0x200)
    ensures !Vectored(k.mtvec)
  {}

  /** EX steers to the trap vector, and WB returns. */
  lemma MretIsOutrankedInEx(e: Env, c: Core, i: In)
    requires e.trig0 == NO_TRIGGER && e.trig1 == NO_TRIGGER && i.ext == SOFTWARE
    requires c.csr == Interruptible(OPEN) && c.ex == ExAt(ZERO, MRET) && !c.wb.valid
    ensures c.csr.Valid() && ToWb(e, c, i) && !Exception(e, c, i)
    ensures ExTarget(e, c, i) == Word(0x200) && WbCommand(Next(e, c, i).wb) == Csr.Mret && c.csr.mepc == Word(0x100)
  {
    hide Opcode, Funct3, Funct5, Funct7, Funct12, OPEN, Pmp.Allow, AluResult, ExResult, NextTarget, Csr.PendingIrq,
      NextEx, NextResvValid, LrAnswered, AmoAnswered, F.Next, FetchIn, Csr.NextCounters, Set, WbWrite, Csr.Execute,
      Rs1, Misaligned, DAllow, CsrIllegal, TrapBase, Vectored;
    MretFields();
    OpenSize();
    SoftwarePending(c.csr);
    SilentTriggers(e, c.ex);
    assert LegalEff(c.ex, c.csr);
  }

  // ------------------------------------------------------------------------------------------
  // A failing SC
  // ------------------------------------------------------------------------------------------

  /** SC.W x1, x0, (x5) */
  const STORE_COND := Word(0x1802_A0AF)

  lemma StoreCondFields()
    ensures IsSc(STORE_COND) && !IsLoad(STORE_COND) && !IsStore(STORE_COND) && !IsLr(STORE_COND) && !IsAmo(STORE_COND)
    ensures !IsJal(STORE_COND) && !IsJalr(STORE_COND) && !IsEcall(STORE_COND) && !IsEbreak(STORE_COND)
    ensures !IsMret(STORE_COND) && !IsCsrOp(STORE_COND) && !IsWfi(STORE_COND) && IsAtomic(STORE_COND)
    ensures IsLegal(STORE_COND) && Funct3(STORE_COND) == 2 && !Pipeline.Misaligned(Word(0x20), 2)
  {}

  lemma StoreCondAddress(x: Ex)
    requires x.instr == STORE_COND && x.rs1v == Word(0x20)
    ensures AluResult(x) == Word(0x20) && !Taken(x)
  {
    hide DecImmI, DecImmS, DecImmB, DecImmJ, DecImmU;
  }

  /** With 0x10 reserved an SC to 0x20 returns one, and 0x10 stays reserved. */
  lemma FailedScKeeps(e: Env, c: Core)
    requires e.trig0 == NO_TRIGGER && e.trig1 == NO_TRIGGER
    requires c.csr == CsrAt(ZERO, OPEN) && c.ex == ExAt(ZERO, STORE_COND).(rs1v := Word(0x20))
    requires c.resvValid && c.resvAddr == Word(0x10)
    ensures c.csr.Valid()
    ensures var n := Next(e, c, QUIET);
      n.wb.valid && n.wb.scResult == Flag(true) && n.resvValid && n.resvAddr == Word(0x10)
  {
    hide Opcode, Funct3, Funct5, Funct7, Funct12, OPEN, Pmp.Allow, AluResult, ExResult, NextTarget, Csr.PendingIrq,
      NextEx, F.Next, FetchIn, Csr.NextCounters, Set, WbWrite, Csr.Execute, Rs1, Pipeline.Misaligned, DAllow,
      CsrIllegal, IsSc, IsLoad, IsStore, IsLr, IsAmo, IsJal, IsJalr, IsEcall, IsEbreak, IsMret, IsCsrOp, IsWfi,
      IsAtomic, IsLegal, Taken, TriggerHit;
    StoreCondFields();
    StoreCondAddress(c.ex);
    OpenSize();
    SilentTriggers(e, c.ex);
    NothingPending(ZERO, OPEN);
  }

  // ------------------------------------------------------------------------------------------
  // Covered: a PMP write under a buffered word, and mip
  // ------------------------------------------------------------------------------------------

  /** CSRRW x0, pmpcfg0, x1 */
  const WRITE_PMPCFG := Word(0x3A00_9073)

  /** Entry 0 names the word at 0x100 but is off. */
  const ONE_WORD := Pmp.Regions(OPEN.cfg, OPEN.addr[0 := Word(0x40)])

  /** Locked, NA4, no permission. */
  const LOCK_WORD := Word(0x90)

  const CODE := WordAddr(0x40)

  /** The fetch stage is about to serve the buffered NOP at 0x100. */
  const BUFFERED := F.Reset(Word(0x100)).(fbuf := F.Buf(true, CODE, F.FWord(NOP, false)))

  lemma WritePmpcfgFields()
    ensures Opcode(WRITE_PMPCFG) == 0x73 && Funct3(WRITE_PMPCFG) == 1 && Funct12(WRITE_PMPCFG) == 0x3A0
  {}

  lemma OneWordSize()
    ensures |OPEN.cfg| == Csr.ENTRIES && |OPEN.addr| == Csr.ENTRIES && ONE_WORD.Valid() && |ONE_WORD.cfg| == Csr.ENTRIES
    ensures ONE_WORD.cfg[0] == Pmp.Cfg(0) && ONE_WORD.addr[0] == Word(0x40)
  {}

  lemma LockedWord()
    ensures !Pmp.Cfg(0).Locked() && Csr.WarlCfg(Csr.ByteOf(LOCK_WORD, 0)) == Pmp.Cfg(0x90)
    ensures Pmp.Cfg(0x90).Locked() && Pmp.Cfg(0x90).A() == Pmp.NA4 && !Pmp.Cfg(0x90).X()
    ensures Pmp.WordIndex(Word(0x100)) == Pmp.Low30(Word(0x40)) && ByteAddress(CODE) == Word(0x100)
    ensures WordOf(Word(0x100)) == CODE
  {}

  /** After the write the word at 0x100 may not be executed. */
  lemma WordIsDenied()
    ensures ONE_WORD.Valid() && !Pmp.Allow(Csr.WriteCfg(ONE_WORD, 0, LOCK_WORD), Word(0x100), Pmp.MACHINE, Pmp.FETCH)
  {
    hide Pmp.Cfg.Locked, Pmp.Cfg.A, Pmp.Cfg.X, Pmp.WordIndex, Pmp.Low30, Csr.WarlCfg, Csr.ByteOf, Pmp.NapotMatches;
    OneWordSize();
    LockedWord();
    var g := Csr.WriteCfg(ONE_WORD, 0, LOCK_WORD);
    assert g.cfg[0] == Csr.CfgAfter(ONE_WORD, 0, LOCK_WORD, 0) == Pmp.Cfg(0x90);
    assert Pmp.EntryMatches(g, 0, Word(0x100));
    assert Pmp.FirstMatch(g, Word(0x100), 0) == Some(0);
  }

  /** The buffered word is served in the clock of the write and handed to ID as executable, though a
      fetch at the new configuration may not execute it. */
  lemma PmpWriteMissesBuffer(e: Env)
    requires e.imem(CODE) == F.FWord(NOP, false)
    ensures var c := CoreWith(BUFFERED, NO_EX, WbAt(ZERO, WRITE_PMPCFG, LOCK_WORD), CsrAt(ZERO, ONE_WORD));
      && c.csr.Valid()
      && var n := Next(e, c, QUIET);
         && n.fe.idValid && n.fe.id == F.Item(Word(0x100), NOP, false, false)
         && n.csr.Valid() && F.ParseAt(View(e, n.csr.pmp, n.csr.priv), Word(0x100)).err
  {
    hide Opcode, Funct3, Funct12, OPEN, ONE_WORD, Pmp.Allow, NextEx, NextWb, NextResvValid, LrAnswered, AmoAnswered,
      Csr.NextCounters, Set, WbWrite, F.Next, FetchIn, Csr.WriteCfg;
    var c := CoreWith(BUFFERED, NO_EX, WbAt(ZERO, WRITE_PMPCFG, LOCK_WORD), CsrAt(ZERO, ONE_WORD));
    OneWordSize();
    WritePmpcfgFields();
    WordIsDenied();
    LockedWord();
    ServesBuffer(e, c);
    WritesLock(c);
  }

  lemma ServesBuffer(e: Env, c: Core)
    requires c.csr.Valid() && c.fe == BUFFERED && !c.ex.valid
    ensures var n := F.Next(c.fe, FetchIn(e, c, QUIET)); n.idValid && n.id == F.Item(Word(0x100), NOP, false, false)
  {
    hide Pmp.Allow, WordOf, HalfOf, F.IsShort, ByteAddress;
    LockedWord();
    assert !ToWb(e, c, QUIET);
    assert !IsUpper(Word(0x100));
    NopIsLong();
  }

  lemma NopIsLong()
    ensures !F.IsShort(HalfOf(NOP, false))
  {}

  lemma WritesLock(c: Core)
    requires c.csr == CsrAt(ZERO, ONE_WORD) && c.csr.Valid() && c.wb == WbAt(ZERO, WRITE_PMPCFG, LOCK_WORD)
    ensures Csr.Execute(c.csr, c.counters, NO_LINES, WbCommand(c.wb)).pmp == Csr.WriteCfg(ONE_WORD, 0, LOCK_WORD)
    ensures Csr.Execute(c.csr, c.counters, NO_LINES, WbCommand(c.wb)).priv == Pmp.MACHINE
  {
    hide Opcode, Funct3, Funct12, OPEN, ONE_WORD, Csr.WriteCfg, Csr.Read, Csr.MstatusWarl, Csr.WriteAddr;
    WritePmpcfgFields();
    assert WbCommand(c.wb) == Csr.Access(Csr.Addr(0x3A0), Csr.Write, LOCK_WORD);
  }

  /** Two reads of mip agree exactly if the lines do. */
  lemma MipFollowsLines(s: Csr.State, k: Csr.Counters, l: Csr.Ext, m: Csr.Ext)
    requires s.Valid()
    ensures Csr.Read(s, k, l, Csr.Addr(Csr.MIP)) == Csr.Read(s, k, m, Csr.Addr(Csr.MIP)) <==> l == m
  {
    hide Csr.Lo, Csr.Hi, Csr.PackBytes;
    var a, b := Csr.Read(s, k, l, Csr.Addr(Csr.MIP)), Csr.Read(s, k, m, Csr.Addr(Csr.MIP));
    MipBits(l);
    MipBits(m);
    if a == b { assert Csr.MipValue(l) == Csr.MipValue(m); }
  }

  lemma MipBits(l: Csr.Ext)
    ensures var v := Csr.MipValue(l).bits;
      (v & 0x800 != 0 <==> l.meip) && (v & 0x80 != 0 <==> l.mtip) && (v & 0x8 != 0 <==> l.msip)
  {
    if l.meip { if l.mtip {} else {} } else { if l.mtip {} else {} }
  }

  /** CSRRS x1, mip, x0 */
  const READ_MIP := Word(0x3440_20F3)

  lemma ReadMipFields()
    ensures Opcode(READ_MIP) == 0x73 && Funct3(READ_MIP) == 2 && Funct12(READ_MIP) == Csr.MIP && Rd(READ_MIP) == Reg(1)
    ensures Decode(READ_MIP) == Zicsr(Csr.SetBits, Reg(1), Csr.Addr(Csr.MIP), FromReg(X0))
  {}

  lemma ReadMipIsCsrOp()
    ensures IsCsrOp(READ_MIP) && HasResult(READ_MIP)
    ensures !IsLoad(READ_MIP) && !IsStore(READ_MIP) && !IsAtomic(READ_MIP) && !IsLr(READ_MIP) && !IsSc(READ_MIP)
    ensures !IsAmo(READ_MIP) && IsLegal(READ_MIP) && !IsJal(READ_MIP) && !IsJalr(READ_MIP)
  {
    ReadMipFields();
  }

  /** In the interpreter it writes the lines of its own step. */
  lemma ReadMipOutcome(e: Env, a: Arch, io: Io)
    requires e.trig0 == NO_TRIGGER && e.trig1 == NO_TRIGGER && e.imem(WordOf(ZERO)) == F.FWord(READ_MIP, false)
    requires a.pc == ZERO && a.csr == CsrAt(ZERO, OPEN) && a.csr.Valid()
    ensures Outcome(e, a, io).wr == Some(Write(Reg(1), Csr.MipValue(io.ext)))
  {
    hide OPEN, Pmp.Allow, Decode, WordOf, ByteAddress, F.IsShort, HalfOf, Join, Csr.MipValue, Csr.CfgSlot,
      Csr.AddrIndex, Csr.PackBytes, Csr.Lo, Csr.Hi, CounterDenied, Plus;
    OpenAllows(ByteAddress(WordOf(ZERO)), Pmp.FETCH);
    ReadMipParses(e, a);
    ReadMipFields();
  }

  lemma ReadMipParses(e: Env, a: Arch)
    requires e.imem(WordOf(ZERO)) == F.FWord(READ_MIP, false) && a.pc == ZERO && a.csr == CsrAt(ZERO, OPEN)
    requires a.csr.Valid()
    ensures F.ParseAt(View(e, a.csr.pmp, a.csr.priv), ZERO) == ItemAt(ZERO, READ_MIP)
  {
    hide OPEN, Pmp.Allow, Decode;
    OpenAllows(ByteAddress(WordOf(ZERO)), Pmp.FETCH);
    SecondHalf();
  }

  lemma SecondHalf()
    ensures WordOf(Plus(ZERO, 2)) == WordOf(ZERO) && IsUpper(Plus(ZERO, 2)) && !IsUpper(ZERO)
    ensures Join(HalfOf(READ_MIP, true), HalfOf(READ_MIP, false)) == READ_MIP && !F.IsShort(HalfOf(READ_MIP, false))
  {}

  /** The read of mip that leaves EX under lines l writes, in the next clock, the lines m of that clock: what
      the interpreter writes at that instruction exactly if they are the same. */
  lemma MipReadIsLate(e: Env, f: F.Fe, a: Arch, io: Io, m: Csr.Ext)
    requires e.trig0 == NO_TRIGGER && e.trig1 == NO_TRIGGER && e.imem(WordOf(ZERO)) == F.FWord(READ_MIP, false)
    requires a.pc == ZERO && a.csr == CsrAt(ZERO, OPEN)
    ensures var c := CoreWith(f, ExAt(ZERO, READ_MIP), NO_WB, CsrAt(ZERO, OPEN));
      && c.csr.Valid()
      && (WbWrite(Next(e, c, QUIET.(ext := io.ext)), m) == Outcome(e, a, io).wr <==> m == io.ext)
  {
    hide Opcode, Funct3, Funct5, Funct7, Funct12, Rd, Rs1, OPEN, Pmp.Allow, AluResult, ExResult, NextTarget,
      Csr.PendingIrq, NextEx, NextResvValid, LrAnswered, AmoAnswered, F.Next, FetchIn, Csr.NextCounters, Set,
      Csr.MstatusWarl, Csr.WriteCfg, Csr.WriteAddr, Csr.CfgSlot, Csr.AddrIndex, Csr.NoTimeBit, Csr.EvenWord, DAllow,
      Pipeline.Misaligned, IsCsrOp, HasResult, IsLoad, IsStore, IsAtomic, IsLr, IsSc, IsAmo, IsLegal, IsJal, IsJalr,
      Csr.PackBytes, Csr.Lo, Csr.Hi, Csr.MipValue, CsrIllegal, CounterDenied, Outcome;
    var c := CoreWith(f, ExAt(ZERO, READ_MIP), NO_WB, CsrAt(ZERO, OPEN));
    ReadMipFields();
    ReadMipIsCsrOp();
    OpenSize();
    SilentTriggers(e, c.ex);
    ReadMipIsLegal(c.ex, c.csr);
    var n := Next(e, c, QUIET.(ext := io.ext));
    assert WbWrite(n, m) == Some(Write(Reg(1), Csr.MipValue(m)));
    ReadMipOutcome(e, a, io);
    MipFollowsLines(n.csr, n.counters, m, io.ext);
  }

  lemma ReadMipIsLegal(x: Ex, k: Csr.State)
    requires x == ExAt(ZERO, READ_MIP) && k.priv == Pmp.MACHINE
    ensures LegalEff(x, k) && !Taken(x)
  {
    hide IsCsrOp, HasResult, IsLoad, IsStore, IsAtomic, IsLr, IsSc, IsAmo, IsLegal, IsJal, IsJalr, CounterDenied;
    ReadMipFields();
    ReadMipIsCsrOp();
  }

  // ------------------------------------------------------------------------------------------
  // A write to a read-only register
  // ------------------------------------------------------------------------------------------

  /** CSRRW x1, cycle, x0 */
  const WRITE_CYCLE := Word(0xC000_10F3)

  lemma WriteCycleDecodes()
    ensures Decode(WRITE_CYCLE) == Zicsr(Csr.Write, Reg(1), Csr.Addr(Csr.CYCLE), FromReg(X0))
  {}

  /** Machine mode writes zero to cycle, and EX does not report it though it must. */
  lemma WriteOfCycleIsUnreported(k: Csr.State, x: Ex)
    requires k.priv == x.priv == Pmp.MACHINE && x.instr == WRITE_CYCLE
    ensures !PrivIllegal(x, k) && DataPath.MustReport(k, Csr.Write, Csr.Addr(Csr.CYCLE), FromReg(X0))
  {
    hide PrivIllegal, Decode;
    WriteCycleDecodes();
    DataPath.ReadOnlyReported(x, k, Csr.Write, Reg(1), Csr.Addr(Csr.CYCLE), FromReg(X0));
  }
}
