/** The operands an instruction takes from ID to EX are the architectural register values after
    every older instruction, wherever the bypass network finds them. */
module RefineBypass {
  import opened Words
  import opened Instr
  import opened Decoder
  import F = Fetch
  import Pmp
  import Csr
  import opened Isa
  import opened Pipeline
  import opened Refine
  import opened RefineBase
  import opened RefineSystem

  lemma SameIndex(p: Reg, q: Reg)
    requires p.n as int == q.n as int
    ensures p == q
  {
    assert (p.n as int) as bv5 == p.n;
    assert (q.n as int) as bv5 == q.n;
  }

  lemma GetSet(regs: Regs, w: Option<Write>, r: Reg)
    ensures Get(Set(regs, w), r) == if w.Some? && r != X0 && w.value.rd == r then w.value.v else Get(regs, r)
  {
    if w.Some? && w.value.rd.n as int == r.n as int { SameIndex(w.value.rd, r); }
  }

  lemma ForwardIsWritten(e: Env, c: Core, i: In, l: Csr.Ext)
    requires c.csr.Valid() && ForwardValid(e, c) && ToWb(e, c, i) && !Redirect(e, c, i)
    ensures WbWrite(Next(e, c, i), l) == Some(Write(Rd(c.ex.instr), ExResult(c.ex)))
  {
    hide DecLegal, LegalEff, BadTarget, TriggerHit, DoneErr, DoneMisaligned, DAllow, Pipeline.Misaligned, ExResult,
      AluResult, NextTarget, Taken, Next, IsAluReg, IsAluImm, IsLui, IsAuipc, IsJal, IsJalr, IsLoad, IsStore,
      IsAtomic, IsSystem, Rd, Rs1, Funct3, Funct5, Csr.PendingIrq, LoadResult, IsEcall, IsEbreak, IsMret, CsrAddr;
    NextWbIs(e, c, i);
  }

  lemma WrittenRegister(e: Env, c: Core, i: In, l: Csr.Ext)
    requires c.csr.Valid() && ToWb(e, c, i) && WbWrite(Next(e, c, i), l).Some?
    ensures WbWrite(Next(e, c, i), l).value.rd == Rd(c.ex.instr)
  {
    hide LegalEff, BadTarget, TriggerHit, DoneErr, DoneMisaligned, ExResult, AluResult, NextTarget, Next, HasResult,
      Rd, Rs1, Funct3, Csr.PendingIrq, WbResult, ToWb, ExecToWb, MemToWb, AmoToWb, ScSucceeds;
    NextWbIs(e, c, i);
  }

  /** The registers once WB has written in this clock, and the instruction leaving EX in the next one,
      in which the interrupt lines are l. */
  function Settling(e: Env, c: Core, i: In, l: Csr.Ext): (r: Regs)
    requires c.csr.Valid()
  {
    Set(Set(c.regs, WbWrite(c, i.ext)), if ToWb(e, c, i) then WbWrite(Next(e, c, i), l) else None)
  }

  /** In any state, whatever the producers are. */
  lemma OperandReady(e: Env, c: Core, i: In, l: Csr.Ext, r: Reg)
    requires c.csr.Valid() && IdFire(e, c, i)
    requires r == Rs1(IdInstr(c.fe)) || r == Rs2(IdInstr(c.fe))
    ensures Operand(e, c, i.ext, r) == Get(Settling(e, c, i, l), r)
  {
    hide ForwardValid, ToWb, Redirect, WritesRd, WbResult, Get, Set, Next, Rd, Rs1, Rs2, IdInstr, ExResult;
    var w0 := WbWrite(c, i.ext);
    var w1 := if ToWb(e, c, i) then WbWrite(Next(e, c, i), l) else None;
    GetSet(c.regs, w0, r);
    GetSet(Set(c.regs, w0), w1, r);
    NeedsEx(e, c, i);
    if ToWb(e, c, i) {
      if w1.Some? { WrittenRegister(e, c, i, l); }
      if ForwardValid(e, c) { ForwardIsWritten(e, c, i, l); }
    }
  }

  /** In any state, the operands an instruction takes to EX are its source registers of the register file
      two clocks later, when every older instruction has written. */
  lemma OperandsAreRegisters(e: Env, c: Core, i: In, j: In)
    requires c.csr.Valid() && IdFire(e, c, i)
    ensures var n := Next(e, c, i); var later := Next(e, n, j).regs;
      && n.ex.instr == IdInstr(c.fe)
      && n.ex.rs1v == Get(later, Rs1(n.ex.instr)) && n.ex.rs2v == Get(later, Rs2(n.ex.instr))
  {
    hide IdFire, ToWb, Operand, Get, Set, WbWrite, Rs1, Rs2, IdInstr, IdBadC, F.Next, FetchIn, Csr.Execute,
      Csr.NextCounters, NextWb, NextResvValid, LrAnswered, AmoAnswered;
    OperandReady(e, c, i, j.ext, Rs1(IdInstr(c.fe)));
    OperandReady(e, c, i, j.ext, Rs2(IdInstr(c.fe)));
    if !ToWb(e, c, i) { BubbleWrites(e, c, i, j.ext); }
  }

  lemma BubbleWrites(e: Env, c: Core, i: In, l: Csr.Ext)
    requires c.csr.Valid() && !ToWb(e, c, i)
    ensures WbWrite(Next(e, c, i), l).None?
  {
    hide ToWb, NextEx, F.Next, FetchIn, Csr.Execute, Csr.NextCounters, NextResvValid, LrAnswered, AmoAnswered, Set,
      HasResult, WbResult;
  }

  lemma NeedsEx(e: Env, c: Core, i: In)
    requires c.csr.Valid()
    ensures ForwardValid(e, c) || ToWb(e, c, i) ==> c.ex.valid
  {
    hide DecLegal, BadTarget, TriggerHit, MemAccess, RspFire;
  }
}
