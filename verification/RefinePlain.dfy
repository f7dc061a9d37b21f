/** Instructions that touch neither memory nor CSRs commit as the interpreter says. */
module RefinePlain {
  import opened Words
  import opened Instr
  import opened Decoder
  import F = Fetch
  import Pmp
  import Csr
  import opened Isa
  import opened Pipeline
  import opened DataPath
  import opened System
  import opened Refine
  import opened RefineBase
  import opened RefineCommit

  /** The interrupt decision of EX is the interpreter's. */
  predicate SameIrq(k: Csr.State, l: Csr.State, ext: Csr.Ext) {
    && Csr.PendingIrq(k, ext) == Csr.PendingIrq(l, ext)
    && (Csr.PendingIrq(l, ext).Some? ==> k.mtvec == l.mtvec)
  }

  lemma SameForExIrq(k: Csr.State, l: Csr.State, ext: Csr.Ext)
    requires SameForEx(k, l)
    ensures SameIrq(k, l, ext)
  {
    hide Csr.Mie, Csr.Enabled;
  }

  lemma BreakCommits(e: Env, s: Sys, a: Arch, i: In, io: Io, m: Instr)
    requires s.core.csr.Valid() && a.csr.Valid()
    requires LegalExec(e, s, a, m) && TriggerHit(e, s.core.ex) && SameForEx(s.core.csr, a.csr)
    ensures ToWb(e, s.core, i) && CommitsAs(e, s, i, Outcome(e, a, io))
  {
    hide TriggerHit, BadTarget, LegalEff, IsLoad, IsStore, IsAtomic, DecLegal, AccessRaw, TrapBase, ExResult,
      AluResult, NextTarget, F.ParseAt, View, Isa.Exec, Meaning, Breaks, Denied, FromFetch, CommitsAs, Csr.PendingIrq,
      Pipeline.Misaligned, DAllow;
    TriggerAgrees(e, s, a, m);
    Faulted(e, s, a, i, 3, ZERO);
  }

  lemma DeniedCommits(e: Env, s: Sys, a: Arch, i: In, io: Io, m: Instr)
    requires s.core.csr.Valid() && a.csr.Valid()
    requires LegalExec(e, s, a, m) && !TriggerHit(e, s.core.ex) && SameForEx(s.core.csr, a.csr) && Denied(a.csr, m)
    ensures ToWb(e, s.core, i) && CommitsAs(e, s, i, Outcome(e, a, io))
  {
    hide TriggerHit, IsLoad, IsStore, IsAtomic, DoneErr, DoneMisaligned, ToWb, ExecToWb, MemToWb, AmoToWb,
      PrivIllegal, DecLegal, TrapBase, ExResult, AluResult, NextTarget, F.ParseAt, View, Isa.Exec, Meaning, Breaks,
      FromFetch, CommitsAs, IsJal, IsJalr, Taken, IsSc, IsAmo, Holding, CsrDenied, Csr.PendingIrq;
    TriggerAgrees(e, s, a, m);
    MemoryFlags(s.core.ex, m);
    DeniedAgrees(s.core.ex, m, s.core.csr);
    DeniedSame(s.core.csr, a.csr, m);
    NoAccess(e, s.core, i);
    Faulted(e, s, a, i, 2, s.core.ex.item.raw);
  }

  lemma DeniedSame(k: Csr.State, l: Csr.State, m: Instr)
    requires SameForEx(k, l)
    ensures Denied(k, m) <==> Denied(l, m)
  {
    hide Csr.Tw, CounterDenied;
  }

  /** What an instruction without memory access or CSR operation writes to its register. */
  lemma ValueWritten(e: Env, c: Core, i: In, m: Instr)
    requires c.csr.Valid() && Holding(c.ex, m) && !IsAccess(m) && !m.Zicsr?
    requires ExecToWb(e, c) && ToWb(e, c, i) && !Exception(e, c, i)
    ensures WbWrite(Next(e, c, i), NO_EXT)
         == if Destination(m).Some? then Some(Write(Destination(m).value, ExResult(c.ex))) else None
  {
    hide Holding, ExecToWb, ToWb, MemToWb, AmoToWb, TriggerHit, DoneErr, DoneMisaligned, BadTarget, LegalEff,
      ExResult, AluResult, NextTarget, HasResult, IsLoad, IsLr, IsCsrOp, IsSc, IsAmo, Rd, Rs1, Funct3, ScSucceeds,
      Csr.PendingIrq, NextEx, F.Next, FetchIn, Csr.Execute, Csr.NextCounters, LrAnswered, AmoAnswered, Set,
      NextResvValid, CsrInput, Destination;
    MemoryFlags(c.ex, m);
    SystemFlags(c.ex, m);
    DestinationAgrees(c.ex, m);
  }

  /** The instruction goes somewhere else than to its successor. */
  predicate Transfers(x: Ex, m: Instr) { m.Jal? || m.Jalr? || (m.Branch? && Holds(m.cond, x.rs1v, x.rs2v)) }

  predicate Simple(m: Instr) { Plain(m) || m.Wfi? }

  function Written(x: Ex, m: Instr): (r: Option<Write>) {
    if Destination(m).Some? then Some(Write(Destination(m).value, Value(x, m))) else None
  }

  /** The interpreter's outcome of a simple instruction, in terms of EX's operands. */
  lemma SimpleMeaning(e: Env, a: Arch, io: Io, x: Ex, m: Instr)
    requires a.csr.Valid() && Simple(m) && Holding(x, m) && a.pc == x.item.pc
    requires x.rs1v == Get(a.regs, Rs1(x.instr)) && x.rs2v == Get(a.regs, Rs2(x.instr))
    ensures Isa.Exec(e, a, io, x.item, m) ==
      if Transfers(x, m) && IsOdd(Target(x, m)) then Faults(a, 0, Target(x, m))
      else Completes(a, io, Target(x, m), Written(x, m), a.ram, if Transfers(x, m) then None else a.resv)
  {
    hide Holding, Get, Rs1, Rs2, Completes, Faults, Sum, EvenBelow, Compute, Multiply, Holds, F.After, IsOdd,
      DataAddress, IsAccess, Address;
    SourceValues(x, a.regs, m);
  }

  lemma SimpleFlags(e: Env, c: Core, i: In, m: Instr)
    requires c.csr.Valid() && c.ex.valid && c.ex.st == ExState.Exec && !c.ex.err && !c.ex.misaligned && !c.ex.item.err
    requires Holding(c.ex, m) && Simple(m) && DecLegal(c.ex) && !TriggerHit(e, c.ex) && !PrivIllegal(c.ex, c.csr)
    ensures ToWb(e, c, i) && ExecToWb(e, c) && !MemToWb(c, i) && !LrAnswered(c, i)
    ensures Exception(e, c, i) <==> BadTarget(c.ex, c.csr)
    ensures BadTarget(c.ex, c.csr) <==> Transfers(c.ex, m) && IsOdd(Target(c.ex, m))
    ensures !DoneErr(e, c, i) && !DoneMisaligned(e, c) && LegalEff(c.ex, c.csr)
    ensures IsJal(c.ex.instr) || IsJalr(c.ex.instr) || Taken(c.ex) <==> Transfers(c.ex, m)
    ensures NextTarget(c.ex) == Target(c.ex, m)
    ensures Destination(m).Some? ==> ExResult(c.ex) == Value(c.ex, m)
  {
    hide TriggerHit, IsLoad, IsStore, IsAtomic, DoneErr, DoneMisaligned, ToWb, ExecToWb, MemToWb, AmoToWb,
      PrivIllegal, DecLegal, ExResult, NextTarget, IsJal, IsJalr, Taken, Holding, Target, Value, IsOdd, Holds,
      LrAnswered;
    MemoryFlags(c.ex, m);
    NoAccess(e, c, i);
    TargetAgrees(c.ex, m);
    if Destination(m).Some? { ResultAgrees(c.ex, m); }
  }

  /** A pending CSR write, if any, does not matter to this instruction. */
  predicate Undisturbed(e: Env, c: Core, a: Arch, i: In, m: Instr)
    requires c.csr.Valid()
  {
    SameForEx(c.csr, a.csr) ||
    (Plain(m) && !BadTarget(c.ex, c.csr) && Csr.PendingIrq(c.csr, i.ext).None? && Csr.PendingIrq(a.csr, i.ext).None?)
  }

  lemma UndisturbedTarget(e: Env, c: Core, a: Arch, i: In, m: Instr)
    requires c.csr.Valid() && Undisturbed(e, c, a, i, m) && BadTarget(c.ex, c.csr)
    ensures SameForEx(c.csr, a.csr)
  {
    hide BadTarget, Plain, Csr.PendingIrq, SameForEx;
  }

  lemma SimpleNotDenied(e: Env, c: Core, a: Arch, i: In, m: Instr)
    requires c.csr.Valid() && Holding(c.ex, m) && Simple(m) && c.ex.priv == a.csr.priv
    requires Undisturbed(e, c, a, i, m)
    ensures PrivIllegal(c.ex, c.csr) <==> Denied(a.csr, m)
    ensures SameIrq(c.csr, a.csr, i.ext)
  {
    hide Holding, IsMret, IsWfi, IsCsrOp, CsrIllegal, BadTarget, Csr.PendingIrq, Csr.Tw;
    SystemFlags(c.ex, m);
    if SameForEx(c.csr, a.csr) { SameForExIrq(c.csr, a.csr, i.ext); }
  }

  lemma BadTargetCommits(e: Env, s: Sys, a: Arch, i: In, target: Word)
    requires s.core.csr.Valid() && a.pc == s.core.ex.item.pc && s.ram == a.ram
    requires ToWb(e, s.core, i) && BadTarget(s.core.ex, s.core.csr) && !s.core.ex.item.err && !TriggerHit(e, s.core.ex)
    requires !DoneErr(e, s.core, i) && !DoneMisaligned(e, s.core) && SameForEx(s.core.csr, a.csr)
    requires target == NextTarget(s.core.ex)
    ensures CommitsAs(e, s, i, Faults(a, 0, target))
  {
    hide TriggerHit, DoneErr, DoneMisaligned, ToWb, ExecToWb, MemToWb, AmoToWb, LegalEff, BadTarget, TrapBase,
      ExResult, AluResult, NextTarget, CommitsAs, Csr.PendingIrq;
    Faulted(e, s, a, i, 0, target);
  }

  lemma SimpleResv(e: Env, c: Core, a: Arch, i: In, m: Instr)
    requires c.csr.Valid() && ToWb(e, c, i) && !Exception(e, c, i) && !LrAnswered(c, i) && c.ex.st == ExState.Exec
    requires Holding(c.ex, m) && Simple(m) && ResvOk(c, a) && Csr.PendingIrq(c.csr, i.ext).None?
    requires IsJal(c.ex.instr) || IsJalr(c.ex.instr) || Taken(c.ex) <==> Transfers(c.ex, m)
    ensures ResvAfter(e, c, i) == if Transfers(c.ex, m) then None else a.resv
  {
    hide Exception, ToWb, LrAnswered, Holding, Simple, IsJal, IsJalr, Taken, IsEcall, IsEbreak, IsMret, IsCsrOp,
      Transfers, Csr.PendingIrq;
    SimpleIsNotSystem(m);
    SystemFlags(c.ex, m);
  }

  lemma SimpleIsNotSystem(m: Instr)
    requires Simple(m)
    ensures !m.Ecall? && !m.Ebreak? && !m.Mret? && !m.Zicsr? && !IsAccess(m)
  {}

  lemma Straight(x: Ex, m: Instr)
    requires !Transfers(x, m)
    ensures Target(x, m) == F.After(x.item)
  {
    hide Holds, F.After, Sum, EvenBelow;
  }

  /** Arithmetic, jumps, branches, fences and waits. */
  lemma SimpleCommits(e: Env, s: Sys, a: Arch, i: In, io: Io, m: Instr)
    requires s.core.csr.Valid() && a.csr.Valid()
    requires LegalExec(e, s, a, m) && !TriggerHit(e, s.core.ex) && Simple(m) && !Denied(a.csr, m)
    requires Undisturbed(e, s.core, a, i, m) && io.ext == i.ext
    ensures ToWb(e, s.core, i) && CommitsAs(e, s, i, Outcome(e, a, io))
  {
    hide TriggerHit, DoneErr, DoneMisaligned, ToWb, ExecToWb, MemToWb, AmoToWb, PrivIllegal, DecLegal, BadTarget,
      TrapBase, ExResult, AluResult, NextTarget, F.ParseAt, View, Isa.Exec, Meaning, Breaks, FromFetch, CommitsAs,
      IsJal, IsJalr, Taken, Holding, Transfers, IsEcall, IsEbreak, IsMret, IsCsrOp, IsAccess, Csr.PendingIrq, Get,
      Rs1, Rs2, F.After, Holds, Target, IsOdd, Value, Completes, Faults, Denied, LegalEff, LrAnswered, Simple,
      WbWrite, Next, Exception, Undisturbed;
    var x := s.core.ex;
    TriggerAgrees(e, s, a, m);
    SimpleNotDenied(e, s.core, a, i, m);
    SimpleFlags(e, s.core, i, m);
    SimpleMeaning(e, a, io, x, m);
    if Transfers(x, m) && IsOdd(Target(x, m)) {
      UndisturbedTarget(e, s.core, a, i, m);
      BadTargetCommits(e, s, a, i, Target(x, m));
    } else {
      SimpleIsNotSystem(m);
      SystemFlags(x, m);
      ValueWritten(e, s.core, i, m);
      if !Transfers(x, m) { Straight(x, m); }
      if Csr.PendingIrq(s.core.csr, i.ext).None? { SimpleResv(e, s.core, a, i, m); }
      Finished(e, s, a, i, io, Target(x, m), Written(x, m), a.ram, if Transfers(x, m) then None else a.resv);
    }
  }
}
