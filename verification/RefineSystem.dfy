/** ECALL, EBREAK, MRET and CSR instructions commit as the interpreter says. */
module RefineSystem {
  import opened Words
  import opened Instr
  import opened Decoder
  import F = Fetch
  import Pmp
  import Csr
  import opened Isa
  import opened Pipeline
  import opened DataPath
  import opened System
  import opened Refine
  import opened RefineBase
  import opened RefineCommit
  import opened RefinePlain

  predicate IsSystemOp(m: Instr) { m.Ecall? || m.Ebreak? || m.Mret? || m.Zicsr? }

  lemma SystemOps(x: Ex, m: Instr)
    requires Holding(x, m) && IsSystemOp(m)
    ensures !IsLoad(x.instr) && !IsStore(x.instr) && !IsAtomic(x.instr) && !IsLr(x.instr) && !IsSc(x.instr)
        && !IsAmo(x.instr)
    ensures !IsJal(x.instr) && !IsJalr(x.instr) && !Taken(x)
    ensures IsEcall(x.instr) <==> m.Ecall?
    ensures IsEbreak(x.instr) <==> m.Ebreak?
    ensures IsMret(x.instr) <==> m.Mret?
    ensures IsCsrOp(x.instr) <==> m.Zicsr?
    ensures HasResult(x.instr) <==> m.Zicsr?
  {
    hide Holding, IsLoad, IsStore, IsAtomic, IsLr, IsSc, IsAmo, IsJal, IsJalr, Taken, IsEcall, IsEbreak, IsMret,
      IsCsrOp, HasResult;
    MemoryFlags(x, m);
    SystemFlags(x, m);
    TargetAgrees(x, m);
    DestinationAgrees(x, m);
  }

  /** A system instruction that reaches WB without exception. */
  lemma SystemFlow(e: Env, c: Core, i: In, m: Instr)
    requires c.csr.Valid() && c.ex.valid && c.ex.st == ExState.Exec && !c.ex.err && !c.ex.misaligned && !c.ex.item.err
    requires Holding(c.ex, m) && IsSystemOp(m) && DecLegal(c.ex) && !TriggerHit(e, c.ex) && !PrivIllegal(c.ex, c.csr)
    ensures ToWb(e, c, i) && !Exception(e, c, i) && !LrAnswered(c, i)
    ensures !DoneErr(e, c, i) && !DoneMisaligned(e, c) && LegalEff(c.ex, c.csr) && !BadTarget(c.ex, c.csr)
  {
    hide TriggerHit, IsLoad, IsStore, IsAtomic, DoneErr, DoneMisaligned, ToWb, ExecToWb, MemToWb, AmoToWb,
      PrivIllegal, DecLegal, NextTarget, IsJal, IsJalr, Taken, Holding, LrAnswered, IsSystemOp;
    SystemOps(c.ex, m);
    NoAccess(e, c, i);
  }

  lemma SystemNotDenied(e: Env, s: Sys, a: Arch, m: Instr)
    requires s.core.csr.Valid() && a.csr.Valid()
    requires LegalExec(e, s, a, m) && SameForEx(s.core.csr, a.csr) && !Denied(a.csr, m)
    ensures !PrivIllegal(s.core.ex, s.core.csr)
  {
    hide Denied, PrivIllegal, Holding, Breaks, TriggerHit, F.ParseAt, FromFetch, MemOk, ResvOk, DecLegal, Meaning;
    DeniedSame(s.core.csr, a.csr, m);
    DeniedAgrees(s.core.ex, m, s.core.csr);
  }

  /** A system instruction that is not denied leaves EX at once, without exception. */
  lemma SystemCompletes(e: Env, s: Sys, a: Arch, i: In, m: Instr)
    requires s.core.csr.Valid() && a.csr.Valid()
    requires LegalExec(e, s, a, m) && !TriggerHit(e, s.core.ex) && IsSystemOp(m) && !Denied(a.csr, m)
    requires SameForEx(s.core.csr, a.csr)
    ensures ToWb(e, s.core, i) && !Exception(e, s.core, i)
  {
    hide Denied, PrivIllegal, Holding, Breaks, TriggerHit, F.ParseAt, FromFetch, ResvOk, DecLegal, Meaning, ToWb,
      Exception, IsSystemOp;
    SystemNotDenied(e, s, a, m);
    SystemFlow(e, s.core, i, m);
  }

  lemma CallCommits(e: Env, s: Sys, a: Arch, i: In, io: Io, m: Instr)
    requires s.core.csr.Valid() && a.csr.Valid()
    requires LegalExec(e, s, a, m) && !TriggerHit(e, s.core.ex) && (m.Ecall? || m.Ebreak?)
    requires SameForEx(s.core.csr, a.csr) && RanksAgree(s.core, i)
    ensures ToWb(e, s.core, i) && CommitsAs(e, s, i, Outcome(e, a, io))
  {
    hide TriggerHit, DoneErr, DoneMisaligned, ToWb, ExecToWb, MemToWb, AmoToWb, PrivIllegal, DecLegal, BadTarget,
      LegalEff, Exception, TrapBase, ExResult, AluResult, NextTarget, F.ParseAt, View, Meaning, Breaks, FromFetch,
      Completes, Rs1, Funct3, ScSucceeds, IsJal, IsJalr, Taken, Holding, IsEcall, IsEbreak, IsMret, IsCsrOp,
      HasResult, Csr.PendingIrq, Get, F.After, LrAnswered, AmoAnswered, Vectored, Sum, Next, WbResult, DataAddress,
      IsAccess, IsStore, IsAmo, IsSc;
    TriggerAgrees(e, s, a, m);
    SystemNotDenied(e, s, a, m);
    SystemOps(s.core.ex, m);
    SystemFlow(e, s.core, i, m);
    NextWbIs(e, s.core, i);
  }

  lemma NextWbIs(e: Env, c: Core, i: In)
    requires c.csr.Valid() && ToWb(e, c, i)
    ensures Next(e, c, i).wb == Completed(e, c, i)
  {
    hide ToWb, Completed, NextEx, F.Next, FetchIn, Csr.Execute, Csr.NextCounters, LrAnswered, AmoAnswered, Set,
      NextResvValid, CsrInput, WbWrite, WbCommand;
  }

  lemma MretCommits(e: Env, s: Sys, a: Arch, i: In, io: Io, m: Instr)
    requires s.core.csr.Valid() && a.csr.Valid()
    requires LegalExec(e, s, a, m) && !TriggerHit(e, s.core.ex) && m.Mret? && !Denied(a.csr, m)
    requires SameForEx(s.core.csr, a.csr) && RanksAgree(s.core, i)
    ensures ToWb(e, s.core, i) && CommitsAs(e, s, i, Outcome(e, a, io))
  {
    hide TriggerHit, DoneErr, DoneMisaligned, ToWb, ExecToWb, MemToWb, AmoToWb, PrivIllegal, DecLegal, BadTarget,
      LegalEff, Exception, TrapBase, ExResult, AluResult, NextTarget, F.ParseAt, View, Meaning, Breaks, FromFetch,
      Completes, Rs1, Funct3, ScSucceeds, IsJal, IsJalr, Taken, Holding, IsEcall, IsEbreak, IsMret, IsCsrOp,
      HasResult, Csr.PendingIrq, Get, F.After, LrAnswered, AmoAnswered, Vectored, Sum, Next, WbResult, DataAddress,
      IsAccess, IsStore, IsAmo, IsSc, Denied;
    TriggerAgrees(e, s, a, m);
    SystemNotDenied(e, s, a, m);
    SystemOps(s.core.ex, m);
    SystemFlow(e, s.core, i, m);
    NextWbIs(e, s.core, i);
  }

  /** CSR state, counters and lines a CSR instruction reads when it is in WB. */
  lemma CsrWritten(e: Env, c: Core, i: In, m: Instr, k: Csr.State, io: Io)
    requires c.csr.Valid() && k.Valid() && Holding(c.ex, m) && m.Zicsr? && ToWb(e, c, i) && !Exception(e, c, i)
    requires Next(e, c, i).csr == k && Next(e, c, i).counters == io.counters && Covered(m.csr)
    ensures WbWrite(Next(e, c, i), NO_EXT) == Some(Write(m.rd, Csr.Read(k, io.counters, io.ext, m.csr)))
  {
    hide Holding, ToWb, ExecToWb, MemToWb, AmoToWb, TriggerHit, DoneErr, DoneMisaligned, BadTarget, LegalEff,
      ExResult, AluResult, NextTarget, HasResult, IsLoad, IsLr, IsCsrOp, IsSc, IsAmo, Rd, Rs1, Funct3, ScSucceeds,
      Csr.PendingIrq, Next, Csr.Read, Covered, LoadResult, CsrAddr;
    SystemOps(c.ex, m);
    CsrFields(c.ex, m);
    NextWbIs(e, c, i);
    ReadIgnoresLines(k, io.counters, io.ext, NO_EXT, m.csr);
  }

  lemma CsrCommits(e: Env, s: Sys, a: Arch, i: In, io: Io, m: Instr)
    requires s.core.csr.Valid() && a.csr.Valid()
    requires LegalExec(e, s, a, m) && !TriggerHit(e, s.core.ex) && m.Zicsr? && !Denied(a.csr, m) && Covered(m.csr)
    requires SameForEx(s.core.csr, a.csr)
    requires Next(e, s.core, i).csr == a.csr && Next(e, s.core, i).counters == io.counters
    ensures ToWb(e, s.core, i) && CommitsAs(e, s, i, Outcome(e, a, io))
  {
    hide TriggerHit, DoneErr, DoneMisaligned, ToWb, ExecToWb, MemToWb, AmoToWb, PrivIllegal, DecLegal, BadTarget,
      LegalEff, Exception, TrapBase, ExResult, AluResult, NextTarget, F.ParseAt, View, Meaning, Breaks, FromFetch,
      Completes, ScSucceeds, IsJal, IsJalr, Taken, Holding, IsEcall, IsEbreak, IsMret, IsCsrOp, HasResult,
      Csr.PendingIrq, Get, F.After, LrAnswered, AmoAnswered, Vectored, Sum, Next, WbWrite, DataAddress, IsAccess,
      IsStore, IsAmo, IsSc, Denied, Covered, Csr.Read, CsrAddr, CsrOpOf, Rs1, Funct3;
    var x := s.core.ex;
    TriggerAgrees(e, s, a, m);
    SystemNotDenied(e, s, a, m);
    SystemOps(x, m);
    SystemFlow(e, s.core, i, m);
    CsrFields(x, m);
    SourceValues(x, a.regs, m);
    CsrWritten(e, s.core, i, m, a.csr, io);
  }
}
