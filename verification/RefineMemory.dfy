/** Loads, stores and atomics commit as the interpreter says. */
module RefineMemory {
  import opened Words
  import opened Instr
  import opened Decoder
  import F = Fetch
  import Pmp
  import Csr
  import opened Isa
  import opened Pipeline
  import opened Memory
  import opened DataPath
  import opened System
  import opened Refine
  import opened RefineBase
  import opened RefineCommit
  import opened RefinePlain
  import opened RefineSystem

  predicate Reads(m: Instr) { m.Load? || m.Lr? || m.Amo? }

  predicate Writes(m: Instr) { m.Store? || m.Sc? || m.Amo? }

  // ------------------------------------------------------------------------------------------
  // The interpreter's view of an access
  // ------------------------------------------------------------------------------------------

  /** EX's operands are the interpreter's. */
  predicate SameOperands(x: Ex, a: Arch) {
    a.pc == x.item.pc && x.rs1v == Get(a.regs, Rs1(x.instr)) && x.rs2v == Get(a.regs, Rs2(x.instr))
  }

  lemma MisalignedMeaning(e: Env, a: Arch, io: Io, x: Ex, m: Instr)
    requires a.csr.Valid() && IsAccess(m) && Holding(x, m) && SameOperands(x, a)
    requires !Isa.Aligned(AccessWidth(m), Address(x, m))
    ensures Isa.Exec(e, a, io, x.item, m) == Faults(a, if m.Store? then 6 else 4, Address(x, m))
  {
    hide Holding, Get, Rs1, Rs2, Completes, Faults, Sum, F.After, DataAddress, Address, MayAccess, ReadAnswer,
      WriteError, Isa.Aligned, Extract, StoreRam, AmoResult;
    SourceValues(x, a.regs, m);
  }

  lemma DeniedMeaning(e: Env, a: Arch, io: Io, x: Ex, m: Instr)
    requires a.csr.Valid() && IsAccess(m) && Holding(x, m) && SameOperands(x, a)
    requires Isa.Aligned(AccessWidth(m), Address(x, m)) && (m.Sc? ==> a.resv == Some(Address(x, m)))
    requires !MayAccess(a.csr, Address(x, m), Reads(m), Writes(m))
    ensures Isa.Exec(e, a, io, x.item, m) == Faults(a, if Writes(m) then 7 else 5, Address(x, m))
  {
    hide Holding, Get, Rs1, Rs2, Completes, Faults, Sum, F.After, DataAddress, Address, MayAccess, ReadAnswer,
      WriteError, Isa.Aligned, Extract, StoreRam, AmoResult;
    SourceValues(x, a.regs, m);
  }

  lemma FailedScMeaning(e: Env, a: Arch, io: Io, x: Ex, m: Instr)
    requires a.csr.Valid() && m.Sc? && Holding(x, m) && SameOperands(x, a)
    requires Isa.Aligned(W, Address(x, m)) && a.resv != Some(Address(x, m))
    ensures Isa.Exec(e, a, io, x.item, m)
         == Completes(a, io, F.After(x.item), Some(Write(m.rd, Flag(true))), a.ram, a.resv)
  {
    hide Holding, Get, Rs1, Rs2, Completes, Faults, Sum, F.After, DataAddress, Address, MayAccess, ReadAnswer,
      WriteError, Isa.Aligned, Extract, StoreRam, AmoResult, Flag;
    SourceValues(x, a.regs, m);
  }

  // ------------------------------------------------------------------------------------------
  // Accesses that never reach the bus
  // ------------------------------------------------------------------------------------------

  lemma AccessFlags(x: Ex, m: Instr)
    requires Holding(x, m) && IsAccess(m)
    ensures AluResult(x) == Address(x, m) && ExResult(x) == Address(x, m)
    ensures Pipeline.Misaligned(Address(x, m), Funct3(x.instr)) <==> !Isa.Aligned(AccessWidth(m), Address(x, m))
    ensures (IsLoad(x.instr) <==> m.Load?) && (IsStore(x.instr) <==> m.Store?) && (IsLr(x.instr) <==> m.Lr?)
    ensures (IsSc(x.instr) <==> m.Sc?) && (IsAmo(x.instr) <==> m.Amo?)
    ensures IsAtomic(x.instr) <==> m.Lr? || m.Sc? || m.Amo?
    ensures !IsEcall(x.instr) && !IsEbreak(x.instr) && !IsMret(x.instr) && !IsCsrOp(x.instr) && !IsWfi(x.instr)
    ensures !IsJal(x.instr) && !IsJalr(x.instr) && !Taken(x) && NextTarget(x) == F.After(x.item)
    ensures (HasResult(x.instr) <==> Destination(m).Some?) && (Destination(m).Some?
        ==> Destination(m).value == Rd(x.instr))
  {
    hide Holding, Address, Isa.Aligned, Pipeline.Misaligned, Funct3, Rd, Rs1, Rs2, AluResult, ExResult, NextTarget,
      F.After, IsEcall, IsEbreak, IsMret, IsCsrOp, IsWfi, IsJal, IsJalr, Taken, HasResult, IsLoad, IsStore, IsLr,
      IsSc, IsAmo, IsAtomic;
    MemoryFlags(x, m);
    SystemFlags(x, m);
    AddressAgrees(x, m);
    MisalignedAgrees(x, m, Address(x, m));
    TargetAgrees(x, m);
    DestinationAgrees(x, m);
  }

  lemma PermissionAgrees(x: Ex, k: Csr.State, l: Csr.State, m: Instr)
    requires k.Valid() && l.Valid() && Holding(x, m) && IsAccess(m) && SameForEx(k, l)
    ensures DAllow(x, k) <==> MayAccess(l, Address(x, m), Reads(m), Writes(m))
  {
    hide Holding, Address, AluResult, Pmp.Allow, Csr.Mprv, Csr.Mpp, IsLoad, IsStore, IsLr, IsSc, IsAmo;
    MemoryFlags(x, m);
    AddressAgrees(x, m);
  }

  lemma OutcomeIsExec(e: Env, s: Sys, a: Arch, io: Io, m: Instr)
    requires s.core.csr.Valid() && a.csr.Valid()
    requires ExOk(e, s.core, a) && s.core.ex.valid && a.pc == s.core.ex.item.pc
    requires !s.core.ex.item.err && m == Meaning(s.core.ex.item) && m != Illegal && !Breaks(e, a, m)
        && !Denied(a.csr, m)
    ensures Outcome(e, a, io) == Isa.Exec(e, a, io, s.core.ex.item, m)
  {
    hide F.ParseAt, View, Meaning, Breaks, Denied, FromFetch, Isa.Exec, Rs1, Rs2, Get, F.After, Faults;
  }

  /** An instruction that faults in EX without having used the data bus. */
  lemma MisalignedCommits(e: Env, s: Sys, a: Arch, i: In, io: Io, m: Instr)
    requires s.core.csr.Valid() && a.csr.Valid()
    requires LegalExec(e, s, a, m) && !TriggerHit(e, s.core.ex) && IsAccess(m) && SameForEx(s.core.csr, a.csr)
    requires !Isa.Aligned(AccessWidth(m), Address(s.core.ex, m))
    ensures ToWb(e, s.core, i) && CommitsAs(e, s, i, Outcome(e, a, io))
  {
    hide TriggerHit, BadTarget, LegalEff, DecLegal, TrapBase, ExResult, AluResult, NextTarget, Address, Isa.Aligned,
      Pipeline.Misaligned, F.ParseAt, View, Isa.Exec, Outcome, Meaning, Breaks, FromFetch, CommitsAs, Csr.PendingIrq,
      DAllow, IsLoad, IsStore, IsAtomic, IsAmo, IsSc, IsLr, IsEcall, IsEbreak, IsMret, IsCsrOp, IsWfi, IsJal, IsJalr,
      Taken, HasResult, Funct3, Rd, Rs1, Rs2, Get, Holding, F.After, ScSucceeds, Faults, SameForEx;
    var x := s.core.ex;
    TriggerAgrees(e, s, a, m);
    AccessFlags(x, m);
    OutcomeIsExec(e, s, a, io, m);
    MisalignedMeaning(e, a, io, x, m);
    SameTrapBase(s.core.csr, a.csr);
    Faulted(e, s, a, i, if m.Store? then 6 else 4, Address(x, m));
  }

  lemma SameTrapBase(k: Csr.State, l: Csr.State)
    requires SameForEx(k, l)
    ensures TrapBase(k.mtvec) == TrapBase(l.mtvec)
  {
    hide TrapBase;
  }

  lemma PmpFaultCommits(e: Env, s: Sys, a: Arch, i: In, io: Io, m: Instr)
    requires s.core.csr.Valid() && a.csr.Valid()
    requires LegalExec(e, s, a, m) && !TriggerHit(e, s.core.ex) && IsAccess(m) && SameForEx(s.core.csr, a.csr)
    requires Isa.Aligned(AccessWidth(m), Address(s.core.ex, m)) && (m.Sc? ==> a.resv == Some(Address(s.core.ex, m)))
    requires !MayAccess(a.csr, Address(s.core.ex, m), Reads(m), Writes(m))
    ensures ToWb(e, s.core, i) && CommitsAs(e, s, i, Outcome(e, a, io))
  {
    hide TriggerHit, BadTarget, LegalEff, DecLegal, TrapBase, ExResult, AluResult, NextTarget, Isa.Aligned,
      Pipeline.Misaligned, F.ParseAt, View, Isa.Exec, Outcome, Meaning, Breaks, FromFetch, CommitsAs, Csr.PendingIrq,
      DAllow, IsLoad, IsStore, IsAtomic, IsAmo, IsSc, IsLr, IsEcall, IsEbreak, IsMret, IsCsrOp, IsWfi, IsJal, IsJalr,
      Taken, HasResult, Funct3, Rd, Rs1, Rs2, Get, Holding, F.After, Faults, SameForEx, MayAccess, Sum;
    var x := s.core.ex;
    TriggerAgrees(e, s, a, m);
    AccessFlags(x, m);
    PermissionAgrees(x, s.core.csr, a.csr, m);
    OutcomeIsExec(e, s, a, io, m);
    DeniedMeaning(e, a, io, x, m);
    SameTrapBase(s.core.csr, a.csr);
    Faulted(e, s, a, i, if Writes(m) then 7 else 5, Address(x, m));
  }

  /** The register write of an access, given the value WB selects. */
  lemma FailedScWritten(e: Env, c: Core, i: In, m: Instr)
    requires c.csr.Valid() && Holding(c.ex, m) && m.Sc? && ToWb(e, c, i) && !Exception(e, c, i)
    requires !ScSucceeds(c.ex, c.resvValid, c.resvAddr)
    ensures WbWrite(Next(e, c, i), NO_EXT) == Some(Write(m.rd, Flag(true)))
  {
    hide Holding, ToWb, ExecToWb, MemToWb, AmoToWb, TriggerHit, DoneErr, DoneMisaligned, BadTarget, LegalEff,
      ExResult, AluResult, NextTarget, HasResult, IsLoad, IsLr, IsCsrOp, IsSc, IsAmo, Rd, Rs1, Funct3, Csr.PendingIrq,
      Next, LoadResult, CsrAddr, Flag, ScSucceeds, IsStore, IsAtomic, Taken, IsJal, IsJalr, IsEcall, IsEbreak, IsMret,
      IsWfi, Address, Isa.Aligned, Pipeline.Misaligned, F.After;
    AccessFlags(c.ex, m);
    NextWbIs(e, c, i);
  }

  lemma FailedScCommits(e: Env, s: Sys, a: Arch, i: In, io: Io, m: Instr)
    requires s.core.csr.Valid() && a.csr.Valid() && io.ext == i.ext
    requires LegalExec(e, s, a, m) && !TriggerHit(e, s.core.ex) && m.Sc? && SameForEx(s.core.csr, a.csr)
    requires Isa.Aligned(W, Address(s.core.ex, m)) && a.resv != Some(Address(s.core.ex, m))
    ensures ToWb(e, s.core, i) && CommitsAs(e, s, i, Outcome(e, a, io))
  {
    hide TriggerHit, DecLegal, TrapBase, ExResult, AluResult, NextTarget, Isa.Aligned, Pipeline.Misaligned, F.ParseAt,
      View, Isa.Exec, Outcome, Meaning, Breaks, FromFetch, CommitsAs, Csr.PendingIrq, DAllow, IsLoad, IsStore,
      IsAtomic, IsAmo, IsSc, IsLr, IsEcall, IsEbreak, IsMret, IsCsrOp, IsWfi, IsJal, IsJalr, Taken, HasResult, Funct3,
      Rd, Rs1, Rs2, Get, Holding, F.After, Completes, SameForEx, MayAccess, Sum, WbWrite, Next, Flag;
    var x := s.core.ex;
    TriggerAgrees(e, s, a, m);
    AccessFlags(x, m);
    OutcomeIsExec(e, s, a, io, m);
    FailedScMeaning(e, a, io, x, m);
    SameForExIrq(s.core.csr, a.csr, i.ext);
    FailedScWritten(e, s.core, i, m);
    Finished(e, s, a, i, io, F.After(x.item), Some(Write(m.rd, Flag(true))), a.ram, a.resv);
  }
}
