/** Accesses that used the data bus commit as the interpreter says when their answer arrives. */
module RefineBus {
  import opened Words
  import opened Instr
  import opened Decoder
  import F = Fetch
  import Pmp
  import Csr
  import opened Isa
  import opened Pipeline
  import opened Memory
  import opened DataPath
  import opened System
  import opened Refine
  import opened RefineBase
  import opened RefineCommit
  import opened RefinePlain
  import opened RefineSystem
  import opened RefineMemory

  // ------------------------------------------------------------------------------------------
  // The interpreter's view
  // ------------------------------------------------------------------------------------------

  /** What a granted access writes to its register, given the bus answer of its first beat. */
  function Loaded(x: Ex, m: Instr, d: Word): (r: Option<Write>) {
    match m
    case Load(w, unsigned, rd, _, _) => Some(Write(rd, Extract(w, unsigned, Address(x, m), d)))
    case Lr(rd, _) => Some(Write(rd, d))
    case Sc(rd, _, _) => Some(Write(rd, Flag(false)))
    case Amo(_, rd, _, _) => Some(Write(rd, d))
    case _ => None
  }

  function Reserved(x: Ex, m: Instr, resv: Option<Word>): (r: Option<Word>) {
    match m
    case Lr(_, _) => Some(Address(x, m))
    case Sc(_, _, _) => None
    case _ => resv
  }

  /** RAM answers without error, and reads with the architectural word. */
  predicate Truthful(a: Arch, addr: Word, wrote: bool, d: DResp) {
    InRam(addr) ==> !d.err && (wrote || d.data == a.ram[RamIndex(addr)])
  }

  predicate MayProceed(x: Ex, a: Arch, m: Instr)
    requires a.csr.Valid()
  {
    && Isa.Aligned(AccessWidth(m), Address(x, m)) && (m.Sc? ==> a.resv == Some(Address(x, m)))
    && MayAccess(a.csr, Address(x, m), Reads(m), Writes(m))
  }

  lemma OneBeatMeaning(e: Env, a: Arch, io: Io, x: Ex, m: Instr, d: DResp)
    requires a.csr.Valid() && IsAccess(m) && !m.Amo? && Holding(x, m) && SameOperands(x, a) && MayProceed(x, a, m)
    requires Truthful(a, Address(x, m), m.Store? || m.Sc?, d) && io.first == d
    ensures Isa.Exec(e, a, io, x.item, m) ==
      if d.err then Faults(a, if Writes(m) then 7 else 5, Address(x, m))
      else Completes(a, io, F.After(x.item), Loaded(x, m, d.data), AfterFirst(a, x, m), Reserved(x, m, a.resv))
    ensures d.err ==> AfterFirst(a, x, m) == a.ram
  {
    hide Holding, Get, Rs1, Rs2, Completes, Faults, Sum, F.After, DataAddress, Address, MayAccess, Isa.Aligned,
      Extract, Insert, AmoResult, InRam, RamIndex, Flag;
    SourceValues(x, a.regs, m);
  }

  lemma AmoMeaning(e: Env, a: Arch, io: Io, x: Ex, m: Instr, old_: Word, d: DResp)
    requires a.csr.Valid() && m.Amo? && Holding(x, m) && SameOperands(x, a) && MayProceed(x, a, m)
    requires InRam(Address(x, m)) ==> old_ == a.ram[RamIndex(Address(x, m))] && !d.err
    requires io.first.data == old_ && io.second == d
    ensures Isa.Exec(e, a, io, x.item, m) ==
      if d.err then Faults(a, 7, Address(x, m))
      else Completes(a, io, F.After(x.item), Loaded(x, m, old_),
                     StoreRam(a.ram, W, Address(x, m), AmoResult(m.aop, old_, x.rs2v)), a.resv)
    ensures d.err ==> StoreRam(a.ram, W, Address(x, m), AmoResult(m.aop, old_, x.rs2v)) == a.ram
  {
    hide Holding, Get, Rs1, Rs2, Completes, Faults, Sum, F.After, DataAddress, Address, MayAccess, Isa.Aligned,
      Extract, Insert, AmoResult, InRam, RamIndex, Flag;
    SourceValues(x, a.regs, m);
  }

  // ------------------------------------------------------------------------------------------
  // The pipeline's view
  // ------------------------------------------------------------------------------------------

  lemma AccessIsNeverDenied(x: Ex, k: Csr.State, m: Instr)
    requires Holding(x, m) && IsAccess(m) && DecLegal(x)
    ensures LegalEff(x, k) && !BadTarget(x, k)
  {
    hide Holding, IsMret, IsWfi, IsCsrOp, CsrIllegal, Csr.Tw, DecLegal, IsJal, IsJalr, Taken, NextTarget, IsOdd,
      AluResult, ExResult, Address, Pipeline.Misaligned, Isa.Aligned, Funct3, IsLoad, IsStore, IsLr, IsSc, IsAmo,
      IsAtomic, IsEcall, IsEbreak, HasResult, Rd, F.After;
    AccessFlags(x, m);
  }

  /** The answer of the last beat decides between a fault and completion. */
  lemma LastBeat(e: Env, c: Core, i: In, m: Instr)
    requires c.csr.Valid() && c.ex.valid && c.ex.st != ExState.Exec && !c.ex.item.err && !c.ex.misaligned
    requires Holding(c.ex, m) && IsAccess(m) && DecLegal(c.ex) && ToWb(e, c, i)
    ensures MemToWb(c, i) || AmoToWb(c, i)
    ensures i.dRsp.Some? && (Exception(e, c, i) <==> i.dRsp.value.err)
    ensures !ExecToWb(e, c) && DoneErr(e, c, i) == i.dRsp.value.err && !DoneMisaligned(e, c) && !TriggerHit(e, c.ex)
  {
    hide Holding, DecLegal, LegalEff, BadTarget, IsAccess, PmpFault, IsLoad, IsStore, IsAtomic, IsAmo, Funct3,
      MemAccess;
    AccessIsNeverDenied(c.ex, c.csr, m);
  }

  lemma OneBeatWritten(e: Env, c: Core, i: In, m: Instr)
    requires c.csr.Valid() && Holding(c.ex, m) && IsAccess(m) && !m.Amo? && MemToWb(c, i) && !ExecToWb(e, c)
        && i.dRsp.Some?
    requires ToWb(e, c, i) && !Exception(e, c, i) && c.ex.addr == Address(c.ex, m)
        && Isa.Aligned(AccessWidth(m), Address(c.ex, m))
    requires m.Sc? ==> ScSucceeds(c.ex, c.resvValid, c.resvAddr)
    ensures WbWrite(Next(e, c, i), NO_EXT) == Loaded(c.ex, m, i.dRsp.value.data)
  {
    hide Holding, ToWb, ExecToWb, MemToWb, AmoToWb, TriggerHit, DoneErr, DoneMisaligned, BadTarget, LegalEff,
      ExResult, AluResult, NextTarget, HasResult, IsLoad, IsLr, IsCsrOp, IsSc, IsAmo, Rd, Rs1, Funct3, Csr.PendingIrq,
      Next, LoadResult, CsrAddr, Flag, ScSucceeds, Extract, IsStore, IsAtomic, Taken, IsJal, IsJalr, IsEcall,
      IsEbreak, IsMret, IsWfi, Address, Isa.Aligned, Pipeline.Misaligned, F.After;
    AccessFlags(c.ex, m);
    NextWbIs(e, c, i);
    if m.Load? { LoadAgrees(c.ex, m, Address(c.ex, m), i.dRsp.value.data); }
    if m.Lr? { LrAgrees(c.ex, m, Address(c.ex, m), i.dRsp.value.data); }
  }

  lemma AmoWritten(e: Env, c: Core, i: In, m: Instr)
    requires c.csr.Valid() && Holding(c.ex, m) && m.Amo? && !ExecToWb(e, c) && ToWb(e, c, i) && !Exception(e, c, i)
    ensures WbWrite(Next(e, c, i), NO_EXT) == Loaded(c.ex, m, c.amoOld)
  {
    hide Holding, ToWb, ExecToWb, MemToWb, AmoToWb, TriggerHit, DoneErr, DoneMisaligned, BadTarget, LegalEff,
      ExResult, AluResult, NextTarget, HasResult, IsLoad, IsLr, IsCsrOp, IsSc, IsAmo, Rd, Rs1, Funct3, Csr.PendingIrq,
      Next, LoadResult, CsrAddr, Flag, ScSucceeds, Extract, IsStore, IsAtomic, Taken, IsJal, IsJalr, IsEcall,
      IsEbreak, IsMret, IsWfi, Address, Isa.Aligned, Pipeline.Misaligned, F.After;
    AccessFlags(c.ex, m);
    NextWbIs(e, c, i);
  }

  /** The access m in EX has been granted and its last answer is there. */
  ghost predicate OnBus(e: Env, s: Sys, a: Arch, i: In, m: Instr) {
    var x := s.core.ex;
    && s.core.csr.Valid() && a.csr.Valid()
    && x.valid && x.st != ExState.Exec && a.pc == x.item.pc
    && ExOk(e, s.core, a) && ResvOk(s.core, a) && Granted(e, s.core, a)
    && m == Meaning(x.item) && m != Illegal && Holding(x, m) && DecLegal(x)
    && ToWb(e, s.core, i) && SameForEx(s.core.csr, a.csr)
  }

  lemma GrantedProceeds(e: Env, s: Sys, a: Arch, i: In, m: Instr)
    requires OnBus(e, s, a, i, m)
    ensures IsAccess(m) && MayProceed(s.core.ex, a, m) && SameOperands(s.core.ex, a) && !s.core.ex.item.err
        && !s.core.ex.misaligned
    ensures s.core.ex.addr == Address(s.core.ex, m) && s.core.ex.result == Address(s.core.ex, m)
    ensures !Breaks(e, a, m) && !Denied(a.csr, m)
    ensures m.Sc? ==> ScSucceeds(s.core.ex, s.core.resvValid, s.core.resvAddr)
  {
    hide Holding, DecLegal, Meaning, Breaks, Isa.Aligned, MayAccess, Rs1, Rs2, Get, F.ParseAt, FromFetch, View, ToWb,
      SameForEx, F.After, Sum, IsSc;
    if m.Sc? { MemoryFlags(s.core.ex, m); }
  }

  lemma BusFaultCommits(e: Env, s: Sys, a: Arch, i: In, m: Instr)
    requires s.core.csr.Valid() && a.csr.Valid()
    requires OnBus(e, s, a, i, m) && IsAccess(m) && i.dRsp.Some? && i.dRsp.value.err && s.ram == a.ram
    ensures CommitsAs(e, s, i, Faults(a, if Writes(m) then 7 else 5, Address(s.core.ex, m)))
  {
    hide TriggerHit, BadTarget, LegalEff, DecLegal, TrapBase, ExResult, AluResult, NextTarget, Isa.Aligned,
      Pipeline.Misaligned, F.ParseAt, View, Meaning, Breaks, FromFetch, CommitsAs, Csr.PendingIrq, IsLoad, IsStore,
      IsAtomic, IsAmo, IsSc, IsLr, IsEcall, IsEbreak, IsMret, IsCsrOp, IsWfi, IsJal, IsJalr, Taken, HasResult, Funct3,
      Rd, Rs1, Rs2, Get, Holding, F.After, Faults, SameForEx, MayAccess, Sum, ToWb, ExecToWb, MemToWb, AmoToWb,
      DoneErr, DoneMisaligned, Granted, Exception, Address, ScSucceeds, Denied;
    var x := s.core.ex;
    GrantedProceeds(e, s, a, i, m);
    AccessFlags(x, m);
    LastBeat(e, s.core, i, m);
    SameTrapBase(s.core.csr, a.csr);
    Faulted(e, s, a, i, if Writes(m) then 7 else 5, Address(x, m));
  }

  lemma OneBeatResv(e: Env, s: Sys, a: Arch, i: In, m: Instr)
    requires s.core.csr.Valid() && a.csr.Valid()
    requires OnBus(e, s, a, i, m) && IsAccess(m) && !m.Amo? && MemToWb(s.core, i) && !Exception(e, s.core, i)
    requires i.dRsp.Some? && !i.dRsp.value.err && Csr.PendingIrq(s.core.csr, i.ext).None?
    ensures ResvAfter(e, s.core, i) == Reserved(s.core.ex, m, a.resv)
  {
    hide Exception, ToWb, Holding, IsJal, IsJalr, Taken, IsEcall, IsEbreak, IsMret, IsCsrOp, IsLr, IsSc,
      Csr.PendingIrq, Address, MayProceed, SameForEx, Granted, ExOk, Meaning, DecLegal, IsLoad, IsStore, IsAtomic,
      IsAmo, IsWfi, HasResult, Rd, NextTarget, AluResult, ExResult, Pipeline.Misaligned, Isa.Aligned, Funct3,
      ScSucceeds, F.After, Denied, Breaks;
    GrantedProceeds(e, s, a, i, m);
    AccessFlags(s.core.ex, m);
  }

  lemma OneBeatCommits(e: Env, s: Sys, a: Arch, i: In, io: Io, m: Instr)
    requires s.core.csr.Valid() && a.csr.Valid() && io.ext == i.ext
    requires OnBus(e, s, a, i, m) && !m.Amo? && MemToWb(s.core, i) && i.dRsp.Some? && io.first == i.dRsp.value
    requires Truthful(a, Address(s.core.ex, m), m.Store? || m.Sc?, io.first) && s.ram == AfterFirst(a, s.core.ex, m)
    ensures CommitsAs(e, s, i, Outcome(e, a, io))
  {
    hide TriggerHit, BadTarget, LegalEff, DecLegal, TrapBase, ExResult, AluResult, NextTarget, Isa.Aligned,
      Pipeline.Misaligned, F.ParseAt, View, Isa.Exec, Outcome, Meaning, Breaks, FromFetch, CommitsAs, Csr.PendingIrq,
      IsLoad, IsStore, IsAtomic, IsAmo, IsSc, IsLr, IsEcall, IsEbreak, IsMret, IsCsrOp, IsWfi, IsJal, IsJalr, Taken,
      HasResult, Funct3, Rd, Rs1, Rs2, Get, Holding, F.After, Completes, Faults, SameForEx, MayAccess, Sum, WbWrite,
      Next, Flag, ToWb, ExecToWb, MemToWb, AmoToWb, DoneErr, DoneMisaligned, Granted, Exception, Address, ScSucceeds,
      AfterFirst, Reserved, Loaded, Truthful, ResvAfter, MayProceed, SameOperands, Denied;
    var x := s.core.ex;
    var d := i.dRsp.value;
    GrantedProceeds(e, s, a, i, m);
    AccessFlags(x, m);
    LastBeat(e, s.core, i, m);
    OutcomeIsExec(e, s, a, io, m);
    OneBeatMeaning(e, a, io, x, m, d);
    if d.err {
      BusFaultCommits(e, s, a, i, m);
    } else {
      MayProceedAligned(x, a, m);
      OneBeatWritten(e, s.core, i, m);
      SameForExIrq(s.core.csr, a.csr, i.ext);
      if Csr.PendingIrq(s.core.csr, i.ext).None? { OneBeatResv(e, s, a, i, m); }
      Finished(e, s, a, i, io, F.After(x.item), Loaded(x, m, d.data), AfterFirst(a, x, m), Reserved(x, m, a.resv));
    }
  }

  lemma MayProceedAligned(x: Ex, a: Arch, m: Instr)
    requires a.csr.Valid() && MayProceed(x, a, m)
    ensures Isa.Aligned(AccessWidth(m), Address(x, m))
  {}

  lemma AmoCommits(e: Env, s: Sys, a: Arch, i: In, io: Io, m: Instr)
    requires s.core.csr.Valid() && a.csr.Valid() && io.ext == i.ext
    requires OnBus(e, s, a, i, m) && m.Amo? && s.core.ex.st == AmoStoreWait && i.dRsp.Some? && io.second == i.dRsp.value
    requires io.first.data == s.core.amoOld
    requires InRam(Address(s.core.ex, m)) ==> s.core.amoOld == a.ram[RamIndex(Address(s.core.ex, m))] && !io.second.err
    requires s.ram == StoreRam(a.ram, W, Address(s.core.ex, m), AmoResult(m.aop, s.core.amoOld, s.core.ex.rs2v))
    ensures CommitsAs(e, s, i, Outcome(e, a, io))
  {
    hide TriggerHit, BadTarget, LegalEff, DecLegal, TrapBase, ExResult, AluResult, NextTarget, Isa.Aligned,
      Pipeline.Misaligned, F.ParseAt, View, Isa.Exec, Outcome, Meaning, Breaks, FromFetch, CommitsAs, Csr.PendingIrq,
      IsLoad, IsStore, IsAtomic, IsAmo, IsSc, IsLr, IsEcall, IsEbreak, IsMret, IsCsrOp, IsWfi, IsJal, IsJalr, Taken,
      HasResult, Funct3, Rd, Rs1, Rs2, Get, Holding, F.After, Completes, Faults, SameForEx, MayAccess, Sum, WbWrite,
      Next, Flag, ToWb, ExecToWb, MemToWb, AmoToWb, DoneErr, DoneMisaligned, Granted, Exception, Address, ScSucceeds,
      Loaded, MayProceed, SameOperands, Denied, InRam, RamIndex, StoreRam, AmoResult, ResvAfter;
    var x := s.core.ex;
    var d := i.dRsp.value;
    GrantedProceeds(e, s, a, i, m);
    AccessFlags(x, m);
    LastBeat(e, s.core, i, m);
    OutcomeIsExec(e, s, a, io, m);
    AmoMeaning(e, a, io, x, m, s.core.amoOld, d);
    if d.err {
      BusFaultCommits(e, s, a, i, m);
    } else {
      AmoWritten(e, s.core, i, m);
      SameForExIrq(s.core.csr, a.csr, i.ext);
      if Csr.PendingIrq(s.core.csr, i.ext).None? { AmoResv(e, s, a, i, m); }
      Finished(e, s, a, i, io, F.After(x.item), Loaded(x, m, s.core.amoOld), s.ram, a.resv);
    }
  }

  lemma AmoResv(e: Env, s: Sys, a: Arch, i: In, m: Instr)
    requires s.core.csr.Valid() && a.csr.Valid()
    requires OnBus(e, s, a, i, m) && m.Amo? && s.core.ex.st == AmoStoreWait && !Exception(e, s.core, i)
    requires Csr.PendingIrq(s.core.csr, i.ext).None?
    ensures ResvAfter(e, s.core, i) == a.resv
  {
    hide Exception, ToWb, Holding, IsJal, IsJalr, Taken, IsEcall, IsEbreak, IsMret, IsCsrOp, IsLr, IsSc,
      Csr.PendingIrq, Address, MayProceed, SameForEx, Granted, ExOk, Meaning, DecLegal, IsLoad, IsStore, IsAtomic,
      IsAmo, IsWfi, HasResult, Rd, NextTarget, AluResult, ExResult, Pipeline.Misaligned, Isa.Aligned, Funct3,
      ScSucceeds, F.After, Denied, Breaks;
    AccessFlags(s.core.ex, m);
  }
}
