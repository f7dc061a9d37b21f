/** One clock of the pipelined system is invisible or one step of the interpreter. */
module RefineStep {
  import opened Words
  import opened Instr
  import opened Decoder
  import F = Fetch
  import FetchProof
  import Pmp
  import Csr
  import opened Isa
  import opened Pipeline
  import opened Memory
  import opened DataPath
  import opened System
  import opened Refine
  import opened RefineBase
  import opened RefineCommit
  import opened RefinePlain
  import opened RefineSystem
  import opened RefineMemory
  import opened RefineBus

  // ------------------------------------------------------------------------------------------
  // What leaves EX
  // ------------------------------------------------------------------------------------------

  /** What the outside supplies to the instruction that leaves EX in this clock. */
  function IoOf(e: Env, s: Sys, t: Tick): (r: Io)
    requires s.core.csr.Valid()
  {
    var i := Inputs(e, s, t);
    var d := match i.dRsp case Some(d) => d case None => DResp(ZERO, false);
    Io(if s.core.ex.st == AmoStoreWait then DResp(s.core.amoOld, false) else d, d, t.ext, Next(e, s.core, i).counters)
  }

  /** The relation at an instruction in EX, with what its kind of commit needs. */
  ghost predicate InEx(e: Env, s: Sys, a: Arch) {
    var x := s.core.ex;
    && s.core.csr.Valid() && a.csr.Valid() && x.valid && a.pc == x.item.pc
    && ExOk(e, s.core, a) && MemOk(e, s, a) && ResvOk(s.core, a)
    && WbCovered(s.core.wb) && a.csr == Settled(s.core)
  }

  lemma Identified(e: Env, s: Sys, a: Arch)
    requires InEx(e, s, a)
    ensures var x := s.core.ex; var m := Meaning(x.item);
      && (DecLegal(x) <==> m != Illegal) && (DecLegal(x) ==> Holding(x, m))
      && (x.item.isC ==> !x.item.err)
  {
    hide Holding, DecLegal, Meaning, F.ParseAt, FromFetch, MemOk, ResvOk, WbCovered, Settled, View, Rs1, Rs2, Get,
      F.After, F.IsShort, HalfOf;
    ParsedShort(ArchView(e, a), a.pc);
    HoldsMeaning(s.core.ex);
  }

  lemma HazardCases(e: Env, s: Sys, a: Arch, t: Tick)
    requires InEx(e, s, a) && NoCsrHazard(e, s.core, t.ext)
    ensures SameForEx(s.core.csr, a.csr) ||
      (Plain(Meaning(s.core.ex.item)) && !s.core.ex.item.err && !TriggerHit(e, s.core.ex)
          && !BadTarget(s.core.ex, s.core.csr) &&
       Csr.PendingIrq(s.core.csr, t.ext).None? && Csr.PendingIrq(a.csr, t.ext).None?)
  {
    hide Settled, SameForEx, Plain, Meaning, TriggerHit, BadTarget, Csr.PendingIrq, ExOk, MemOk, ResvOk, WbCovered;
  }

  lemma KindOf(m: Instr)
    ensures m == Illegal || Simple(m) || IsSystemOp(m) || IsAccess(m)
    ensures Plain(m) ==> Simple(m) && !MayBeDenied(m)
  {}

  /** Only these can be denied by privilege. */
  predicate MayBeDenied(m: Instr) { m.Mret? || m.Wfi? || m.Zicsr? }

  lemma DeniedKinds(k: Csr.State, m: Instr)
    ensures Denied(k, m) ==> MayBeDenied(m)
  {
    hide CsrDenied, Csr.Tw;
  }

  /** A legal access in its first EX cycle that leaves at once is misaligned, denied, or a failing SC. */
  lemma EarlyAccess(e: Env, s: Sys, a: Arch, i: In, m: Instr)
    requires s.core.csr.Valid() && a.csr.Valid()
    requires LegalExec(e, s, a, m) && !TriggerHit(e, s.core.ex) && IsAccess(m) && SameForEx(s.core.csr, a.csr)
    requires Isa.Aligned(AccessWidth(m), Address(s.core.ex, m)) && (m.Sc? ==> a.resv == Some(Address(s.core.ex, m)))
    ensures MemAccess(e, s.core) <==> MayAccess(a.csr, Address(s.core.ex, m), Reads(m), Writes(m))
    ensures ToWb(e, s.core, i) <==> !MemAccess(e, s.core)
  {
    hide TriggerHit, DecLegal, ExResult, AluResult, NextTarget, Isa.Aligned, Pipeline.Misaligned, F.ParseAt, View,
      Meaning, FromFetch, DAllow, IsLoad, IsStore, IsAtomic, IsAmo, IsSc, IsLr, IsEcall, IsEbreak, IsMret, IsCsrOp,
      IsWfi, IsJal, IsJalr, Taken, HasResult, Funct3, Rd, Rs1, Rs2, Get, Holding, F.After, SameForEx, MayAccess, Sum;
    AccessFlags(s.core.ex, m);
    PermissionAgrees(s.core.ex, s.core.csr, a.csr, m);
  }

  lemma AccessCommits(e: Env, s: Sys, a: Arch, i: In, io: Io, m: Instr)
    requires s.core.csr.Valid() && a.csr.Valid() && io.ext == i.ext
    requires LegalExec(e, s, a, m) && !TriggerHit(e, s.core.ex) && IsAccess(m) && SameForEx(s.core.csr, a.csr)
    requires ToWb(e, s.core, i)
    ensures CommitsAs(e, s, i, Outcome(e, a, io))
  {
    hide LegalExec, TriggerHit, IsAccess, SameForEx, ToWb, CommitsAs, Outcome, Isa.Aligned, MayAccess, MemAccess,
      Next;
    var addr := Address(s.core.ex, m);
    if !Isa.Aligned(AccessWidth(m), addr) { MisalignedCommits(e, s, a, i, io, m); }
    else if m.Sc? && a.resv != Some(addr) { FailedScCommits(e, s, a, i, io, m); }
    else {
      EarlyAccess(e, s, a, i, m);
      PmpFaultCommits(e, s, a, i, io, m);
    }
  }

  lemma CsrIsCovered(x: Ex, m: Instr)
    requires Holding(x, m) && m.Zicsr? && (IsCsrOp(x.instr) ==> Covered(CsrAddr(x.instr)))
    ensures Covered(m.csr)
  {
    hide Holding, IsCsrOp, CsrAddr, Covered, Rd, Rs1, CsrOpOf, Funct3;
    SystemFlags(x, m);
    CsrFields(x, m);
  }

  lemma LegalExecFacts(e: Env, s: Sys, a: Arch, m: Instr)
    requires LegalExec(e, s, a, m)
    ensures s.core.ex.valid && !s.core.ex.item.err && m == Meaning(s.core.ex.item) && m != Illegal
        && Holding(s.core.ex, m)
  {
    hide Meaning, Holding, DecLegal, ExOk, MemOk, ResvOk;
  }

  lemma MakeUndisturbed(e: Env, c: Core, a: Arch, i: In, m: Instr)
    requires c.csr.Valid()
    requires SameForEx(c.csr, a.csr) || (Plain(m) && !BadTarget(c.ex, c.csr) && Csr.PendingIrq(c.csr, i.ext).None?
        && Csr.PendingIrq(a.csr, i.ext).None?)
    ensures Undisturbed(e, c, a, i, m)
  {
    hide Plain, SameForEx, BadTarget, Csr.PendingIrq;
  }

  lemma NotPlain(m: Instr)
    requires IsAccess(m) || IsSystemOp(m)
    ensures !Plain(m) && !Simple(m)
  {}

  lemma SystemCommits(e: Env, s: Sys, a: Arch, i: In, io: Io, m: Instr)
    requires s.core.csr.Valid() && a.csr.Valid() && io.ext == i.ext && io.counters == Next(e, s.core, i).counters
    requires LegalExec(e, s, a, m) && !TriggerHit(e, s.core.ex) && IsSystemOp(m) && !Denied(a.csr, m)
        && SameForEx(s.core.csr, a.csr)
    requires WbCovered(s.core.wb) && a.csr == Settled(s.core) && CompletesWell(e, s.core, i)
    ensures CommitsAs(e, s, i, Outcome(e, a, io))
  {
    hide LegalExec, TriggerHit, Denied, SameForEx, ToWb, CommitsAs, Outcome, Next, RanksAgree, WbCovered, Settled,
      Covered, IsCsrOp, CsrAddr, Holding, Meaning, Exception;
    SystemCompletes(e, s, a, i, m);
    if m.Zicsr? {
      LegalExecFacts(e, s, a, m);
      CsrIsCovered(s.core.ex, m);
      Committed(e, s.core, i);
      CsrCommits(e, s, a, i, io, m);
    }
    else if m.Mret? { MretCommits(e, s, a, i, io, m); }
    else { CallCommits(e, s, a, i, io, m); }
  }

  lemma LegalCommits(e: Env, s: Sys, a: Arch, t: Tick, m: Instr)
    requires s.core.csr.Valid() && a.csr.Valid() && InEx(e, s, a) && Allowed(e, s, t)
    requires ToWb(e, s.core, Inputs(e, s, t)) && LegalExec(e, s, a, m)
    ensures CommitsAs(e, s, Inputs(e, s, t), Outcome(e, a, IoOf(e, s, t)))
  {
    hide LegalExec, TriggerHit, IsAccess, SameForEx, ToWb, CommitsAs, Outcome, Next, Plain, Simple, IsSystemOp,
      Denied, NoCsrHazard, BadTarget, CompletesWell, WellEncoded, Csr.PendingIrq, Meaning, Covered, IsCsrOp, CsrAddr,
      Holding, ExOk, MemOk, ResvOk, WbCovered, Settled, IsAmo;
    var i, io := Inputs(e, s, t), IoOf(e, s, t);
    var x := s.core.ex;
    LegalExecFacts(e, s, a, m);
    HazardCases(e, s, a, t);
    KindOf(m);
    DeniedKinds(a.csr, m);
    if TriggerHit(e, x) { BreakCommits(e, s, a, i, io, m); }
    else if Denied(a.csr, m) { DeniedCommits(e, s, a, i, io, m); }
    else if Simple(m) {
      MakeUndisturbed(e, s.core, a, i, m);
      SimpleCommits(e, s, a, i, io, m);
    }
    else if IsAccess(m) { NotPlain(m); AccessCommits(e, s, a, i, io, m); }
    else {
      NotPlain(m);
      SystemCommits(e, s, a, i, io, m);
    }
  }

  lemma FirstCycleCommits(e: Env, s: Sys, a: Arch, t: Tick)
    requires s.core.csr.Valid() && a.csr.Valid() && InEx(e, s, a) && Allowed(e, s, t)
    requires ToWb(e, s.core, Inputs(e, s, t)) && s.core.ex.st == ExState.Exec
    ensures CommitsAs(e, s, Inputs(e, s, t), Outcome(e, a, IoOf(e, s, t)))
  {
    hide TriggerHit, SameForEx, ToWb, CommitsAs, Outcome, Next, Plain, NoCsrHazard, BadTarget, DecLegal,
      CompletesWell, WellEncoded, Csr.PendingIrq, Meaning, Covered, IsCsrOp, CsrAddr, Holding, ExOk, MemOk, ResvOk,
      WbCovered, Settled, IsAmo;
    var i, io, x := Inputs(e, s, t), IoOf(e, s, t), s.core.ex;
    Identified(e, s, a);
    HazardCases(e, s, a, t);
    if x.item.err { FetchFaultCommits(e, s, a, i, io); }
    else if !DecLegal(x) { IllegalIsNotPlain(Meaning(x.item)); IllegalCommits(e, s, a, i, io); }
    else { LegalCommits(e, s, a, t, Meaning(x.item)); }
  }

  lemma IllegalIsNotPlain(m: Instr)
    requires m == Illegal
    ensures !Plain(m)
  {}

  /** An access on the bus has a legal instruction behind it. */
  lemma BusInstruction(e: Env, s: Sys, a: Arch, t: Tick)
    requires s.core.csr.Valid() && a.csr.Valid() && InEx(e, s, a) && s.core.ex.st != ExState.Exec
    requires NoCsrHazard(e, s.core, t.ext) && ToWb(e, s.core, Inputs(e, s, t))
    ensures OnBus(e, s, a, Inputs(e, s, t), Meaning(s.core.ex.item)) && IsAccess(Meaning(s.core.ex.item))
  {
    hide TriggerHit, SameForEx, ToWb, Plain, NoCsrHazard, BadTarget, DecLegal, Csr.PendingIrq, Meaning, Holding, ExOk,
      ResvOk, WbCovered, Settled, Address, AccessWidth, Isa.Aligned, MayAccess, Breaks, AfterFirst, Pending,
      AmoResult, StoreRam, InRam, RamIndex;
    Identified(e, s, a);
    HazardCases(e, s, a, t);
    NotPlain(Meaning(s.core.ex.item));
  }

  lemma AnswersTruthfully(e: Env, s: Sys, a: Arch, t: Tick)
    requires s.core.csr.Valid() && a.csr.Valid() && InEx(e, s, a) && Inputs(e, s, t).dRsp.Some?
    requires s.core.ex.st == MemWait || s.core.ex.st == AmoStoreWait
    ensures var x, m := s.core.ex, Meaning(s.core.ex.item);
      Truthful(a, Address(x, m), Wrote(x, m), Inputs(e, s, t).dRsp.value)
  {
    hide ToWb, DecLegal, Meaning, Holding, ExOk, ResvOk, WbCovered, Settled, Address, AccessWidth, Isa.Aligned,
      MayAccess, Breaks, AfterFirst, AmoResult, StoreRam, InRam, RamIndex, Granted;
  }

  lemma BusCommits(e: Env, s: Sys, a: Arch, t: Tick)
    requires s.core.csr.Valid() && a.csr.Valid() && InEx(e, s, a) && Allowed(e, s, t)
    requires ToWb(e, s.core, Inputs(e, s, t)) && s.core.ex.st != ExState.Exec
    ensures CommitsAs(e, s, Inputs(e, s, t), Outcome(e, a, IoOf(e, s, t)))
  {
    hide SameForEx, CommitsAs, Outcome, Next, NoCsrHazard, DecLegal, OnBus, CompletesWell, WellEncoded, Meaning,
      Covered, IsCsrOp, CsrAddr, Holding, ExOk, ResvOk, WbCovered, Settled, Granted, AfterFirst, AmoResult, StoreRam,
      InRam, RamIndex, Address, IsAmo, Isa.Aligned, MayAccess, Truthful, MemAccess;
    var i, io, m := Inputs(e, s, t), IoOf(e, s, t), Meaning(s.core.ex.item);
    BusInstruction(e, s, a, t);
    BusHolds(e, s, a, i, m);
    MemoryFlags(s.core.ex, m);
    if m.Amo? {
      AnswersTruthfully(e, s, a, t);
      TruthfulNoError(a, Address(s.core.ex, m), Wrote(s.core.ex, m), i.dRsp.value);
      AmoCommits(e, s, a, i, io, m);
    } else {
      AnswersTruthfully(e, s, a, t);
      OneBeatCommits(e, s, a, i, io, m);
    }
  }

  lemma BusHolds(e: Env, s: Sys, a: Arch, i: In, m: Instr)
    requires OnBus(e, s, a, i, m)
    ensures Holding(s.core.ex, m)
  {
    hide Holding, DecLegal, Meaning, ExOk, ResvOk, Granted, ToWb, SameForEx;
  }

  lemma TruthfulNoError(a: Arch, addr: Word, wrote: bool, d: DResp)
    requires Truthful(a, addr, wrote, d)
    ensures InRam(addr) ==> !d.err
  {
    hide InRam, RamIndex;
  }

  /** Whatever leaves EX does exactly what the interpreter says. */
  lemma LeavingCommits(e: Env, s: Sys, a: Arch, t: Tick)
    requires s.core.csr.Valid() && a.csr.Valid() && InEx(e, s, a) && Allowed(e, s, t)
        && ToWb(e, s.core, Inputs(e, s, t))
    ensures CommitsAs(e, s, Inputs(e, s, t), Outcome(e, a, IoOf(e, s, t)))
  {
    hide InEx, Allowed, ToWb, CommitsAs, Outcome, IoOf;
    if s.core.ex.st == ExState.Exec { FirstCycleCommits(e, s, a, t); } else { BusCommits(e, s, a, t); }
  }
}
