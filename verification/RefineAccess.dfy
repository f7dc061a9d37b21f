/** The data-bus states of EX: each request has the effect the interpreter gives the access, and
    the relation survives every wait. */
module RefineAccess {
  import opened Words
  import opened Instr
  import opened Decoder
  import F = Fetch
  import Pmp
  import Csr
  import opened Isa
  import opened Pipeline
  import opened Memory
  import opened DataPath
  import opened System
  import opened Refine
  import opened RefineBase
  import opened RefineCommit
  import opened RefinePlain
  import opened RefineSystem
  import opened RefineMemory
  import opened RefineBus
  import opened RefineStep

  /** The first beat of an access: a read, or the store the instruction makes. */
  lemma FirstRequest(e: Env, c: Core, a: Arch, m: Instr)
    requires c.csr.Valid() && Holding(c.ex, m) && IsAccess(m) && Isa.Aligned(AccessWidth(m), Address(c.ex, m))
    requires c.ex.st != AmoStoreReq && c.ex.st != AmoStoreWait && ReqAddr(e, c) == Address(c.ex, m)
    ensures Request(e, c).addr == Address(c.ex, m) && (Request(e, c).we <==> m.Store? || m.Sc?)
    ensures NextRam(a.ram, Request(e, c)) == AfterFirst(a, c.ex, m)
  {
    hide Holding, ReqAddr, Address, Isa.Aligned, Funct3, InRam, RamIndex, StoreData, StoreStrobe, Strobed, Insert,
      IsStore, IsSc, IsAtomic, IsLoad, IsLr, IsAmo, AmoNew;
    var x, addr := c.ex, Address(c.ex, m);
    MemoryFlags(x, m);
    if m.Store? { StoreAgrees(x, m, addr, a.ram[RamIndex(addr)], x.rs2v); }
    if m.Sc? { FullStrobe(a.ram[RamIndex(addr)], x.rs2v); WordInsert(addr, a.ram[RamIndex(addr)], x.rs2v); }
  }

  /** The second beat of an AMO stores the new value. */
  lemma SecondRequest(e: Env, c: Core, a: Arch, m: Instr)
    requires c.csr.Valid() && Holding(c.ex, m) && m.Amo? && c.ex.st == AmoStoreReq && c.ex.result == Address(c.ex, m)
    ensures Request(e, c).addr == Address(c.ex, m) && Request(e, c).we
    ensures NextRam(a.ram, Request(e, c)) == StoreRam(a.ram, W, Address(c.ex, m), AmoResult(m.aop, c.amoOld, c.ex.rs2v))
  {
    hide Holding, Address, InRam, RamIndex, Strobed, Insert, IsStore, IsSc, IsAtomic, IsLoad, IsLr, IsAmo, AmoNew,
      AmoResult, MemAccess;
    var x, addr := c.ex, Address(c.ex, m);
    MemoryFlags(x, m);
    AmoAgrees(x, m, c.amoOld, x.rs2v);
    FullStrobe(a.ram[RamIndex(addr)], AmoNew(x.instr, c.amoOld, x.rs2v));
    WordInsert(addr, a.ram[RamIndex(addr)], AmoNew(x.instr, c.amoOld, x.rs2v));
  }

  /** While nothing leaves EX, a valid instruction in it makes at most this step. */
  lemma StaysInEx(e: Env, c: Core, i: In)
    requires c.csr.Valid() && c.ex.valid && !ToWb(e, c, i)
    ensures !Redirect(e, c, i) && !IdFire(e, c, i) && NextEx(e, c, i) == Advanced(e, c, i)
  {
    hide ToWb, Exception, Hazard, IsJal, IsJalr, Taken, IsEcall, IsEbreak, IsMret, TakesIrq, Advanced;
  }

  /** EX's first cycle of an access that may proceed. */
  lemma AccessStarts(e: Env, s: Sys, a: Arch, i: In)
    requires s.core.csr.Valid() && a.csr.Valid() && InEx(e, s, a) && s.core.ex.st == ExState.Exec
    requires MemAccess(e, s.core) && WellEncoded(s.core.ex) && SameForEx(s.core.csr, a.csr)
    ensures var x, m := s.core.ex, Meaning(s.core.ex.item);
      && Holding(x, m) && IsAccess(m) && m != Illegal && DecLegal(x) && !x.item.err && !Breaks(e, a, m)
      && MayProceed(x, a, m)
      && AluResult(x) == Address(x, m) && ExResult(x) == Address(x, m)
      && !Pipeline.Misaligned(AluResult(x), Funct3(x.instr))
  {
    hide TriggerHit, DecLegal, ExResult, AluResult, NextTarget, Isa.Aligned, Pipeline.Misaligned, Address, Breaks,
      Settled, WbCovered, F.ParseAt, View, Meaning, FromFetch, DAllow, IsLoad, IsStore, IsAtomic, IsEcall, IsEbreak,
      IsMret, IsCsrOp, IsWfi, IsJal, IsJalr, Taken, HasResult, Funct3, Funct5, Rd, Rs1, Rs2, Get, Holding, F.After,
      SameForEx, MayAccess;
    var x, m := s.core.ex, Meaning(s.core.ex.item);
    Identified(e, s, a);
    MemoryFlags(x, m);
    AccessFlags(x, m);
    PermissionAgrees(x, s.core.csr, a.csr, m);
    TriggerAgrees(e, s, a, m);
    if m.Sc? { ScReserved(s.core, a, m); }
  }

  lemma ScReserved(c: Core, a: Arch, m: Instr)
    requires ResvOk(c, a) && m.Sc? && ScSucceeds(c.ex, c.resvValid, c.resvAddr)
    ensures a.resv == Some(Address(c.ex, m))
  {
    hide IsSc;
  }

  lemma WaitingFields(e: Env, s: Sys, t: Tick)
    requires s.core.csr.Valid() && s.core.ex.valid && !ToWb(e, s.core, Inputs(e, s, t))
    ensures var i, n := Inputs(e, s, t), NextSys(e, s, t);
      && n.core.ex == Advanced(e, s.core, i) && n.dbus == NextDbus(e, s, i)
      && n.core.amoOld == (if AmoAnswered(s.core, i) then i.dRsp.value.data else s.core.amoOld)
      && n.ram == (if ReqFire(e, s.core, i) then NextRam(s.ram, Request(e, s.core)) else s.ram)
  {
    hide Inputs, ToWb, NextEx, Advanced, F.Next, FetchIn, Csr.Execute, Csr.NextCounters, LrAnswered, AmoAnswered, Set,
      NextResvValid, CsrInput, NextWb, WbWrite, WbCommand, NextDbus, ReqFire, NextRam, Request, FetchProof.NextBus;
    StaysInEx(e, s.core, Inputs(e, s, t));
  }

  /** Granted looks only at parts of EX that no wait changes. */
  predicate SameAccess(x: Ex, y: Ex) {
    y.valid && y.item == x.item && y.instr == x.instr && y.badC == x.badC && y.priv == x.priv && y.rs1v == x.rs1v
        && y.rs2v == x.rs2v
  }

  lemma StartStep(e: Env, s: Sys, a: Arch, t: Tick)
    requires s.core.csr.Valid() && a.csr.Valid() && InEx(e, s, a) && s.core.ex.st == ExState.Exec
    requires !ToWb(e, s.core, Inputs(e, s, t)) && WellEncoded(s.core.ex) && SameForEx(s.core.csr, a.csr)
    ensures MemOk(e, NextSys(e, s, t), a)
  {
    hide TriggerHit, DecLegal, ExResult, AluResult, Isa.Aligned, Pipeline.Misaligned, Address, Breaks, Settled,
      WbCovered, Inputs, Meaning, IsLoad, IsStore, IsAtomic, Funct3, Holding, SameForEx, MayAccess, NextSys,
      MemAccess, NextRam, Request, AfterFirst, InRam, RamIndex, ExOk, ResvOk, WellEncoded, RspFire, AccessRaw, IsAmo;
    var x, m, n, i := s.core.ex, Meaning(s.core.ex.item), NextSys(e, s, t), Inputs(e, s, t);
    WaitingFields(e, s, t);
    AccessStarts(e, s, a, i);
    MayProceedAligned(x, a, m);
    FirstRequest(e, s.core, a, m);
    SameAddress(x, n.core.ex, m);
    SameEffect(a, x, n.core.ex, m);
    RspNeedsWait(s.core, i);
  }

  lemma SameAddress(x: Ex, y: Ex, m: Instr)
    requires x.rs1v == y.rs1v
    ensures Address(x, m) == Address(y, m)
  {
    hide Sum;
  }

  lemma SameEffect(a: Arch, x: Ex, y: Ex, m: Instr)
    requires x.rs1v == y.rs1v && x.rs2v == y.rs2v
    ensures AfterFirst(a, x, m) == AfterFirst(a, y, m)
  {
    hide StoreRam, Address;
    SameAddress(x, y, m);
  }

  lemma RspNeedsWait(c: Core, i: In)
    ensures RspFire(c, i) ==> c.ex.valid && (c.ex.st == MemWait || c.ex.st == AmoStoreWait) && i.dRsp.Some?
  {}

  /** What a waiting access keeps. */
  lemma GrantedStays(e: Env, c: Core, n: Core, a: Arch)
    requires a.csr.Valid() && Granted(e, c, a) && SameAccess(c.ex, n.ex)
    requires n.ex.result == c.ex.result && n.ex.addr == c.ex.addr && n.ex.misaligned == c.ex.misaligned
    ensures Granted(e, n, a)
  {
    hide Meaning, Breaks, Isa.Aligned, MayAccess, Address, IsAccess, AccessWidth;
    SameAddress(c.ex, n.ex, Meaning(c.ex.item));
  }

  lemma GrantedFacts(e: Env, s: Sys, a: Arch)
    requires InEx(e, s, a) && Granted(e, s.core, a)
    ensures var x, m := s.core.ex, Meaning(s.core.ex.item);
      && Holding(x, m) && IsAccess(m) && MayProceed(x, a, m) && x.result == Address(x, m) && DecLegal(x) && !x.item.err
      && !x.misaligned
  {
    hide Holding, DecLegal, Meaning, Breaks, Isa.Aligned, MayAccess, Address, ExOk, MemOk, ResvOk, WbCovered, Settled,
      IsAccess, AccessWidth;
    Identified(e, s, a);
  }

  lemma RequestStep(e: Env, s: Sys, a: Arch, t: Tick)
    requires s.core.csr.Valid() && a.csr.Valid() && InEx(e, s, a) && s.core.ex.st == MemReq
    requires !ToWb(e, s.core, Inputs(e, s, t))
    ensures MemOk(e, NextSys(e, s, t), a)
  {
    hide ToWb, DecLegal, Isa.Aligned, Address, Settled, WbCovered, Inputs, Meaning, IsAmo, Holding, MayAccess,
      NextSys, MemAccess, NextRam, Request, AfterFirst, InRam, RamIndex, ExOk, ResvOk, RspFire, Granted, MayProceed,
      IsAccess, ExResult, AluResult;
    var x, m, n, i := s.core.ex, Meaning(s.core.ex.item), NextSys(e, s, t), Inputs(e, s, t);
    WaitingFields(e, s, t);
    GrantedFacts(e, s, a);
    MayProceedAligned(x, a, m);
    FirstRequest(e, s.core, a, m);
    SameAddress(x, n.core.ex, m);
    SameEffect(a, x, n.core.ex, m);
    RspNeedsWait(s.core, i);
    GrantedStays(e, s.core, n.core, a);
  }

  lemma AnswerStep(e: Env, s: Sys, a: Arch, t: Tick)
    requires s.core.csr.Valid() && a.csr.Valid() && InEx(e, s, a) && s.core.ex.st == MemWait
    requires !ToWb(e, s.core, Inputs(e, s, t))
    requires IsAmo(s.core.ex.instr) && Inputs(e, s, t).dRsp.Some? ==> !Inputs(e, s, t).dRsp.value.err
    ensures MemOk(e, NextSys(e, s, t), a)
  {
    hide DecLegal, Isa.Aligned, Address, Settled, WbCovered, Inputs, Meaning, IsAmo, Holding, MayAccess, NextSys,
      MemAccess, NextRam, Request, InRam, RamIndex, ExOk, ResvOk, Granted, MayProceed, IsAccess, ExResult, AluResult,
      StoreRam, Truthful;
    var x, m, n, i := s.core.ex, Meaning(s.core.ex.item), NextSys(e, s, t), Inputs(e, s, t);
    WaitingFields(e, s, t);
    GrantedFacts(e, s, a);
    MemoryFlags(x, m);
    SameAddress(x, n.core.ex, m);
    SameEffect(a, x, n.core.ex, m);
    GrantedStays(e, s.core, n.core, a);
    if i.dRsp.Some? { AnswersTruthfully(e, s, a, t); TruthfulData(a, Address(x, m), Wrote(x, m), i.dRsp.value); }
  }

  lemma TruthfulData(a: Arch, addr: Word, wrote: bool, d: DResp)
    requires Truthful(a, addr, wrote, d) && !wrote
    ensures InRam(addr) ==> d.data == a.ram[RamIndex(addr)]
  {
    hide InRam, RamIndex;
  }

  lemma StoreRequestStep(e: Env, s: Sys, a: Arch, t: Tick)
    requires s.core.csr.Valid() && a.csr.Valid() && InEx(e, s, a) && s.core.ex.st == AmoStoreReq
    requires !ToWb(e, s.core, Inputs(e, s, t))
    ensures MemOk(e, NextSys(e, s, t), a)
  {
    hide ToWb, DecLegal, Isa.Aligned, Address, Settled, WbCovered, Inputs, Meaning, IsAmo, Holding, MayAccess,
      NextSys, MemAccess, NextRam, Request, StoreRam, AmoResult, InRam, RamIndex, ExOk, ResvOk, RspFire, Granted,
      MayProceed, IsAccess, ExResult, AluResult;
    var x, m, n, i := s.core.ex, Meaning(s.core.ex.item), NextSys(e, s, t), Inputs(e, s, t);
    WaitingFields(e, s, t);
    GrantedFacts(e, s, a);
    SecondRequest(e, s.core, a, m);
    SameAddress(x, n.core.ex, m);
    RspNeedsWait(s.core, i);
    GrantedStays(e, s.core, n.core, a);
  }

  lemma StoreAnswerStep(e: Env, s: Sys, a: Arch, t: Tick)
    requires s.core.csr.Valid() && a.csr.Valid() && InEx(e, s, a) && s.core.ex.st == AmoStoreWait
    requires !ToWb(e, s.core, Inputs(e, s, t))
    ensures MemOk(e, NextSys(e, s, t), a)
  {
    hide DecLegal, Isa.Aligned, Address, Settled, WbCovered, Inputs, Meaning, IsAmo, Holding, MayAccess, NextSys,
      MemAccess, NextRam, Request, StoreRam, AmoResult, InRam, RamIndex, ExOk, ResvOk, Granted, MayProceed, IsAccess,
      ExResult, AluResult;
    var x, m, n, i := s.core.ex, Meaning(s.core.ex.item), NextSys(e, s, t), Inputs(e, s, t);
    WaitingFields(e, s, t);
    SameAddress(x, n.core.ex, m);
    GrantedStays(e, s.core, n.core, a);
  }

  /** A clock in which the instruction in EX stays there keeps its half of the relation. */
  lemma WaitingStep(e: Env, s: Sys, a: Arch, t: Tick)
    requires s.core.csr.Valid() && a.csr.Valid() && InEx(e, s, a) && Allowed(e, s, t)
    requires !ToWb(e, s.core, Inputs(e, s, t))
    ensures MemOk(e, NextSys(e, s, t), a)
  {
    hide InEx, ToWb, MemOk, NextSys, IsAmo, WellEncoded, SameForEx, NoCsrHazard, CompletesWell, Covered, CsrAddr,
      IsCsrOp, Inputs, RspFire;
    ExIsValid(e, s, a);
    match s.core.ex.st {
      case Exec => StartHazard(e, s, a, t); StartStep(e, s, a, t);
      case MemReq => RequestStep(e, s, a, t);
      case MemWait => AnswerStep(e, s, a, t);
      case AmoStoreReq => StoreRequestStep(e, s, a, t);
      case AmoStoreWait => StoreAnswerStep(e, s, a, t);
    }
  }

  lemma ExIsValid(e: Env, s: Sys, a: Arch)
    requires InEx(e, s, a)
    ensures s.core.ex.valid
  {
    hide ExOk, MemOk, ResvOk, WbCovered, Settled;
  }

  /** An access is starting, so no CSR write is pending that it depends on. */
  lemma StartHazard(e: Env, s: Sys, a: Arch, t: Tick)
    requires s.core.csr.Valid() && a.csr.Valid() && InEx(e, s, a) && s.core.ex.st == ExState.Exec
    requires !ToWb(e, s.core, Inputs(e, s, t)) && NoCsrHazard(e, s.core, t.ext)
    requires WellEncoded(s.core.ex)
    ensures SameForEx(s.core.csr, a.csr)
  {
    hide TriggerHit, SameForEx, NoCsrHazard, BadTarget, DecLegal, Csr.PendingIrq, Meaning, Holding, ExOk, MemOk,
      ResvOk, WbCovered, Settled, Inputs, IsLoad, IsStore, IsAtomic, DAllow, Pipeline.Misaligned, AluResult, Funct3,
      Funct5;
    var x, m := s.core.ex, Meaning(s.core.ex.item);
    Identified(e, s, a);
    HazardCases(e, s, a, t);
    if DecLegal(x) { MemoryFlags(x, m); }
  }
}
