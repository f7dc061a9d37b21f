/** The data bus carries exactly the accesses of the interpreter, each once and in program order. */
module RefineTrace {
  import opened Words
  import opened Instr
  import opened Decoder
  import F = Fetch
  import Pmp
  import Csr
  import opened Isa
  import opened Pipeline
  import opened Memory
  import opened DataPath
  import opened System
  import opened Refine
  import opened RefineBase
  import opened RefineCommit
  import opened RefineSystem
  import opened RefineMemory
  import opened RefineBus
  import opened RefineStep
  import opened RefineBypass
  import opened RefineAccess
  import opened RefineRun
  import opened RefineTheorem
  import opened Logs

  const ONES := Word(0xFFFF_FFFF)

  /** One access: what it makes of an all-zero and of an all-one word fixes the bytes it writes
      and their values. */
  datatype Touch = Touch(addr: Word, write: bool, zero: Word, ones: Word)

  function TouchOf(q: DReq): (r: Touch) {
    Touch(q.addr, q.we, Strobed(ZERO, q.wdata, q.strb.lanes), Strobed(ONES, q.wdata, q.strb.lanes))
  }

  function ReadOf(addr: Word): (r: Touch) { Touch(addr, false, ZERO, ONES) }

  function WriteOf(w: Width, addr: Word, v: Word): (r: Touch) {
    Touch(addr, true, Insert(w, addr, ZERO, v), Insert(w, addr, ONES, v))
  }

  /** The beats of a granted access; `old_` is what the first beat of an AMO reads. */
  function Beats(a: Arch, m: Instr, addr: Word, old_: Word): (r: seq<Touch>) {
    match m
    case Load(_, _, _, _, _) => [ReadOf(addr)]
    case Lr(_, _) => [ReadOf(addr)]
    case Store(w, _, rs2, _) => [WriteOf(w, addr, Get(a.regs, rs2))]
    case Sc(_, _, rs2) => [WriteOf(W, addr, Get(a.regs, rs2))]
    case Amo(op, _, _, rs2) => [ReadOf(addr), WriteOf(W, addr, AmoResult(op, old_, Get(a.regs, rs2)))]
    case _ => []
  }

  /** The instruction at a.pc is an access that neither traps before memory nor is a failing SC. */
  predicate Accesses(e: Env, a: Arch)
    requires a.csr.Valid()
  {
    var item := F.ParseAt(View(e, a.csr.pmp, a.csr.priv), a.pc);
    var m := Meaning(item);
    var addr := DataAddress(a.regs, m);
    && !item.err && IsAccess(m) && !Breaks(e, a, m)
    && Isa.Aligned(AccessWidth(m), addr) && (m.Sc? ==> a.resv == Some(addr))
    && MayAccess(a.csr, addr, Reads(m), Writes(m))
  }

  /** The interpreter's data accesses in one instruction. */
  function Touches(e: Env, a: Arch, outside: Word): (r: seq<Touch>)
    requires a.csr.Valid()
  {
    var m := Meaning(F.ParseAt(View(e, a.csr.pmp, a.csr.priv), a.pc));
    var addr := DataAddress(a.regs, m);
    if !Accesses(e, a) then [] else Beats(a, m, addr, ReadAnswer(a.ram, addr, DResp(outside, false)).data)
  }

  /** The beats of EX's instruction that the bus has accepted. */
  function Made(e: Env, c: Core, a: Arch): (r: seq<Touch>)
    requires a.csr.Valid()
  {
    if !c.ex.valid || c.ex.st == ExState.Exec || c.ex.st == MemReq then []
    else if c.ex.st == AmoStoreWait then Touches(e, a, c.amoOld)
    else if |Touches(e, a, c.amoOld)| > 0 then Touches(e, a, c.amoOld)[..1]
    else []
  }

  // ------------------------------------------------------------------------------------------
  // What the pipeline's requests are
  // ------------------------------------------------------------------------------------------

  lemma NoStrobe(old_: Word, d: Word)
    ensures Strobed(old_, d, 0) == old_
  {}

  lemma FirstTouch(e: Env, c: Core, a: Arch, m: Instr, outside: Word)
    requires c.csr.Valid() && Holding(c.ex, m) && IsAccess(m) && Isa.Aligned(AccessWidth(m), Address(c.ex, m))
    requires c.ex.st != AmoStoreReq && c.ex.st != AmoStoreWait && ReqAddr(e, c) == Address(c.ex, m)
    requires SameOperands(c.ex, a)
    ensures |Beats(a, m, Address(c.ex, m), outside)| > 0
    ensures TouchOf(Request(e, c)) == Beats(a, m, Address(c.ex, m), outside)[0]
  {
    hide Holding, ReqAddr, Address, Isa.Aligned, Funct3, InRam, RamIndex, StoreData, StoreStrobe, Strobed, Insert,
      IsStore, IsSc, IsAtomic, IsLoad, IsLr, IsAmo, AmoNew, AmoResult, Get, Rs1, Rs2;
    var x, addr := c.ex, Address(c.ex, m);
    MemoryFlags(x, m);
    SourceValues(x, a.regs, m);
    if m.Store? { StoreAgrees(x, m, addr, ZERO, x.rs2v); StoreAgrees(x, m, addr, ONES, x.rs2v); }
    FullStrobe(ZERO, x.rs2v);
    FullStrobe(ONES, x.rs2v);
    WordInsert(addr, ZERO, x.rs2v);
    WordInsert(addr, ONES, x.rs2v);
    NoStrobe(ZERO, x.rs2v);
    NoStrobe(ONES, x.rs2v);
    NoStrobe(ZERO, StoreData(Funct3(x.instr), addr, x.rs2v));
    NoStrobe(ONES, StoreData(Funct3(x.instr), addr, x.rs2v));
  }

  lemma SecondTouch(e: Env, c: Core, a: Arch, m: Instr)
    requires c.csr.Valid() && Holding(c.ex, m) && m.Amo? && c.ex.st == AmoStoreReq && c.ex.result == Address(c.ex, m)
    requires SameOperands(c.ex, a)
    ensures TouchOf(Request(e, c)) == Beats(a, m, Address(c.ex, m), c.amoOld)[1]
  {
    hide Holding, Address, InRam, RamIndex, Strobed, Insert, IsStore, IsSc, IsAtomic, IsLoad, IsLr, IsAmo, AmoNew,
      AmoResult, MemAccess, Get, Rs1, Rs2;
    var x, addr := c.ex, Address(c.ex, m);
    var v := AmoNew(x.instr, c.amoOld, x.rs2v);
    MemoryFlags(x, m);
    SourceValues(x, a.regs, m);
    AmoAgrees(x, m, c.amoOld, x.rs2v);
    FullStrobe(ZERO, v);
    FullStrobe(ONES, v);
    WordInsert(addr, ZERO, v);
    WordInsert(addr, ONES, v);
  }

  // ------------------------------------------------------------------------------------------
  // One clock
  // ------------------------------------------------------------------------------------------

  lemma KnownAccess(e: Env, s: Sys, a: Arch, m: Instr, outside: Word)
    requires InEx(e, s, a) && m == Meaning(s.core.ex.item) && Holding(s.core.ex, m) && IsAccess(m)
    requires !s.core.ex.item.err && !Breaks(e, a, m) && MayProceed(s.core.ex, a, m)
    ensures SameOperands(s.core.ex, a) && Accesses(e, a)
    ensures var addr := Address(s.core.ex, m);
      Touches(e, a, outside) == Beats(a, m, addr, ReadAnswer(a.ram, addr, DResp(outside, false)).data)
  {
    hide Holding, Meaning, Breaks, Isa.Aligned, MayAccess, Address, DataAddress, MemOk, ResvOk, WbCovered, Settled,
      F.ParseAt, View, FromFetch, Get, Rs1, Rs2, F.After, Beats, ReadAnswer, Reads, Writes, IsAccess, AccessWidth;
    SourceValues(s.core.ex, a.regs, m);
  }

  /** An instruction that leaves EX in its first cycle makes no access, and none was due. */
  lemma NoneDue(e: Env, s: Sys, a: Arch, t: Tick)
    requires s.core.csr.Valid() && a.csr.Valid() && InEx(e, s, a) && Allowed(e, s, t)
    requires ToWb(e, s.core, Inputs(e, s, t)) && s.core.ex.st == ExState.Exec
    ensures !Accesses(e, a)
  {
    hide SameForEx, ToWb, Plain, NoCsrHazard, BadTarget, DecLegal, CompletesWell, WellEncoded, Csr.PendingIrq,
      Meaning, Covered, IsCsrOp, CsrAddr, Holding, MemOk, ResvOk, WbCovered, Settled, IsAmo, TriggerHit, Breaks,
      MayAccess, Isa.Aligned, F.ParseAt, View, DataAddress, Address, Get, Rs1, Rs2, F.After, FromFetch, MemAccess,
      Reads, Writes, AccessWidth, IsAccess;
    var x, m := s.core.ex, Meaning(s.core.ex.item);
    if Accesses(e, a) {
      Identified(e, s, a);
      HazardCases(e, s, a, t);
      AccessIsLegal(m);
      SourceValues(x, a.regs, m);
      TriggerAgrees(e, s, a, m);
      EarlyAccess(e, s, a, Inputs(e, s, t), m);
    }
  }

  lemma AccessIsLegal(m: Instr)
    requires IsAccess(m)
    ensures m != Illegal && !Plain(m)
  {}

  /** All beats of an access are made when it leaves EX. */
  lemma AllMade(e: Env, s: Sys, a: Arch, t: Tick)
    requires s.core.csr.Valid() && a.csr.Valid() && InEx(e, s, a) && Allowed(e, s, t)
    requires ToWb(e, s.core, Inputs(e, s, t))
    ensures Made(e, s.core, a) == Touches(e, a, s.core.amoOld)
  {
    hide SameForEx, Plain, NoCsrHazard, BadTarget, DecLegal, CompletesWell, WellEncoded, Csr.PendingIrq, Meaning,
      Covered, IsCsrOp, CsrAddr, Holding, ExOk, ResvOk, WbCovered, Settled, IsAmo, TriggerHit, Breaks, MayAccess,
      Isa.Aligned, Address, Inputs, MemAccess, Accesses, AfterFirst, InRam, RamIndex, StoreRam, AmoResult, ReadAnswer,
      Granted, MayProceed, Beats;
    var x, m := s.core.ex, Meaning(s.core.ex.item);
    if x.st == ExState.Exec { NoneDue(e, s, a, t); }
    else {
      GrantedFacts(e, s, a);
      GrantedBreaks(e, s.core, a);
      KnownAccess(e, s, a, m, s.core.amoOld);
      MemoryFlags(x, m);
      OneBeat(a, m, Address(x, m), ReadAnswer(a.ram, Address(x, m), DResp(s.core.amoOld, false)).data);
    }
  }

  lemma GrantedBreaks(e: Env, c: Core, a: Arch)
    requires a.csr.Valid() && Granted(e, c, a)
    ensures !Breaks(e, a, Meaning(c.ex.item))
  {
    hide Breaks, Meaning, MayAccess, Isa.Aligned, Address;
  }

  lemma OneBeat(a: Arch, m: Instr, addr: Word, v: Word)
    requires IsAccess(m)
    ensures |Beats(a, m, addr, v)| == if m.Amo? then 2 else 1
    ensures !m.Amo? ==> Beats(a, m, addr, v)[..1] == Beats(a, m, addr, v)
  {
    hide Get, WriteOf, ReadOf, AmoResult;
  }

  lemma FirstBeatFixed(a: Arch, m: Instr, addr: Word, v: Word, w: Word)
    requires IsAccess(m)
    ensures |Beats(a, m, addr, v)| > 0 && |Beats(a, m, addr, w)| > 0
    ensures Beats(a, m, addr, v)[..1] == Beats(a, m, addr, w)[..1] == [Beats(a, m, addr, w)[0]]
    ensures m.Amo? ==> Beats(a, m, addr, v) == Beats(a, m, addr, v)[..1] + [Beats(a, m, addr, v)[1]]
  {
    hide Get, WriteOf, ReadOf, AmoResult;
  }

  /** Progress of an access in EX, given which of its beats have been made. */
  lemma MadeIs(e: Env, s: Sys, a: Arch, m: Instr, n: Core)
    requires s.core.csr.Valid() && a.csr.Valid() && InEx(e, s, a) && m == Meaning(s.core.ex.item)
        && Holding(s.core.ex, m) && IsAccess(m)
    requires !s.core.ex.item.err && !Breaks(e, a, m) && MayProceed(s.core.ex, a, m)
    requires n.ex.valid
    ensures var addr := Address(s.core.ex, m);
      var b := Beats(a, m, addr, ReadAnswer(a.ram, addr, DResp(n.amoOld, false)).data);
      Made(e, n, a) == match n.ex.st
        case Exec => []
        case MemReq => []
        case MemWait => b[..1]
        case AmoStoreReq => b[..1]
        case AmoStoreWait => b
  {
    hide InEx, Holding, Meaning, IsAccess, Breaks, MayProceed, Beats, ReadAnswer, Touches;
    var b := ReadAnswer(a.ram, Address(s.core.ex, m), DResp(n.amoOld, false)).data;
    KnownAccess(e, s, a, m, n.amoOld);
    FirstBeatFixed(a, m, Address(s.core.ex, m), b, b);
  }

  lemma StartTouch(e: Env, s: Sys, a: Arch, t: Tick)
    requires s.core.csr.Valid() && a.csr.Valid() && InEx(e, s, a) && Allowed(e, s, t)
    requires !ToWb(e, s.core, Inputs(e, s, t)) && s.core.ex.st == ExState.Exec
    ensures Made(e, NextSys(e, s, t).core, a)
         == if ReqFire(e, s.core, Inputs(e, s, t)) then [TouchOf(Request(e, s.core))] else []
  {
    hide SameForEx, NoCsrHazard, BadTarget, DecLegal, CompletesWell, WellEncoded, Meaning, Covered, IsCsrOp, CsrAddr,
      NextSys, TouchOf, Request, Holding, ExOk, ResvOk, MemOk, WbCovered, Settled, IsAmo, TriggerHit, Breaks,
      MayAccess, Isa.Aligned, Address, Inputs, MemAccess, ReadAnswer, MayProceed, Beats, Made, IsAccess, AluResult,
      ExResult, Pipeline.Misaligned, RspFire, Funct3, SameOperands, IsLoad, IsStore;
    var c, i, n, x, m := s.core, Inputs(e, s, t), NextSys(e, s, t).core, s.core.ex, Meaning(s.core.ex.item);
    var b := ReadAnswer(a.ram, Address(x, m), DResp(n.amoOld, false)).data;
    StartHazard(e, s, a, t);
    AccessStarts(e, s, a, i);
    WaitingFields(e, s, t);
    MadeIs(e, s, a, m, n);
    KnownAccess(e, s, a, m, n.amoOld);
    MayProceedAligned(x, a, m);
    FirstTouch(e, c, a, m, b);
    FirstBeatFixed(a, m, Address(x, m), b, b);
  }

  lemma WaitTouch(e: Env, s: Sys, a: Arch, t: Tick)
    requires s.core.csr.Valid() && a.csr.Valid() && InEx(e, s, a) && Allowed(e, s, t)
    requires !ToWb(e, s.core, Inputs(e, s, t)) && s.core.ex.st != ExState.Exec
    ensures Made(e, NextSys(e, s, t).core, a)
         == Made(e, s.core, a) + if ReqFire(e, s.core, Inputs(e, s, t)) then [TouchOf(Request(e, s.core))] else []
  {
    hide SameForEx, NoCsrHazard, BadTarget, DecLegal, CompletesWell, WellEncoded, Meaning, Covered, IsCsrOp, CsrAddr,
      NextSys, TouchOf, Request, Holding, ExOk, ResvOk, WbCovered, Settled, IsAmo, TriggerHit, Breaks, MayAccess,
      Isa.Aligned, Address, Inputs, MemAccess, InRam, RamIndex, MayProceed, Beats, Made, IsAccess, AluResult,
      ExResult, Pipeline.Misaligned, Funct3, SameOperands, IsLoad, IsStore, Granted, AfterFirst, StoreRam;
    var c, i, n, x, m := s.core, Inputs(e, s, t), NextSys(e, s, t).core, s.core.ex, Meaning(s.core.ex.item);
    var addr := Address(x, m);
    var old_ := ReadAnswer(a.ram, addr, DResp(c.amoOld, false)).data;
    var new_ := ReadAnswer(a.ram, addr, DResp(n.amoOld, false)).data;
    GrantedFacts(e, s, a);
    GrantedBreaks(e, c, a);
    WaitingFields(e, s, t);
    AdvancedStays(e, c, i);
    MadeIs(e, s, a, m, c);
    MadeIs(e, s, a, m, n);
    KnownAccess(e, s, a, m, n.amoOld);
    FirstBeatFixed(a, m, addr, old_, new_);
    FirstBeatFixed(a, m, addr, new_, old_);
    MayProceedAligned(x, a, m);
    if x.st == MemReq { FirstTouch(e, c, a, m, new_); }
    if x.st == AmoStoreReq { SecondTouch(e, c, a, m); }
  }

  lemma EntersFresh(e: Env, s: Sys, t: Tick, a: Arch)
    requires s.core.csr.Valid() && a.csr.Valid() && (ToWb(e, s.core, Inputs(e, s, t)) || !s.core.ex.valid)
    ensures Made(e, NextSys(e, s, t).core, a) == []
  {
    hide NextSys, Inputs, ToWb, IdFire, Operand, Advanced, Redirect, IdInstr, IdBadC, Touches, F.Next, FetchIn, Next,
      NextWb, NextDbus, NextResvValid;
    ClockFields(e, s, t);
    if IdFire(e, s.core, Inputs(e, s, t)) { LoadedIsFresh(e, s.core, Inputs(e, s, t)); }
    else { ExLeft(e, s.core, Inputs(e, s, t)); }
  }

  lemma LoadedIsFresh(e: Env, c: Core, i: In)
    requires c.csr.Valid() && IdFire(e, c, i)
    ensures NextEx(e, c, i).valid && NextEx(e, c, i).st == ExState.Exec
  {
    hide IdFire, Operand, Advanced, Redirect, IdInstr, IdBadC;
  }

  /** Only an AMO's touches depend on what its first beat reads. */
  lemma OutsideMatters(e: Env, s: Sys, a: Arch, t: Tick)
    requires s.core.csr.Valid() && a.csr.Valid() && InEx(e, s, a) && Allowed(e, s, t)
    requires ToWb(e, s.core, Inputs(e, s, t))
    ensures Touches(e, a, s.core.amoOld) == Touches(e, a, IoOf(e, s, t).first.data)
  {
    hide SameForEx, NoCsrHazard, BadTarget, DecLegal, CompletesWell, WellEncoded, Meaning, Covered, IsCsrOp, CsrAddr,
      Holding, ExOk, ResvOk, WbCovered, Settled, IsAmo, TriggerHit, Breaks, MayAccess, Isa.Aligned, Address, Inputs,
      MemAccess, InRam, RamIndex, MayProceed, Accesses, IsAccess, Granted, AfterFirst, StoreRam, Next, Get,
      ReadAnswer, WriteOf, ReadOf, AmoResult;
    var x, m := s.core.ex, Meaning(s.core.ex.item);
    if x.st == ExState.Exec { NoneDue(e, s, a, t); }
    else if x.st != AmoStoreWait {
      GrantedFacts(e, s, a);
      GrantedBreaks(e, s.core, a);
      MemoryFlags(x, m);
      KnownAccess(e, s, a, m, s.core.amoOld);
      KnownAccess(e, s, a, m, IoOf(e, s, t).first.data);
    }
  }

  /** What one clock puts on the data bus, against the interpreter's accesses. */
  lemma ClockTouches(e: Env, s: Sys, a: Arch, t: Tick)
    requires s.core.csr.Valid() && a.csr.Valid() && Refines(e, s, a) && Allowed(e, s, t)
    ensures Made(e, s.core, a) + (if ReqFire(e, s.core, Inputs(e, s, t)) then [TouchOf(Request(e, s.core))] else [])
         == (if ToWb(e, s.core, Inputs(e, s, t)) then Touches(e, a, IoOf(e, s, t).first.data) else [])
            + Made(e, NextSys(e, s, t).core, ArchNext(e, s, a, t))
  {
    hide Refines, Allowed, ToWb, NextSys, Inputs, IoOf, WbHalf, FetchHalf, ExOk, MemOk, ResvOk, InEx, ReqFire,
      Request, TouchOf, Made, Touches, Step;
    var c, i := s.core, Inputs(e, s, t);
    Parts(e, s, a);
    NeedsEx(e, c, i);
    if ToWb(e, c, i) {
      AllMade(e, s, a, t);
      OutsideMatters(e, s, a, t);
      LeftBus(e, s, a, i);
      EntersFresh(e, s, t, ArchNext(e, s, a, t));
    } else if c.ex.valid {
      if c.ex.st == ExState.Exec { NoneYet(e, c, a); StartTouch(e, s, a, t); } else { WaitTouch(e, s, a, t); }
    } else {
      NoneYet(e, c, a);
      EmptyBus(e, s, a, i);
      EntersFresh(e, s, t, a);
    }
  }

  lemma NoneYet(e: Env, c: Core, a: Arch)
    requires a.csr.Valid() && (!c.ex.valid || c.ex.st == ExState.Exec)
    ensures Made(e, c, a) == []
  {
    hide Touches;
  }

  // ------------------------------------------------------------------------------------------
  // Runs
  // ------------------------------------------------------------------------------------------

  /** The requests the data bus accepts in a run. */
  function BusLog(e: Env, s: Sys, ts: seq<Tick>): (r: seq<Touch>)
    requires s.core.csr.Valid()
    decreases |ts|
  {
    if ts == [] then []
    else (if ReqFire(e, s.core, Inputs(e, s, ts[0])) then [TouchOf(Request(e, s.core))] else [])
         + BusLog(e, NextSys(e, s, ts[0]), ts[1..])
  }

  function IsaTouches(e: Env, a: Arch, ios: seq<Io>): (r: seq<Touch>)
    requires a.csr.Valid()
    decreases |ios|
  {
    if ios == [] then [] else Touches(e, a, ios[0].first.data) + IsaTouches(e, Step(e, a, ios[0]), ios[1..])
  }

  /** Over every allowed run the data bus, inside and outside RAM, carries the interpreter's accesses:
      each exactly once, in program order, nothing for suppressed ones, and no other access between
      the two beats of an AMO. */
  lemma {:induction false} BusCarriesIsaAccesses(e: Env, s: Sys, a: Arch, ts: seq<Tick>)
    requires s.core.csr.Valid() && a.csr.Valid() && Refines(e, s, a) && AllowedRun(e, s, ts)
    ensures Made(e, s.core, a) + BusLog(e, s, ts)
         == IsaTouches(e, a, Supplied(e, s, ts)) + Made(e, SysRun(e, s, ts).core, IsaRun(e, a, Supplied(e, s, ts)))
    decreases |ts|
  {
    hide Refines, Allowed, ToWb, NextSys, Step, Inputs, IoOf, Made, Touches, ReqFire, Request, TouchOf, ArchNext;
    if ts == [] {
      assert Made(e, s.core, a) + [] == [] + Made(e, s.core, a);
    } else {
      var n, b := NextSys(e, s, ts[0]), ArchNext(e, s, a, ts[0]);
      var i := Inputs(e, s, ts[0]);
      var fired := if ReqFire(e, s.core, i) then [TouchOf(Request(e, s.core))] else [];
      var left := if ToWb(e, s.core, i) then Touches(e, a, IoOf(e, s, ts[0]).first.data) else [];
      ClockRefines(e, s, a, ts[0]);
      ClockTouches(e, s, a, ts[0]);
      BusCarriesIsaAccesses(e, n, b, ts[1..]);
      IsaTouchesSplit(e, s, a, ts, left);
      Chained(Made(e, s.core, a), fired, BusLog(e, n, ts[1..]), left, Made(e, n.core, b),
              IsaTouches(e, b, Supplied(e, n, ts[1..])),
              Made(e, SysRun(e, n, ts[1..]).core, IsaRun(e, b, Supplied(e, n, ts[1..]))));
    }
  }

  lemma SuppliedSplit(e: Env, s: Sys, ts: seq<Tick>)
    requires s.core.csr.Valid() && ts != []
    ensures var rest := Supplied(e, NextSys(e, s, ts[0]), ts[1..]);
      if ToWb(e, s.core, Inputs(e, s, ts[0])) then
        |Supplied(e, s, ts)| > 0 && Supplied(e, s, ts)[0] == IoOf(e, s, ts[0]) && Supplied(e, s, ts)[1..] == rest
      else Supplied(e, s, ts) == rest
  {
    hide ToWb, NextSys, Inputs, IoOf;
  }

  lemma IsaTouchesSplit(e: Env, s: Sys, a: Arch, ts: seq<Tick>, left: seq<Touch>)
    requires s.core.csr.Valid() && a.csr.Valid() && ts != []
    requires left == if ToWb(e, s.core, Inputs(e, s, ts[0])) then Touches(e, a, IoOf(e, s, ts[0]).first.data) else []
    ensures var n, b := NextSys(e, s, ts[0]), ArchNext(e, s, a, ts[0]);
      && IsaTouches(e, a, Supplied(e, s, ts)) == left + IsaTouches(e, b, Supplied(e, n, ts[1..]))
      && IsaRun(e, a, Supplied(e, s, ts)) == IsaRun(e, b, Supplied(e, n, ts[1..]))
      && SysRun(e, s, ts) == SysRun(e, n, ts[1..])
  {
    hide ToWb, NextSys, Inputs, IoOf, Touches, Step;
    SuppliedSplit(e, s, ts);
  }
}
