/** Programs for which the refinement needs no condition on runs but one, on the answers to AMO reads. */
module Ordinary {
  import opened Words
  import opened Instr
  import opened Decoder
  import F = Fetch
  import FetchProof
  import Pmp
  import Csr
  import opened Isa
  import opened Pipeline
  import opened DataPath
  import opened System
  import opened Refine
  import opened RefineBase
  import opened RefineCommit
  import opened RefinePlain
  import opened RefineStep
  import opened RefineRun
  import opened RefineTheorem
  import RefineBypass

  // ------------------------------------------------------------------------------------------
  // Ordinary programs
  // ------------------------------------------------------------------------------------------

  /** The 32-bit encoding a fetched item stands for. */
  function EncodingOf(item: F.Item): (w: Word) {
    if item.isC then Decompressed(HalfOf(item.raw, false)) else item.raw
  }

  predicate LooksLikeAccess(w: Word) { IsLoad(w) || IsStore(w) || IsAtomic(w) }

  /** Counters that no register EX looks at depends on. */
  const NO_COUNTS := Csr.Counters(Csr.Count(0), Csr.Count(0))

  /** A CSR operation that leaves alone what EX reads: any on a register EX does not look at, such as a swap
      with mscratch or a read of mcause, and a read of one it does, such as mepc. */
  predicate IsHarmless(a: Arch, m: Instr)
    requires a.csr.Valid() && m.Zicsr?
  {
    Covered(m.csr)
    && SameForEx(a.csr, Csr.Execute(a.csr, NO_COUNTS, NO_EXT, Csr.Access(m.csr, m.csrOp, CsrSource(a, m.src))))
  }

  /** A CSR operation is ordinary if it is denied or harmless; MRET, and in vectored mode ECALL and EBREAK,
      while MIE masks interrupts; everything else always. */
  predicate IsOrdinary(a: Arch, m: Instr)
    requires a.csr.Valid()
  {
    || Denied(a.csr, m)
    || (if m.Zicsr? then IsHarmless(a, m)
        else m.Mret? || ((m.Ecall? || m.Ebreak?) && Vectored(a.csr.mtvec)) ==> !Csr.Mie(a.csr.mstatus))
  }

  /** What faults in fetch or decode has no encoding in the load, store or atomic groups; the rest is
      ordinary. */
  predicate OrdinaryAt(e: Env, a: Arch)
    requires a.csr.Valid()
  {
    var item := F.ParseAt(ArchView(e, a), a.pc);
    if item.err || Meaning(item) == Illegal then !LooksLikeAccess(EncodingOf(item))
    else IsOrdinary(a, Meaning(item))
  }

  /** An AMO's read is never answered with an error from outside RAM. */
  predicate NoAmoError(e: Env, s: Sys, t: Tick) {
    var x, d := s.core.ex, Inputs(e, s, t).dRsp;
    x.valid && x.st == MemWait && IsAmo(x.instr) && d.Some? ==> !d.value.err
  }

  lemma OrdinaryIsWellEncoded(e: Env, s: Sys, a: Arch)
    requires InEx(e, s, a) && OrdinaryAt(e, a)
    ensures WellEncoded(s.core.ex)
  {
    hide Holding, DecLegal, Meaning, F.ParseAt, MemOk, ResvOk, WbCovered, Settled, View, Rs1, Rs2, Get, F.After,
      IsLoad, IsStore, IsAtomic, Expand, Decompressed, IsOrdinary;
    Identified(e, s, a);
  }

  lemma MaskedIrq(k: Csr.State, ext: Csr.Ext)
    requires !Csr.Mie(k.mstatus)
    ensures Csr.PendingIrq(k, ext).None?
  {
    hide Csr.Mie, Csr.Enabled;
  }

  /** An ordinary instruction faults, or is not outranked and no CSR operation outside Covered. */
  lemma OrdinaryCompletesWell(e: Env, s: Sys, a: Arch, i: In)
    requires InEx(e, s, a) && OrdinaryAt(e, a) && SameForEx(s.core.csr, a.csr)
    ensures CompletesWell(e, s.core, i)
  {
    hide Holding, DecLegal, Meaning, F.ParseAt, FromFetch, MemOk, ResvOk, WbCovered, Settled, View, Rs1, Rs2, Get,
      F.After, LooksLikeAccess, EncodingOf, IsMret, IsCsrOp, IsEcall, IsEbreak, Vectored, TriggerHit, DoneErr,
      DoneMisaligned, BadTarget, PrivIllegal, Denied, Csr.Mie, Csr.PendingIrq, Covered, CsrAddr, Csr.Execute, Rd,
      CsrOpOf, Funct3;
    var x, m := s.core.ex, Meaning(s.core.ex.item);
    Identified(e, s, a);
    if !x.item.err && m != Illegal {
      SystemFlags(x, m);
      DeniedAgrees(x, m, s.core.csr);
      DeniedSame(s.core.csr, a.csr, m);
      if m.Zicsr? { CsrFields(x, m); }
      if !Csr.Mie(a.csr.mstatus) { MaskedIrq(s.core.csr, i.ext); }
    }
  }

  /** A CSR operation in WB leaves alone what EX reads. */
  predicate HarmlessWb(c: Core)
    requires c.csr.Valid()
  {
    WbCommand(c.wb).Access? ==> SameForEx(c.csr, Settled(c))
  }

  lemma HarmlessSettles(c: Core)
    requires c.csr.Valid() && HarmlessWb(c) && !WbTraps(c.wb)
    ensures SameForEx(c.csr, Settled(c))
  {
    hide WbCommand, Csr.WriteState, Csr.Read;
  }

  /** At an ordinary instruction, with a harmless operation or none in WB, every clock is allowed. */
  lemma OrdinaryIsAllowed(e: Env, s: Sys, a: Arch, t: Tick)
    requires s.core.csr.Valid() && a.csr.Valid() && Refines(e, s, a)
    requires HarmlessWb(s.core) && (s.core.ex.valid ==> OrdinaryAt(e, a)) && NoAmoError(e, s, t)
    ensures Allowed(e, s, t)
  {
    hide Refines, InEx, OrdinaryAt, WbCommand, TriggerHit, BadTarget, Plain, Meaning, Csr.PendingIrq, Settled, ToWb,
      Inputs, WellEncoded, WbHalf, FetchHalf, ExOk, MemOk, ResvOk, FetchProof.Quiet, F.Fe.Head, IsAmo, HarmlessWb,
      SameForEx, CompletesWell, WbTraps;
    Parts(e, s, a);
    RefineBypass.NeedsEx(e, s.core, Inputs(e, s, t));
    if s.core.ex.valid {
      OrdinaryIsWellEncoded(e, s, a);
      HarmlessSettles(s.core);
      SettledCsr(s.core, a);
      OrdinaryCompletesWell(e, s, a, Inputs(e, s, t));
    }
  }

  lemma SettledCsr(c: Core, a: Arch)
    requires WbHalf(c, a)
    ensures a.csr == Settled(c)
  {
    hide Settled, WbCovered, WbWrite, Set;
  }

  /** What a CSR operation does to the state does not depend on the counters, but for the value it writes. */
  lemma HarmlessForAnyCounts(s: Csr.State, k: Csr.Counters, l: Csr.Counters, m: Csr.Command)
    requires s.Valid() && m.Access? && SameForEx(s, Csr.Execute(s, k, NO_EXT, m))
    ensures SameForEx(s, Csr.Execute(s, l, NO_EXT, m))
  {
    hide Csr.Lo, Csr.Hi, Csr.NewValue, Csr.MstatusWarl, Csr.WriteCfg, Csr.WriteAddr, Csr.NoTimeBit, Csr.EvenWord,
      Csr.PackBytes, Csr.MipValue;
  }

  lemma OutcomeAccess(e: Env, a: Arch, io: Io)
    requires a.csr.Valid() && OrdinaryAt(e, a) && Outcome(e, a, io).cmd.Access?
    ensures var m, o := Meaning(F.ParseAt(ArchView(e, a), a.pc)), Outcome(e, a, io);
      m.Zicsr? && IsHarmless(a, m) && o.cmd == Csr.Access(m.csr, m.csrOp, CsrSource(a, m.src))
  {
    hide F.ParseAt, View, Meaning, Breaks, Denied, Get, Sum, EvenBelow, Compute, Multiply, Holds, IsOdd, MayAccess,
      Isa.Aligned, Extract, StoreRam, AmoResult, F.After, InRam, RamIndex, Csr.Read, DataAddress, WriteError,
      ReadAnswer, IsHarmless, CsrSource, LooksLikeAccess, EncodingOf, Csr.PendingIrq, IrqTarget, TrapBase;
  }

  lemma BubbleInWb(b: Wb)
    ensures WbCommand(b.(valid := false)) == Csr.Idle
  {}

  lemma OrdinaryInWb(e: Env, s: Sys, a: Arch, t: Tick)
    requires s.core.csr.Valid() && a.csr.Valid() && Refines(e, s, a) && (s.core.ex.valid ==> OrdinaryAt(e, a))
    requires Allowed(e, s, t)
    ensures HarmlessWb(NextSys(e, s, t).core)
  {
    hide Refines, Allowed, InEx, OrdinaryAt, ToWb, Inputs, WbHalf, FetchHalf, ExOk, MemOk, ResvOk, FetchProof.Quiet,
      F.Fe.Head, NextSys, Next, NextEx, NextDbus, NextResvValid, LrAnswered, F.Next, FetchIn, FetchProof.NextBus,
      ReqFire, Completed, WbCommand, Csr.Execute, SameForEx, Outcome, IoOf, F.ParseAt, CsrSource, Covered, WbCovered,
      Meaning, ArchView, CommitsAs;
    var i, n := Inputs(e, s, t), NextSys(e, s, t).core;
    Parts(e, s, a);
    RefineBypass.NeedsEx(e, s.core, i);
    ClockFields(e, s, t);
    BubbleInWb(s.core.wb);
    if ToWb(e, s.core, i) && WbCommand(n.wb).Access? {
      LeavingCommits(e, s, a, t);
      LeavingCommand(e, s, t, Outcome(e, a, IoOf(e, s, t)));
      OutcomeAccess(e, a, IoOf(e, s, t));
      CoveredWb(s.core, a);
      Committed(e, s.core, i);
      SettledCsr(s.core, a);
      HarmlessForAnyCounts(a.csr, NO_COUNTS, n.counters, WbCommand(n.wb));
    }
  }

  lemma LeavingCommand(e: Env, s: Sys, t: Tick, o: Commit)
    requires s.core.csr.Valid() && CommitsAs(e, s, Inputs(e, s, t), o)
    ensures WbCommand(Completed(e, s.core, Inputs(e, s, t))) == o.cmd
  {
    hide Inputs, WbCommand, Completed, WbWrite, Retires, Redirect, ExTarget, F.After, ResvAfter, Next;
  }

  lemma CoveredWb(c: Core, a: Arch)
    requires WbHalf(c, a)
    ensures WbCovered(c.wb)
  {
    hide Settled, WbCovered, WbWrite, Set;
  }

  /** The interpreter meets only ordinary instructions in the run. */
  predicate OrdinaryRun(e: Env, s: Sys, a: Arch, ts: seq<Tick>)
    requires s.core.csr.Valid() && a.csr.Valid()
    decreases |ts|
  {
    ts == [] ||
    (&& (s.core.ex.valid ==> OrdinaryAt(e, a)) && NoAmoError(e, s, ts[0])
     && OrdinaryRun(e, NextSys(e, s, ts[0]), ArchNext(e, s, a, ts[0]), ts[1..]))
  }

  /** For programs whose instructions are all ordinary, with whatever traps and interrupts they meet, the
      refinement holds for every bus latency in which no AMO read is answered with an error. */
  lemma {:induction false} OrdinaryProgramsRefine(e: Env, s: Sys, a: Arch, ts: seq<Tick>)
    requires s.core.csr.Valid() && a.csr.Valid() && Refines(e, s, a) && HarmlessWb(s.core)
    requires OrdinaryRun(e, s, a, ts)
    ensures AllowedRun(e, s, ts)
    ensures Refines(e, SysRun(e, s, ts), IsaRun(e, a, Supplied(e, s, ts)))
    decreases |ts|
  {
    hide Refines, Allowed, NextSys, ArchNext, HarmlessWb, OrdinaryAt, NoAmoError, SysRun, IsaRun, Supplied;
    if ts != [] {
      OrdinaryIsAllowed(e, s, a, ts[0]);
      ClockRefines(e, s, a, ts[0]);
      OrdinaryInWb(e, s, a, ts[0]);
      OrdinaryProgramsRefine(e, NextSys(e, s, ts[0]), ArchNext(e, s, a, ts[0]), ts[1..]);
    }
    PipelineRefinesIsa(e, s, a, ts);
  }
}
