/** The refinement theorem: each clock, and every run, of the pipelined system. */
module RefineRun {
  import opened Words
  import opened Instr
  import opened Decoder
  import F = Fetch
  import FetchProof
  import Pmp
  import Csr
  import opened Isa
  import opened Pipeline
  import opened Memory
  import opened DataPath
  import opened System
  import opened Refine
  import opened RefineBase
  import opened RefineCommit
  import opened RefineSystem
  import opened RefineStep
  import opened RefineBypass
  import opened RefineAccess

  // ------------------------------------------------------------------------------------------
  // What a clock changes
  // ------------------------------------------------------------------------------------------

  lemma ClockFields(e: Env, s: Sys, t: Tick)
    requires s.core.csr.Valid()
    ensures var c, i, n := s.core, Inputs(e, s, t), NextSys(e, s, t);
      && n.core.fe == F.Next(c.fe, FetchIn(e, c, i)) && n.ibus == FetchProof.NextBus(c.fe, s.ibus, FetchIn(e, c, i))
      && n.core.ex == NextEx(e, c, i) && n.core.wb == NextWb(e, c, i) && n.core.counters == Next(e, c, i).counters
      && n.core.resvValid == NextResvValid(e, c, i)
      && n.core.resvAddr == (if LrAnswered(c, i) then c.ex.result else c.resvAddr)
      && n.core == Next(e, c, i)
      && n.dbus == NextDbus(e, s, i) && n.ram == (if ReqFire(e, c, i) then NextRam(s.ram, Request(e, c)) else s.ram)
  {
    hide Inputs, NextEx, F.Next, FetchIn, Csr.Execute, Csr.NextCounters, LrAnswered, AmoAnswered, Set, NextResvValid,
      CsrInput, NextWb, WbWrite, WbCommand, NextDbus, ReqFire, NextRam, Request, FetchProof.NextBus;
  }

  /** Nothing is on the data bus once an instruction leaves EX. */
  lemma BusFree(e: Env, s: Sys, i: In)
    requires s.core.csr.Valid() && ToWb(e, s.core, i) && (s.core.ex.st == ExState.Exec ==> s.dbus.None?)
    ensures !ReqFire(e, s.core, i) && NextDbus(e, s, i).None?
  {
    hide MemAccess, Request, InRam, RamIndex, IsAmo;
  }

  lemma ResvStays(e: Env, c: Core, i: In)
    requires c.csr.Valid() && !ToWb(e, c, i)
    ensures NextResvValid(e, c, i) == c.resvValid && !LrAnswered(c, i)
  {
    hide MemAccess, Exception, IsJal, IsJalr, Taken, IsEcall, IsEbreak, IsMret, TakesIrq, IsAtomic, Funct5;
  }

  /** EX is left empty by a redirect, or when nothing follows. */
  lemma ExLeft(e: Env, c: Core, i: In)
    requires c.csr.Valid() && (ToWb(e, c, i) || !c.ex.valid) && !IdFire(e, c, i)
    ensures !NextEx(e, c, i).valid
  {
    hide MemAccess, Exception, IsJal, IsJalr, Taken, IsEcall, IsEbreak, IsMret, TakesIrq, Hazard, ExResult, AluResult,
      Pipeline.Misaligned, IsAmo, IsLoad, IsStore, Funct3;
  }

  lemma RedirectBlocksId(e: Env, c: Core, i: In)
    requires c.csr.Valid()
    ensures Redirect(e, c, i) ==> ToWb(e, c, i) && !IdFire(e, c, i)
  {
    hide ToWb, Exception, Hazard, IsJal, IsJalr, Taken, IsEcall, IsEbreak, IsMret, TakesIrq;
  }

  // ------------------------------------------------------------------------------------------
  // The instruction entering EX
  // ------------------------------------------------------------------------------------------

  /** The instruction ID hands to EX is the one the interpreter is at. */
  lemma Arrives(e: Env, s: Sys, a: Arch, t: Tick)
    requires s.core.csr.Valid() && a.csr.Valid() && WbCovered(s.core.wb)
    requires var c, i := s.core, Inputs(e, s, t);
      && IdFire(e, c, i)
      && FetchProof.Inv(ArchView(e, a), c.fe, s.ibus)
      && a.pc == c.fe.Head() && a.csr.priv == c.csr.priv && a.regs == Settling(e, c, i, NO_EXT)
      && F.Next(c.fe, FetchIn(e, c, i)).Head() == F.After(c.fe.id)
    ensures ExOk(e, NextSys(e, s, t).core, a) && NextSys(e, s, t).core.ex.valid
    ensures var x := NextSys(e, s, t).core.ex; x.st == ExState.Exec && x.item.pc == a.pc && !x.err && !x.misaligned
  {
    hide NextSys, Settling, Inputs, Operand, FetchIn, F.Next, ToWb, Redirect, Hazard, Rs1, Rs2, Get, Decompressed,
      Expand, HalfOf, F.ParseAt, F.After, View, FetchProof.BufOk, FetchProof.BusOk, FetchProof.StraddleOk,
      NextResvValid, NextWb, WbCovered, Next, NextDbus;
    var c, i := s.core, Inputs(e, s, t);
    ClockFields(e, s, t);
    OperandReady(e, c, i, NO_EXT, Rs1(IdInstr(c.fe)));
    OperandReady(e, c, i, NO_EXT, Rs2(IdInstr(c.fe)));
  }

  /** The same, for a clock in which the instruction in EX stays or leaves and nothing arrives. */
  lemma Remains(e: Env, s: Sys, a: Arch, t: Tick)
    requires s.core.csr.Valid() && a.csr.Valid() && s.core.ex.valid && ExOk(e, s.core, a)
    requires !ToWb(e, s.core, Inputs(e, s, t)) && NextSys(e, s, t).core.fe.Head() == s.core.fe.Head()
    requires var d := Inputs(e, s, t).dRsp;
      s.core.ex.st == MemWait && IsAmo(s.core.ex.instr) && d.Some? ==> !d.value.err
    ensures ExOk(e, NextSys(e, s, t).core, a) && NextSys(e, s, t).core.ex.valid
    ensures NextSys(e, s, t).core.ex.item == s.core.ex.item
  {
    hide NextSys, Inputs, ToWb, F.ParseAt, F.After, View, Rs1, Rs2, Get, HalfOf, Decompressed, Expand, MemAccess,
      ExResult, AluResult, IsLoad, IsStore, Pipeline.Misaligned, Funct3, ReqFire, IsAmo, NextEx, Advanced, F.Next,
      FetchIn, NextDbus, NextResvValid, NextWb, Next;
    ClockFields(e, s, t);
    StaysInEx(e, s.core, Inputs(e, s, t));
    AdvancedStays(e, s.core, Inputs(e, s, t));
  }

  lemma AdvancedStays(e: Env, c: Core, i: In)
    requires c.csr.Valid() && c.ex.valid && !ToWb(e, c, i)
    requires c.ex.st == MemWait && IsAmo(c.ex.instr) && i.dRsp.Some? ==> !i.dRsp.value.err
    ensures SameAccess(c.ex, Advanced(e, c, i))
  {
    hide MemAccess, ExResult, AluResult, IsLoad, IsStore, Pipeline.Misaligned, Funct3, IsAmo;
  }

  // ------------------------------------------------------------------------------------------
  // Registers and CSRs
  // ------------------------------------------------------------------------------------------

  ghost predicate WbHalf(c: Core, a: Arch) {
    && c.csr.Valid() && a.csr.Valid() && WbCovered(c.wb)
    && a.csr == Settled(c) && a.regs == Set(c.regs, WbWrite(c, NO_EXT))
  }

  lemma StayWb(e: Env, s: Sys, a: Arch, t: Tick)
    requires WbHalf(s.core, a) && !ToWb(e, s.core, Inputs(e, s, t))
    ensures WbHalf(NextSys(e, s, t).core, a) && !WbTraps(NextSys(e, s, t).core.wb)
  {
    hide NextSys, Inputs, ToWb, Next, WbResult, HasResult, IsCsrOp, IsEcall, IsEbreak, IsMret, IsStore, IsAmo, IsSc,
      CsrAddr, CsrOpOf, Rd, Covered, Csr.EnterTrap, Csr.Return, Csr.WriteState, Csr.Read;
    ClockFields(e, s, t);
    Committed(e, s.core, Inputs(e, s, t));
  }

  lemma CompletedIsCovered(e: Env, c: Core, i: In)
    requires c.csr.Valid() && CompletesWell(e, c, i)
    ensures WbCovered(Completed(e, c, i))
  {
    hide TriggerHit, DoneErr, DoneMisaligned, BadTarget, LegalEff, ExResult, AluResult, NextTarget, ExecToWb, MemToWb,
      IsCsrOp, IsEcall, IsEbreak, IsMret, IsStore, IsAmo, IsSc, CsrAddr, CsrOpOf, Covered, Csr.PendingIrq, ScSucceeds,
      Rs1, Funct3;
  }

  lemma LeaveWb(e: Env, s: Sys, a: Arch, t: Tick, io: Io, o: Commit)
    requires WbHalf(s.core, a) && ToWb(e, s.core, Inputs(e, s, t)) && CommitsAs(e, s, Inputs(e, s, t), o)
    requires CompletesWell(e, s.core, Inputs(e, s, t))
    requires io.counters == Next(e, s.core, Inputs(e, s, t)).counters
    ensures WbHalf(NextSys(e, s, t).core, Apply(a, io, o))
    ensures NextSys(e, s, t).core.wb == Completed(e, s.core, Inputs(e, s, t))
  {
    hide NextSys, Inputs, ToWb, Next, WbWrite, WbCommand, Completed, Covered, Csr.Execute, CompletesWell, WbTraps,
      Redirect, ExTarget, ResvAfter, Retires, Set;
    var i := Inputs(e, s, t);
    ClockFields(e, s, t);
    Committed(e, s.core, i);
    CompletedIsCovered(e, s.core, i);
    ExecuteIgnoresLines(a.csr, io.counters, io.ext, NO_EXT, o.cmd);
  }

  // ------------------------------------------------------------------------------------------
  // Fetch
  // ------------------------------------------------------------------------------------------

  ghost predicate FetchHalf(e: Env, s: Sys, a: Arch) {
    && s.core.csr.Valid() && a.csr.Valid() && WbCovered(s.core.wb) && a.csr == Settled(s.core)
    && FetchProof.Inv(ArchView(e, a), s.core.fe, s.ibus)
    && (WbTraps(s.core.wb) ==> FetchProof.Quiet(s.core.fe))
  }

  lemma FetchRuns(e: Env, s: Sys, a: Arch, t: Tick)
    requires FetchHalf(e, s, a) && !Redirect(e, s.core, Inputs(e, s, t))
    ensures FetchProof.Inv(ArchView(e, a), NextSys(e, s, t).core.fe, NextSys(e, s, t).ibus)
    ensures NextSys(e, s, t).core.fe.Head()
         == if IdFire(e, s.core, Inputs(e, s, t)) then F.After(s.core.fe.id) else s.core.fe.Head()
  {
    hide NextSys, Inputs, Redirect, ExTarget, F.Next, FetchProof.NextBus, FetchProof.Inv, FetchProof.Obeys,
      FetchProof.Quiet, WbCovered, WbTraps, Settled, View, Pmp.Allow, F.After, NextEx, NextWb, Next, NextDbus,
      NextResvValid, CanAccept, Hazard;
    ClockFields(e, s, t);
    FetchObeys(e, s, a, t);
    FetchProof.RunningStep(ArchView(e, a), s.core.fe, s.ibus, FetchIn(e, s.core, Inputs(e, s, t)));
  }

  lemma FetchRestarts(e: Env, s: Sys, a: Arch, t: Tick, b: Arch)
    requires FetchHalf(e, s, a) && b.csr.Valid() && Redirect(e, s.core, Inputs(e, s, t))
    ensures FetchProof.Inv(ArchView(e, b), NextSys(e, s, t).core.fe, NextSys(e, s, t).ibus)
    ensures FetchProof.Quiet(NextSys(e, s, t).core.fe)
    ensures NextSys(e, s, t).core.fe.Head() == ExTarget(e, s.core, Inputs(e, s, t))
  {
    hide NextSys, Inputs, Redirect, ExTarget, F.Next, FetchProof.NextBus, FetchProof.Inv, FetchProof.Obeys,
      FetchProof.Quiet, WbCovered, WbTraps, Settled, View, Pmp.Allow, F.After, NextEx, NextWb, Next, NextDbus,
      NextResvValid, IdFire;
    ClockFields(e, s, t);
    FetchObeys(e, s, a, t);
    FetchProof.RedirectStep(ArchView(e, a), s.core.fe, s.ibus, FetchIn(e, s.core, Inputs(e, s, t)), ArchView(e, b));
  }

  // ------------------------------------------------------------------------------------------
  // One clock
  // ------------------------------------------------------------------------------------------

  lemma Parts(e: Env, s: Sys, a: Arch)
    requires Refines(e, s, a)
    ensures WbHalf(s.core, a) && FetchHalf(e, s, a) && ExOk(e, s.core, a) && MemOk(e, s, a) && ResvOk(s.core, a)
    ensures s.core.ex.valid ==> InEx(e, s, a) && !WbTraps(s.core.wb)
    ensures WbTraps(s.core.wb) ==> FetchProof.Quiet(s.core.fe)
    ensures a.pc == (if s.core.ex.valid then s.core.ex.item.pc else s.core.fe.Head())
  {
    hide WbCovered, Settled, WbTraps, FetchProof.Inv, FetchProof.Quiet, ExOk, MemOk, ResvOk, WbWrite, Set, View,
      F.Fe.Head;
  }

  lemma Joined(e: Env, s: Sys, a: Arch)
    requires WbHalf(s.core, a) && ExOk(e, s.core, a) && MemOk(e, s, a) && ResvOk(s.core, a)
    requires FetchProof.Inv(ArchView(e, a), s.core.fe, s.ibus)
    requires WbTraps(s.core.wb) ==> !s.core.ex.valid && FetchProof.Quiet(s.core.fe)
    requires a.pc == (if s.core.ex.valid then s.core.ex.item.pc else s.core.fe.Head())
    ensures Refines(e, s, a)
  {
    hide WbCovered, Settled, WbTraps, FetchProof.Inv, FetchProof.Quiet, ExOk, MemOk, ResvOk, WbWrite, Set, View,
      F.Fe.Head;
  }

  lemma QuietHoldsNothing(e: Env, s: Sys, a: Arch, i: In)
    requires FetchHalf(e, s, a) && IdFire(e, s.core, i)
    ensures s.core.fe.idValid && s.core.fe.Head() == s.core.fe.id.pc && !WbTraps(s.core.wb)
    ensures WbCovered(s.core.wb) && FetchProof.Inv(ArchView(e, a), s.core.fe, s.ibus)
  {
    hide WbCovered, Settled, WbTraps, FetchProof.Inv, Redirect, CanAccept, Hazard, View, FetchProof.Live;
  }

  /** A clock in which nothing leaves EX is invisible. */
  lemma StayStep(e: Env, s: Sys, a: Arch, t: Tick)
    requires s.core.csr.Valid() && a.csr.Valid() && Refines(e, s, a) && Allowed(e, s, t)
        && !ToWb(e, s.core, Inputs(e, s, t))
    ensures Refines(e, NextSys(e, s, t), a)
  {
    hide Refines, NextSys, Inputs, ToWb, Redirect, IdFire, WbHalf, FetchHalf, ExOk, MemOk, WbTraps, FetchProof.Inv,
      FetchProof.Quiet, InEx, F.Fe.Head, Next, NextEx, NextWb, NextDbus, NextResvValid, LrAnswered, F.Next, FetchIn,
      F.After, ReqFire, WellEncoded, CompletesWell, IsAmo, Covered, NoCsrHazard, Settling, FetchProof.NextBus, View;
    var c, i, n := s.core, Inputs(e, s, t), NextSys(e, s, t);
    Parts(e, s, a);
    ClockFields(e, s, t);
    StayWb(e, s, a, t);
    ResvStays(e, c, i);
    RedirectBlocksId(e, c, i);
    FetchRuns(e, s, a, t);
    if c.ex.valid {
      StaysInEx(e, c, i);
      Remains(e, s, a, t);
      WaitingStep(e, s, a, t);
    } else if IdFire(e, c, i) {
      QuietHoldsNothing(e, s, a, i);
      ArrivesSettled(e, s, a, t);
      Arrives(e, s, a, t);
      EmptyBus(e, s, a, i);
      ExecMem(e, n, a);
    } else {
      ExLeft(e, c, i);
      EmptyBus(e, s, a, i);
      ExecMem(e, n, a);
      EmptyEx(e, n.core, a);
    }
    Joined(e, n, a);
  }

  lemma ArrivesSettled(e: Env, s: Sys, a: Arch, t: Tick)
    requires WbHalf(s.core, a) && !WbTraps(s.core.wb)
    ensures a.csr.priv == s.core.csr.priv && a.csr.pmp == s.core.csr.pmp
    ensures !ToWb(e, s.core, Inputs(e, s, t)) ==> a.regs == Settling(e, s.core, Inputs(e, s, t), NO_EXT)
  {
    hide WbCovered, Settled, WbTraps, WbWrite, ToWb, Inputs, Next;
    SettledKeeps(s.core);
    WbWriteIgnoresLines(s.core, Inputs(e, s, t).ext);
  }

  lemma EmptyBus(e: Env, s: Sys, a: Arch, i: In)
    requires s.core.csr.Valid() && a.csr.Valid() && MemOk(e, s, a) && !s.core.ex.valid
    ensures !ReqFire(e, s.core, i) && NextDbus(e, s, i).None? && s.ram == a.ram
  {
    hide Request, InRam, RamIndex, Granted, AfterFirst, Pending, Meaning, Address, StoreRam, AmoResult;
  }

  lemma ExecMem(e: Env, s: Sys, a: Arch)
    requires s.core.csr.Valid() && a.csr.Valid() && s.dbus.None? && s.ram == a.ram
    requires s.core.ex.valid ==> s.core.ex.st == ExState.Exec && !s.core.ex.err && !s.core.ex.misaligned
    ensures MemOk(e, s, a)
  {
    hide Granted, AfterFirst, Pending, Meaning, Address, StoreRam, AmoResult, InRam, RamIndex;
  }

  lemma EmptyEx(e: Env, c: Core, a: Arch)
    requires c.csr.Valid() && a.csr.Valid() && !c.ex.valid
    ensures ExOk(e, c, a)
  {}

  /** What the interpreter's step makes of a commit. */
  lemma Applied(a: Arch, io: Io, o: Commit)
    requires a.csr.Valid() && (o.cmd.Access? ==> Covered(o.cmd.a))
    ensures var b := Apply(a, io, o);
      b.pc == o.next && b.regs == Set(a.regs, o.wr) && b.ram == o.ram && b.resv == o.resv
    ensures !o.cmd.Take? && !o.cmd.Mret? ==>
      Apply(a, io, o).csr.priv == a.csr.priv && Apply(a, io, o).csr.pmp == a.csr.pmp
  {
    hide Csr.EnterTrap, Csr.Return, Csr.WriteState, Csr.Read, Covered, Set;
    match o.cmd {
      case Access(n, op, src) =>
        CoveredWriteKeeps(a.csr, n, Csr.NewValue(op, Csr.Read(a.csr, io.counters, io.ext, n), src));
      case _ =>
    }
  }

  lemma LeftResv(e: Env, s: Sys, i: In, t: Tick, a: Arch, o: Commit)
    requires s.core.csr.Valid() && i == Inputs(e, s, t) && CommitsAs(e, s, i, o) && a.resv == o.resv
    ensures ResvOk(NextSys(e, s, t).core, a)
  {
    hide NextSys, Inputs, NextResvValid, LrAnswered, WbCommand, WbWrite, Completed, Retires, Redirect, ExTarget, Next,
      NextEx, NextWb, NextDbus, ReqFire, FetchIn;
    ClockFields(e, s, t);
  }

  lemma IoCounters(e: Env, s: Sys, t: Tick)
    requires s.core.csr.Valid()
    ensures IoOf(e, s, t).counters == Next(e, s.core, Inputs(e, s, t)).counters && IoOf(e, s, t).ext == t.ext
  {
    hide Next, Inputs;
  }

  lemma CommitFacts(e: Env, s: Sys, t: Tick, i: In, o: Commit)
    requires s.core.csr.Valid() && i == Inputs(e, s, t) && Allowed(e, s, t) && ToWb(e, s.core, i)
        && CommitsAs(e, s, i, o)
    ensures o.cmd.Access? ==> Covered(o.cmd.a)
    ensures WbTraps(Completed(e, s.core, i)) <==> o.cmd.Take? || o.cmd.Mret?
    ensures o.ram == s.ram && o.wr == WbWrite(Next(e, s.core, i), NO_EXT)
    ensures if Redirect(e, s.core, i) then ExTarget(e, s.core, i) == o.next
            else o.next == F.After(s.core.ex.item) && !o.cmd.Take? && !o.cmd.Mret?
    ensures CompletesWell(e, s.core, i)
  {
    hide Inputs, ToWb, WbCommand, WbWrite, Completed, Next, Redirect, ExTarget, F.After, Covered, CompletesWell,
      ResvAfter, Retires, NoCsrHazard, WellEncoded, IsAmo;
    CompletedIsCovered(e, s.core, i);
  }

  lemma LeftBus(e: Env, s: Sys, a: Arch, i: In)
    requires s.core.csr.Valid() && a.csr.Valid() && MemOk(e, s, a) && ToWb(e, s.core, i)
    ensures !ReqFire(e, s.core, i) && NextDbus(e, s, i).None?
  {
    hide ToWb, ReqFire, NextDbus, Granted, AfterFirst, Pending, Meaning, Address, StoreRam, AmoResult, InRam,
      RamIndex;
    NeedsEx(e, s.core, i);
    BusFree(e, s, i);
  }

  lemma ThenHead(e: Env, c: Core, a: Arch)
    requires a.csr.Valid() && c.ex.valid && ExOk(e, c, a)
    ensures F.After(c.ex.item) == c.fe.Head()
  {
    hide F.After, F.Fe.Head, View, F.ParseAt, FromFetch, Rs1, Rs2, Get;
  }

  lemma SameView(e: Env, a: Arch, b: Arch)
    requires a.csr.Valid() && b.csr.Valid() && a.csr.pmp == b.csr.pmp && a.csr.priv == b.csr.priv
    ensures ArchView(e, a) == ArchView(e, b)
  {
    hide View;
  }

  lemma ArrivesLeft(e: Env, s: Sys, a: Arch, t: Tick, wr: Option<Write>)
    requires WbHalf(s.core, a) && !WbTraps(s.core.wb) && ToWb(e, s.core, Inputs(e, s, t))
    requires wr == WbWrite(Next(e, s.core, Inputs(e, s, t)), NO_EXT)
    ensures a.csr.priv == s.core.csr.priv && Set(a.regs, wr) == Settling(e, s.core, Inputs(e, s, t), NO_EXT)
  {
    hide WbCovered, Settled, WbTraps, WbWrite, ToWb, Inputs, Next, Set;
    SettledKeeps(s.core);
    WbWriteIgnoresLines(s.core, Inputs(e, s, t).ext);
  }

  /** A clock in which an instruction leaves EX is one step of the interpreter. */
  lemma LeaveStep(e: Env, s: Sys, a: Arch, t: Tick)
    requires s.core.csr.Valid() && a.csr.Valid() && Refines(e, s, a) && Allowed(e, s, t)
        && ToWb(e, s.core, Inputs(e, s, t))
    ensures Refines(e, NextSys(e, s, t), Step(e, a, IoOf(e, s, t)))
  {
    hide Refines, NextSys, Inputs, ToWb, Redirect, IdFire, WbHalf, FetchHalf, ExOk, MemOk, WbTraps, FetchProof.Inv,
      FetchProof.Quiet, InEx, F.Fe.Head, Next, NextEx, NextWb, NextDbus, NextResvValid, LrAnswered, F.Next, FetchIn,
      F.After, ReqFire, WellEncoded, CompletesWell, IsAmo, Covered, NoCsrHazard, Settling, FetchProof.NextBus, View,
      Outcome, CommitsAs, IoOf, Apply, ResvOk, ExTarget;
    var c, i, n, io := s.core, Inputs(e, s, t), NextSys(e, s, t), IoOf(e, s, t);
    var o := Outcome(e, a, io);
    var b := Apply(a, io, o);
    Parts(e, s, a);
    NeedsEx(e, c, i);
    ClockFields(e, s, t);
    LeavingCommits(e, s, a, t);
    IoCounters(e, s, t);
    LeaveWb(e, s, a, t, io, o);
    CommitFacts(e, s, t, i, o);
    Applied(a, io, o);
    LeftResv(e, s, i, t, b, o);
    LeftBus(e, s, a, i);
    RedirectBlocksId(e, c, i);
    if Redirect(e, c, i) {
      FetchRestarts(e, s, a, t, b);
      ExLeft(e, c, i);
      ExecMem(e, n, b);
      EmptyEx(e, n.core, b);
    } else {
      FetchRuns(e, s, a, t);
      SameView(e, a, b);
      ThenHead(e, c, a);
      if IdFire(e, c, i) {
        QuietHoldsNothing(e, s, a, i);
        ArrivesLeft(e, s, a, t, o.wr);
        Arrives(e, s, b, t);
        ExecMem(e, n, b);
      } else {
        ExLeft(e, c, i);
        ExecMem(e, n, b);
        EmptyEx(e, n.core, b);
      }
    }
    Joined(e, n, b);
  }
}
