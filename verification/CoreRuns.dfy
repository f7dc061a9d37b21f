/** What the refinement says of the core's own registers and buses over runs from reset. */
module CoreRuns {
  import opened Words
  import opened Instr
  import F = Fetch
  import FetchProof
  import Csr
  import opened Isa
  import opened Pipeline
  import opened DataPath
  import opened System
  import opened Refine
  import opened RefineBase
  import opened RefineCommit
  import opened RefineStep
  import opened RefineRun
  import opened RefineTheorem
  import opened RefineTrace
  import RefineBypass
  import opened PipelineFacts
  import opened Alignment
  import opened Reservation

  // ------------------------------------------------------------------------------------------
  // One instruction
  // ------------------------------------------------------------------------------------------

  function CoreResv(c: Core): (x: Option<Word>) { if c.resvValid then Some(c.resvAddr) else None }

  /** What the instruction leaving EX does, read off the core: where fetch goes on, and after the clock
      WB's register write and command, RAM, the reservation registers and whether it counts. */
  function CoreCommit(e: Env, s: Sys, t: Tick): (o: Commit)
    requires s.core.csr.Valid()
  {
    var i, n := Inputs(e, s, t), NextSys(e, s, t);
    Commit(if Redirect(e, s.core, i) then ExTarget(e, s.core, i) else F.After(s.core.ex.item),
           WbWrite(n.core, NO_EXT), WbCommand(n.core.wb), n.ram, CoreResv(n.core), Retires(n.core.wb))
  }

  /** It is the interpreter's outcome. */
  lemma CoreCommitAgrees(e: Env, s: Sys, a: Arch, t: Tick)
    requires s.core.csr.Valid() && a.csr.Valid() && Refines(e, s, a) && Allowed(e, s, t)
    requires ToWb(e, s.core, Inputs(e, s, t))
    ensures CoreCommit(e, s, t) == Outcome(e, a, IoOf(e, s, t)) && s.core.ex.item.pc == a.pc
  {
    hide Refines, Allowed, ToWb, NextSys, Inputs, IoOf, Outcome, WbHalf, FetchHalf, ExOk, MemOk, ResvOk,
      FetchProof.Quiet, F.Fe.Head, Next, NextEx, NextDbus, F.Next, FetchIn, FetchProof.NextBus, ReqFire, WbWrite,
      WbCommand, Retires, WbTraps, WbCovered, Settled, Redirect, ExTarget, F.After, NextResvValid, LrAnswered,
      Completed;
    Parts(e, s, a);
    RefineBypass.NeedsEx(e, s.core, Inputs(e, s, t));
    ClockFields(e, s, t);
    LeavingCommits(e, s, a, t);
    LeftBus(e, s, a, Inputs(e, s, t));
  }

  // ------------------------------------------------------------------------------------------
  // Runs from reset
  // ------------------------------------------------------------------------------------------

  /** An allowed run from reset. */
  ghost predicate FromVector(e: Env, s: Sys, vector: Word, ts: seq<Tick>) {
    s.core.csr.Valid() && AtReset(s, vector) && AllowedRun(e, s, ts)
  }

  /** The interpreter's state at the end of it. */
  function ArchAt(e: Env, s: Sys, vector: Word, ts: seq<Tick>): (a: Arch)
    requires s.core.csr.Valid()
    ensures a.csr.Valid()
  {
    IsaRun(e, Visible(s, vector), Supplied(e, s, ts))
  }

  lemma RunRefines(e: Env, s: Sys, vector: Word, ts: seq<Tick>)
    requires FromVector(e, s, vector, ts)
    ensures Refines(e, SysRun(e, s, ts), ArchAt(e, s, vector, ts))
    ensures WbLog(e, s, ts) <= IsaLog(e, Visible(s, vector), Supplied(e, s, ts))
  {
    hide Refines, SysRun, IsaRun, Supplied, AllowedRun, Visible, IsaLog, WbLog;
    ResetRefines(e, s, vector);
    ResetIsIdle(s, vector);
    PipelineRefinesIsa(e, s, Visible(s, vector), ts);
    var log := IsaLog(e, Visible(s, vector), Supplied(e, s, ts));
    assert [] + log == log;
  }

  lemma RefinedParts(e: Env, s: Sys, a: Arch)
    requires Refines(e, s, a)
    ensures s.core.csr.Valid() && a.csr == Settled(s.core) && a.resv == CoreResv(s.core)
    ensures a.pc == if s.core.ex.valid then s.core.ex.item.pc else s.core.fe.Head()
  {
    hide Settled, WbWrite, Set, FetchProof.Inv, WbTraps, ExOk, MemOk, F.Fe.Head, WbCovered, FetchProof.Quiet;
  }

  /** Every trap WB enters in a run is precise: for a fault neither WB nor RAM nor the reservation keeps
      any effect of the instruction and mepc gets its pc; for an interrupt the instruction has all its
      effects and mepc gets its successor. */
  lemma CoreTrapsArePrecise(e: Env, s: Sys, vector: Word, ts: seq<Tick>, t: Tick)
    requires FromVector(e, s, vector, ts)
    requires var r := SysRun(e, s, ts); Allowed(e, r, t) && ToWb(e, r.core, Inputs(e, r, t))
    ensures var r, a := SysRun(e, s, ts), ArchAt(e, s, vector, ts);
      && r.core.ex.item.pc == a.pc
      && Precise(a, IoOf(e, r, t), CoreCommit(e, r, t), Outcome(e, a, Unraised(IoOf(e, r, t))))
  {
    hide Refines, SysRun, IsaRun, Supplied, AllowedRun, Visible, ArchAt, Allowed, ToWb, Inputs, IoOf, CoreCommit,
      Outcome, Precise, Unraised, AtReset;
    var r, a := SysRun(e, s, ts), ArchAt(e, s, vector, ts);
    RunRefines(e, s, vector, ts);
    CoreCommitAgrees(e, r, a, t);
    TrapsArePrecise(e, a, IoOf(e, r, t));
  }

  /** From an even reset vector, no instruction WB sees in a run raises the misaligned-fetch exception,
      every pc it logs and saves is even, and so are the pc in EX, the next pc of fetch, and mepc. */
  lemma CoreFetchesAreAligned(e: Env, s: Sys, vector: Word, ts: seq<Tick>)
    requires FromVector(e, s, vector, ts) && Even(vector) && Even(s.core.csr.mepc)
    ensures forall k :: 0 <= k < |WbLog(e, s, ts)| ==> EvenEntry(WbLog(e, s, ts)[k])
    ensures var c := SysRun(e, s, ts).core;
      && Even(if c.ex.valid then c.ex.item.pc else c.fe.Head())
      && Even(Settled(c).mepc)
  {
    hide Refines, SysRun, IsaRun, Supplied, AllowedRun, IsaLog, WbLog, Even, EvenEntry, F.Fe.Head, Settled;
    RunRefines(e, s, vector, ts);
    RefinedParts(e, SysRun(e, s, ts), ArchAt(e, s, vector, ts));
    NoMisalignedFetch(e, Visible(s, vector), Supplied(e, s, ts));
    var log, all := WbLog(e, s, ts), IsaLog(e, Visible(s, vector), Supplied(e, s, ts));
    forall k | 0 <= k < |log| ensures EvenEntry(log[k]) { assert log[k] == all[k]; }
  }

  /** The reservation registers hold x exactly if some LR at x has completed in the run, with no trap,
      return, control transfer, other LR, or SC to it since. */
  lemma CoreReservation(e: Env, s: Sys, vector: Word, ts: seq<Tick>, x: Word)
    requires FromVector(e, s, vector, ts)
    ensures var c := SysRun(e, s, ts).core;
      c.resvValid && c.resvAddr == x <==> ReservedSince(e, Visible(s, vector), Supplied(e, s, ts), x)
  {
    hide Refines, SysRun, IsaRun, Supplied, AllowedRun, ReservedSince, Calm, Settled, F.Fe.Head;
    RunRefines(e, s, vector, ts);
    RefinedParts(e, SysRun(e, s, ts), ArchAt(e, s, vector, ts));
    ReservationHistory(e, Visible(s, vector), Supplied(e, s, ts), x);
  }

  /** The register an SC writes is zero exactly in that case. */
  lemma CoreScSucceedsAfterLr(e: Env, s: Sys, vector: Word, ts: seq<Tick>, t: Tick)
    requires FromVector(e, s, vector, ts)
    requires var r := SysRun(e, s, ts); Allowed(e, r, t) && ToWb(e, r.core, Inputs(e, r, t))
    requires MeaningAt(e, ArchAt(e, s, vector, ts)).Sc? && CoreCommit(e, SysRun(e, s, ts), t).wr.Some?
    ensures var a := ArchAt(e, s, vector, ts);
      CoreCommit(e, SysRun(e, s, ts), t).wr.value.v == ZERO
      <==> ReservedSince(e, Visible(s, vector), Supplied(e, s, ts), DataAddress(a.regs, MeaningAt(e, a)))
  {
    hide Refines, SysRun, IsaRun, Supplied, AllowedRun, Allowed, ToWb, Inputs, IoOf, CoreCommit, Outcome,
      ReservedSince, MeaningAt, DataAddress;
    var r, a := SysRun(e, s, ts), ArchAt(e, s, vector, ts);
    RunRefines(e, s, vector, ts);
    CoreCommitAgrees(e, r, a, t);
    ScSucceedsAfterLr(e, Visible(s, vector), Supplied(e, s, ts), IoOf(e, r, t));
  }

  /** An SC that completes puts exactly one write of its operand on the bus if it returns zero, and
      nothing otherwise. With BusCarriesIsaAccesses this is what the data bus carries. */
  lemma ScTouches(e: Env, a: Arch, io: Io)
    requires a.csr.Valid() && MeaningAt(e, a).Sc? && Outcome(e, a, io).wr.Some?
    ensures var m := MeaningAt(e, a);
      Touches(e, a, io.first.data)
      == if Outcome(e, a, io).wr.value.v == ZERO
         then [WriteOf(W, DataAddress(a.regs, m), Get(a.regs, m.rs2))] else []
  {
    hide F.ParseAt, View, Meaning, Breaks, Denied, Get, MayAccess, Isa.Aligned, StoreRam, F.After, Completes, Faults,
      DataAddress, WriteError, Flag, WriteOf;
    CompletedWrite(a, io);
    Flags();
  }
}
