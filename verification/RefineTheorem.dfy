/** The pipelined core refines the sequential interpreter over every run and latency schedule. */
module RefineTheorem {
  import opened Words
  import opened Instr
  import F = Fetch
  import FetchProof
  import Pmp
  import Csr
  import opened Isa
  import opened Pipeline
  import opened System
  import opened Refine
  import opened RefineBase
  import opened RefineCommit
  import opened RefineSystem
  import opened RefineStep
  import opened RefineBypass
  import opened RefineRun

  /** The architectural state after one clock of the system. */
  function ArchNext(e: Env, s: Sys, a: Arch, t: Tick): (r: Arch)
    requires s.core.csr.Valid() && a.csr.Valid()
    ensures r.csr.Valid()
  {
    if ToWb(e, s.core, Inputs(e, s, t)) then Step(e, a, IoOf(e, s, t)) else a
  }

  /** Each clock is invisible or exactly one step of the interpreter. */
  lemma ClockRefines(e: Env, s: Sys, a: Arch, t: Tick)
    requires s.core.csr.Valid() && a.csr.Valid() && Refines(e, s, a) && Allowed(e, s, t)
    ensures Refines(e, NextSys(e, s, t), ArchNext(e, s, a, t))
  {
    hide Refines, Allowed, ToWb, NextSys, Step, Inputs, IoOf;
    if ToWb(e, s.core, Inputs(e, s, t)) { LeaveStep(e, s, a, t); } else { StayStep(e, s, a, t); }
  }

  // ------------------------------------------------------------------------------------------
  // Runs
  // ------------------------------------------------------------------------------------------

  function SysRun(e: Env, s: Sys, ts: seq<Tick>): (r: Sys)
    requires s.core.csr.Valid()
    ensures r.core.csr.Valid()
    decreases |ts|
  {
    if ts == [] then s else SysRun(e, NextSys(e, s, ts[0]), ts[1..])
  }

  predicate AllowedRun(e: Env, s: Sys, ts: seq<Tick>)
    requires s.core.csr.Valid()
    decreases |ts|
  {
    ts == [] || (Allowed(e, s, ts[0]) && AllowedRun(e, NextSys(e, s, ts[0]), ts[1..]))
  }

  /** What the run supplies to each instruction that completes in it. */
  function Supplied(e: Env, s: Sys, ts: seq<Tick>): (r: seq<Io>)
    requires s.core.csr.Valid()
    decreases |ts|
  {
    if ts == [] then []
    else (if ToWb(e, s.core, Inputs(e, s, ts[0])) then [IoOf(e, s, ts[0])] else [])
         + Supplied(e, NextSys(e, s, ts[0]), ts[1..])
  }

  function IsaRun(e: Env, a: Arch, ios: seq<Io>): (r: Arch)
    requires a.csr.Valid()
    ensures r.csr.Valid()
    decreases |ios|
  {
    if ios == [] then a else IsaRun(e, Step(e, a, ios[0]), ios[1..])
  }

  /** One instruction's visible effect: its pc, register write, command to the CSR unit, and
      whether it counts as retired. */
  datatype Entry = Entry(pc: Word, wr: Option<Write>, cmd: Csr.Command, retired: bool)

  function WbEntry(c: Core, ext: Csr.Ext): (r: seq<Entry>)
    requires c.csr.Valid()
  {
    if c.wb.valid then [Entry(c.wb.item.pc, WbWrite(c, ext), WbCommand(c.wb), Retires(c.wb))] else []
  }

  /** What WB does in the clocks of a run. */
  function WbLog(e: Env, s: Sys, ts: seq<Tick>): (r: seq<Entry>)
    requires s.core.csr.Valid()
    decreases |ts|
  {
    if ts == [] then [] else WbEntry(s.core, ts[0].ext) + WbLog(e, NextSys(e, s, ts[0]), ts[1..])
  }

  function IsaEntry(e: Env, a: Arch, io: Io): (r: Entry)
    requires a.csr.Valid()
  {
    var o := Outcome(e, a, io);
    Entry(a.pc, o.wr, o.cmd, o.retired)
  }

  function IsaLog(e: Env, a: Arch, ios: seq<Io>): (r: seq<Entry>)
    requires a.csr.Valid()
    decreases |ios|
  {
    if ios == [] then [] else [IsaEntry(e, a, ios[0])] + IsaLog(e, Step(e, a, ios[0]), ios[1..])
  }

  /** What a clock brings into WB is what the interpreter's step does. */
  lemma ClockEntry(e: Env, s: Sys, a: Arch, t: Tick)
    requires s.core.csr.Valid() && a.csr.Valid() && Refines(e, s, a) && Allowed(e, s, t)
    ensures WbEntry(NextSys(e, s, t).core, NO_EXT)
         == if ToWb(e, s.core, Inputs(e, s, t)) then [IsaEntry(e, a, IoOf(e, s, t))] else []
    ensures WbEntry(s.core, t.ext) == WbEntry(s.core, NO_EXT)
  {
    hide Refines, Allowed, ToWb, NextSys, Inputs, IoOf, Outcome, WbHalf, FetchHalf, ExOk, MemOk, ResvOk, InEx,
      FetchProof.Quiet, F.Fe.Head, Next, NextEx, NextDbus, NextResvValid, LrAnswered, F.Next, FetchIn,
      FetchProof.NextBus, ReqFire, WbWrite, WbCommand, Retires, WbTraps, Redirect, ExTarget, F.After, ResvAfter;
    var c, i := s.core, Inputs(e, s, t);
    Parts(e, s, a);
    WbIsCovered(c, a);
    WbWriteIgnoresLines(c, t.ext);
    ClockFields(e, s, t);
    NeedsEx(e, c, i);
    if ToWb(e, c, i) {
      LeavingCommits(e, s, a, t);
      CompletedPc(e, c, i);
    }
  }

  lemma WbIsCovered(c: Core, a: Arch)
    requires WbHalf(c, a)
    ensures WbCovered(c.wb)
  {
    hide WbCovered, Settled, WbWrite, Set;
  }

  lemma CompletedPc(e: Env, c: Core, i: In)
    requires c.csr.Valid()
    ensures Completed(e, c, i).valid && Completed(e, c, i).item == c.ex.item
  {
    hide TriggerHit, DoneErr, DoneMisaligned, BadTarget, LegalEff, ExResult, AluResult, NextTarget, ExecToWb, MemToWb,
      Csr.PendingIrq, ScSucceeds, Rs1, Funct3;
  }

  /** Over every allowed run the system is at the interpreter's state, and what WB has done,
      together with what it still holds, is the interpreter's log in the same order. */
  lemma {:induction false} PipelineRefinesIsa(e: Env, s: Sys, a: Arch, ts: seq<Tick>)
    requires s.core.csr.Valid() && a.csr.Valid() && Refines(e, s, a) && AllowedRun(e, s, ts)
    ensures Refines(e, SysRun(e, s, ts), IsaRun(e, a, Supplied(e, s, ts)))
    ensures WbLog(e, s, ts) + WbEntry(SysRun(e, s, ts).core, NO_EXT)
         == WbEntry(s.core, NO_EXT) + IsaLog(e, a, Supplied(e, s, ts))
    decreases |ts|
  {
    hide Refines, Allowed, ToWb, NextSys, Step, Inputs, IoOf, WbEntry, IsaEntry;
    if ts == [] {
      assert WbLog(e, s, ts) + WbEntry(s.core, NO_EXT) == WbEntry(s.core, NO_EXT) + IsaLog(e, a, []);
    } else {
      var n, b := NextSys(e, s, ts[0]), ArchNext(e, s, a, ts[0]);
      ClockRefines(e, s, a, ts[0]);
      ClockEntry(e, s, a, ts[0]);
      PipelineRefinesIsa(e, n, b, ts[1..]);
      var rest := Supplied(e, n, ts[1..]);
      if ToWb(e, s.core, Inputs(e, s, ts[0])) {
        assert Supplied(e, s, ts) == [IoOf(e, s, ts[0])] + rest;
        assert ([IoOf(e, s, ts[0])] + rest)[1..] == rest;
      } else {
        assert Supplied(e, s, ts) == rest;
      }
      calc {
        WbLog(e, s, ts) + WbEntry(SysRun(e, s, ts).core, NO_EXT);
        WbEntry(s.core, NO_EXT) + (WbLog(e, n, ts[1..]) + WbEntry(SysRun(e, n, ts[1..]).core, NO_EXT));
        WbEntry(s.core, NO_EXT) + (WbEntry(n.core, NO_EXT) + IsaLog(e, b, rest));
        WbEntry(s.core, NO_EXT) + IsaLog(e, a, Supplied(e, s, ts));
      }
    }
  }
}
