/** The pipeline makes progress: if the buses keep granting and answering, instructions keep
    completing, at least one in every twenty such clocks. */
module Progress {
  import opened Words
  import opened Instr
  import opened Decoder
  import F = Fetch
  import FetchProof
  import FetchRun
  import Pmp
  import Csr
  import opened Isa
  import opened Pipeline
  import opened System
  import opened Refine
  import opened RefineBase
  import opened RefineRun
  import opened RefineTheorem
  import opened RefineAccess
  import opened RefineStep
  import DataPath

  // ------------------------------------------------------------------------------------------
  // Fetch
  // ------------------------------------------------------------------------------------------

  predicate Outstanding(f: F.Fe) { f.Waiting() || f.pfInflight }

  /** Clocks to the next instruction at ID, if the bus grants and answers at once. */
  function FetchSteps(f: F.Fe): (r: nat) {
    3 * FetchRun.Rank(f) + (if f.st == F.Req && f.BufHit() then 1 else 0) - (if Outstanding(f) then 1 else 0)
  }

  predicate Served(f: F.Fe, i: F.FeIn) { if Outstanding(f) then i.rspValid else i.ready }

  /** The next instruction is there, or no further away, and closer if the clock was served. */
  predicate Closer(f: F.Fe, n: F.Fe, served: bool) {
    n.idValid || (FetchSteps(n) <= FetchSteps(f) && (served ==> FetchSteps(n) < FetchSteps(f)))
  }

  lemma RequestingFalls(m: F.IMem, f: F.Fe, b: FetchProof.Bus, i: F.FeIn)
    requires FetchRun.Idle(m, f, b, i) && f.st == F.Req
    ensures Closer(f, F.Next(f, i), Served(f, i))
  {
    hide WordOf, IsUpper, HalfOf, Zext, Join, F.IsShort, Plus, NextWord, F.ParseAt, F.After, FetchProof.BufOk,
      FetchProof.StraddleOk;
  }

  lemma OthersFall(m: F.IMem, f: F.Fe, b: FetchProof.Bus, i: F.FeIn)
    requires FetchRun.Idle(m, f, b, i) && f.st != F.Req
    ensures Closer(f, F.Next(f, i), Served(f, i))
  {
    hide WordOf, IsUpper, HalfOf, Zext, Join, F.IsShort, Plus, NextWord, F.ParseAt, F.After, FetchProof.BufOk,
      FetchProof.StraddleOk;
  }

  /** No clock takes the next instruction further away, and one that is served brings it closer. */
  lemma FetchFalls(m: F.IMem, f: F.Fe, b: FetchProof.Bus, i: F.FeIn)
    requires FetchRun.Idle(m, f, b, i)
    ensures Closer(f, F.Next(f, i), Served(f, i))
  {
    hide *;
    if f.st == F.Req { RequestingFalls(m, f, b, i); } else { OthersFall(m, f, b, i); }
  }

  // ------------------------------------------------------------------------------------------
  // The pipeline
  // ------------------------------------------------------------------------------------------

  function ExSteps(x: Ex): (r: nat) {
    match x.st
    case Exec => 5
    case MemReq => 4
    case MemWait => 3
    case AmoStoreReq => 2
    case AmoStoreWait => 1
  }

  /** Clocks until an instruction leaves EX, if both buses grant and answer at once. */
  function Steps(c: Core): (n: nat)
    ensures n <= 18
  {
    if c.ex.valid then ExSteps(c.ex) else if c.fe.idValid then 6 else 6 + FetchSteps(c.fe)
  }

  predicate Cooperates(t: Tick) { t.iReady && t.iAnswer && t.dReady && t.dAnswer }

  lemma WaitingFalls(e: Env, s: Sys, a: Arch, t: Tick)
    requires s.core.csr.Valid() && a.csr.Valid() && MemOk(e, s, a) && s.core.ex.valid
    requires !ToWb(e, s.core, Inputs(e, s, t))
    requires var d := Inputs(e, s, t).dRsp;
      s.core.ex.st == MemWait && IsAmo(s.core.ex.instr) && d.Some? ==> !d.value.err
    ensures var x := Advanced(e, s.core, Inputs(e, s, t));
      x.valid && ExSteps(x) <= ExSteps(s.core.ex) && (Cooperates(t) ==> ExSteps(x) < ExSteps(s.core.ex))
  {
    hide MemAccess, ExResult, AluResult, IsLoad, IsStore, Pipeline.Misaligned, Funct3, IsAmo, Granted, AfterFirst,
      Pending, Meaning, DataPath.Address, StoreRam, AmoResult, InRam, RamIndex;
  }

  lemma FetchingFalls(e: Env, s: Sys, a: Arch, t: Tick)
    requires s.core.csr.Valid() && FetchHalf(e, s, a) && !s.core.ex.valid && !s.core.fe.idValid
    requires !Redirect(e, s.core, Inputs(e, s, t))
    ensures var n := F.Next(s.core.fe, FetchIn(e, s.core, Inputs(e, s, t)));
      n.idValid || (FetchSteps(n) <= FetchSteps(s.core.fe) && (Cooperates(t) ==> FetchSteps(n) < FetchSteps(s.core.fe)))
  {
    hide F.Next, FetchSteps, Redirect, ExTarget, ToWb, Hazard, FetchProof.BufOk, FetchProof.StraddleOk,
      FetchProof.Obeys, WbCovered, Settled, WbTraps, FetchProof.Quiet, View, Pmp.Allow, ByteAddress, F.ParseAt,
      F.After, WordOf, NextWord, F.Fe.BusReq, F.Fe.BusAddr;
    FetchObeys(e, s, a, t);
    FetchFalls(ArchView(e, a), s.core.fe, s.ibus, FetchIn(e, s.core, Inputs(e, s, t)));
  }

  /** Until something leaves EX no clock loses ground, and one in which both buses cooperate gains. */
  lemma StepsFall(e: Env, s: Sys, a: Arch, t: Tick)
    requires s.core.csr.Valid() && a.csr.Valid() && Refines(e, s, a) && Allowed(e, s, t)
        && !ToWb(e, s.core, Inputs(e, s, t))
    ensures var n := NextSys(e, s, t).core;
      Steps(n) <= Steps(s.core) && (Cooperates(t) ==> Steps(n) < Steps(s.core))
  {
    hide Refines, NextSys, Inputs, ToWb, Redirect, WbHalf, FetchHalf, ExOk, MemOk, ResvOk, InEx, WbTraps,
      FetchProof.Quiet, F.Fe.Head, Next, Advanced, Loaded, NextWb, NextDbus, NextResvValid, LrAnswered, F.Next,
      FetchIn, ReqFire, WellEncoded, CompletesWell, IsAmo, IsCsrOp, Covered, CsrAddr, NoCsrHazard, FetchProof.NextBus,
      Cooperates, ExSteps, FetchSteps;
    var c, i := s.core, Inputs(e, s, t);
    Parts(e, s, a);
    ClockFields(e, s, t);
    RedirectBlocksId(e, c, i);
    StepBounds(c);
    if c.ex.valid {
      StaysInEx(e, c, i);
      WaitingFalls(e, s, a, t);
    } else if c.fe.idValid {
      assert IdFire(e, c, i);
      LoadedSteps(e, c, i);
    } else {
      FetchingFalls(e, s, a, t);
      ExLeft(e, c, i);
      StepBounds(NextSys(e, s, t).core);
    }
  }

  lemma StepBounds(c: Core)
    ensures FetchSteps(c.fe) >= 2 && 1 <= ExSteps(c.ex) <= 5
  {
    hide F.Fe.BufHit;
  }

  lemma LoadedSteps(e: Env, c: Core, i: In)
    requires c.csr.Valid() && IdFire(e, c, i)
    ensures NextEx(e, c, i).valid && ExSteps(NextEx(e, c, i)) == 5
  {
    hide IdFire, Operand, Advanced, Redirect, IdInstr, IdBadC;
  }

  /** The clocks of a run in which both buses cooperate. */
  function Cooperative(ts: seq<Tick>): (r: nat)
    decreases |ts|
  {
    if ts == [] then 0 else (if Cooperates(ts[0]) then 1 else 0) + Cooperative(ts[1..])
  }

  /** Over every allowed run at least one instruction completes for every twenty clocks in which both
      buses cooperate, however long the stalls in between. */
  lemma {:induction false} InstructionsKeepCompleting(e: Env, s: Sys, a: Arch, ts: seq<Tick>)
    requires s.core.csr.Valid() && a.csr.Valid() && Refines(e, s, a) && AllowedRun(e, s, ts)
    ensures Cooperative(ts) <= 20 * |Supplied(e, s, ts)| + Steps(s.core)
    decreases |ts|
  {
    hide Refines, Allowed, ToWb, NextSys, Step, Inputs, IoOf, Steps, Cooperates;
    if ts != [] {
      ClockRefines(e, s, a, ts[0]);
      InstructionsKeepCompleting(e, NextSys(e, s, ts[0]), ArchNext(e, s, a, ts[0]), ts[1..]);
      if !ToWb(e, s.core, Inputs(e, s, ts[0])) { StepsFall(e, s, a, ts[0]); }
    }
  }
}
