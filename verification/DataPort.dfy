/** The data port over every run, with no restriction on programs or inputs; and the inputs on
    which the pipeline does not do what its specification asks. */
module DataPort {
  import opened Words
  import opened Instr
  import opened Decoder
  import F = Fetch
  import FetchProof
  import Pmp
  import Csr
  import opened Isa
  import opened Pipeline
  import opened Memory
  import opened System
  import opened RefineAccess
  import opened RefineTheorem

  // ------------------------------------------------------------------------------------------
  // Requests and answers
  // ------------------------------------------------------------------------------------------

  /** A request is outstanding exactly while EX waits for its answer. */
  predicate PortOk(s: Sys) { s.dbus.Some? <==> RspReady(s.core) }

  lemma MulDivIsNoAccess(x: Ex)
    ensures IsMulDiv(x.instr) ==> !IsLoad(x.instr) && !IsStore(x.instr) && !IsAtomic(x.instr)
  {
    hide Opcode, Funct7;
  }

  /** A request that is not accepted is driven again, unchanged, in the next clock. */
  lemma RequestHeld(e: Env, c: Core, i: In)
    requires c.csr.Valid() && Requesting(e, c) && !i.dReady
    ensures Requesting(e, Next(e, c, i)) && Request(e, Next(e, c, i)) == Request(e, c)
  {
    hide F.Next, FetchIn, Csr.Execute, Csr.NextCounters, Set, NextResvValid, CsrInput, NextWb, WbWrite, WbCommand,
      MemAccess, Request, ExResult, AluResult, Redirect, IdFire, Pipeline.Misaligned, IsLoad, IsStore, Funct3, IsAmo;
    RequestingStays(e, c, i);
    StaysInEx(e, c, i);
    HeldFields(e, c, Next(e, c, i));
  }

  lemma RequestingStays(e: Env, c: Core, i: In)
    requires c.csr.Valid() && Requesting(e, c) && !i.dReady
    ensures !ToWb(e, c, i) && c.ex.valid && !AmoAnswered(c, i)
    ensures var y := Advanced(e, c, i);
      y.valid && y.instr == c.ex.instr && y.rs2v == c.ex.rs2v
          && y.st == (if c.ex.st == AmoStoreReq then AmoStoreReq else MemReq) &&
      y.result == ReqAddr(e, c)
  {
    hide AluResult, TriggerHit, Pipeline.Misaligned, DAllow, IsLoad, IsStore, IsMulDiv, Funct5, IsAtomic;
    MulDivIsNoAccess(c.ex);
  }

  lemma HeldFields(e: Env, c: Core, n: Core)
    requires c.csr.Valid() && n.csr.Valid() && Requesting(e, c) && n.ex.valid && n.ex.instr == c.ex.instr
        && n.ex.rs2v == c.ex.rs2v
    requires n.amoOld == c.amoOld && n.ex.result == ReqAddr(e, c)
        && n.ex.st == if c.ex.st == AmoStoreReq then AmoStoreReq else MemReq
    ensures Requesting(e, n) && Request(e, n) == Request(e, c)
  {
    hide MemAccess, AluResult, IsAtomic, IsSc, IsStore, AmoNew, StoreData, StoreStrobe, Funct3;
  }

  lemma WaitsDoNotRequest(e: Env, c: Core)
    requires c.csr.Valid()
    ensures RspReady(c) ==> !Requesting(e, c)
  {
    hide MemAccess;
  }

  /** EX waits for an answer after a clock exactly if a request was accepted or one is still owed. */
  lemma PortAdvances(e: Env, c: Core, i: In)
    requires c.csr.Valid()
    ensures RspReady(Next(e, c, i)) <==> ReqFire(e, c, i) || (RspReady(c) && !RspFire(c, i))
  {
    hide MemAccess, Exception, IsJal, IsJalr, Taken, IsEcall, IsEbreak, IsMret, TakesIrq, Hazard, Operand, IdInstr,
      IdBadC, F.Next, FetchIn, Csr.Execute, Csr.NextCounters, Set, NextResvValid, CsrInput, NextWb, WbWrite,
      WbCommand, ExResult, AluResult, Pipeline.Misaligned, IsLoad, IsStore, Funct3, IsAmo;
  }

  /** No request is made while an answer is due, and every answer is awaited: over all runs. */
  lemma PortStep(e: Env, s: Sys, t: Tick)
    requires s.core.csr.Valid() && PortOk(s)
    ensures PortOk(NextSys(e, s, t))
    ensures Requesting(e, s.core) ==> s.dbus.None?
  {
    hide Next, Requesting, RspReady, Request, NextRam, InRam, RamIndex, FetchProof.NextBus, FetchIn;
    WaitsDoNotRequest(e, s.core);
    PortAdvances(e, s.core, Inputs(e, s, t));
  }

  /** Answers the data bus delivers, and requests it accepts, in a run. */
  function Accepted(e: Env, s: Sys, ts: seq<Tick>): (r: nat)
    requires s.core.csr.Valid()
    decreases |ts|
  {
    if ts == [] then 0
    else (if ReqFire(e, s.core, Inputs(e, s, ts[0])) then 1 else 0) + Accepted(e, NextSys(e, s, ts[0]), ts[1..])
  }

  function Answered(e: Env, s: Sys, ts: seq<Tick>): (r: nat)
    requires s.core.csr.Valid()
    decreases |ts|
  {
    if ts == [] then 0
    else (if RspFire(s.core, Inputs(e, s, ts[0])) then 1 else 0) + Answered(e, NextSys(e, s, ts[0]), ts[1..])
  }

  function Due(s: Sys): (r: nat) { if s.dbus.Some? then 1 else 0 }

  lemma StepCount(e: Env, s: Sys, t: Tick)
    requires s.core.csr.Valid() && PortOk(s)
    ensures var i := Inputs(e, s, t);
      Due(s) + (if ReqFire(e, s.core, i) then 1 else 0) == (if RspFire(s.core, i) then 1 else 0) + Due(NextSys(e, s, t))
  {
    hide Next, MemAccess, Request, InRam, RamIndex, NextRam, FetchProof.NextBus, FetchIn;
  }

  /** In every run each accepted request is answered once, and at most one is ever outstanding. */
  lemma {:induction false} PortRun(e: Env, s: Sys, ts: seq<Tick>)
    requires s.core.csr.Valid() && PortOk(s)
    ensures PortOk(SysRun(e, s, ts))
    ensures Due(s) + Accepted(e, s, ts) == Answered(e, s, ts) + Due(SysRun(e, s, ts))
    decreases |ts|
  {
    hide PortOk, NextSys, Inputs, ReqFire, RspFire, Due;
    if ts != [] {
      PortStep(e, s, ts[0]);
      StepCount(e, s, ts[0]);
      PortRun(e, NextSys(e, s, ts[0]), ts[1..]);
    }
  }

  // ------------------------------------------------------------------------------------------
  // Where the pipeline departs from its specification
  // ------------------------------------------------------------------------------------------

  /** An instruction in EX either stays, or leaves through WB, unless it is an AMO whose read beat
      was answered with an error: that one disappears without completing or trapping. */
  lemma LeavesThroughWb(e: Env, c: Core, i: In)
    requires c.csr.Valid() && c.ex.valid
    ensures ToWb(e, c, i) || SameAccess(c.ex, NextEx(e, c, i)) <==>
      !(c.ex.st == MemWait && IsAmo(c.ex.instr) && i.dRsp.Some? && i.dRsp.value.err)
  {
    hide MemAccess, Exception, IsJal, IsJalr, Taken, IsEcall, IsEbreak, IsMret, TakesIrq, Hazard, Loaded, ExResult,
      AluResult, Pipeline.Misaligned, IsLoad, IsStore, Funct3, IsAmo;
    if !ToWb(e, c, i) { StaysInEx(e, c, i); }
  }

  /** An encoding that traps in decode still makes its memory access exactly when it looks like a
      load, store or atomic that is aligned and permitted. */
  lemma IllegalStillAccesses(e: Env, c: Core)
    requires c.csr.Valid() && c.ex.valid && c.ex.st == ExState.Exec && !DecLegal(c.ex)
    ensures Requesting(e, c) <==>
      AccessRaw(c) && !Pipeline.Misaligned(AluResult(c.ex), Funct3(c.ex.instr)) && DAllow(c.ex, c.csr)
  {
    hide AluResult, DAllow, Pipeline.Misaligned, Funct3, AccessRaw, DecLegal;
  }

  /** The instruction in WB is about to change mepc. */
  predicate WritesMepc(c: Core, ext: Csr.Ext)
    requires c.csr.Valid()
  {
    match WbCommand(c.wb)
    case Access(a, op, src) =>
      a.bits == Csr.MEPC && Csr.EvenWord(Csr.NewValue(op, Csr.Read(c.csr, c.counters, ext, a), src)) != c.csr.mepc
    case Take(t) => t.epc != c.csr.mepc
    case _ => false
  }

  /** MRET in EX goes to the mepc of before the clock: to the one it will find in the CSR unit exactly
      if the instruction in WB is not about to change mepc. */
  lemma StaleReturn(e: Env, c: Core, i: In)
    requires c.csr.Valid() && c.ex.valid && c.ex.st == ExState.Exec && IsMret(c.ex.instr)
    requires ToWb(e, c, i) && !Exception(e, c, i) && !TakesIrq(c, i)
    ensures ExTarget(e, c, i) == Next(e, c, i).csr.mepc <==> !WritesMepc(c, i.ext)
  {
    hide ToWb, Exception, TakesIrq, WbCommand, Funct3, Funct12, Csr.EvenWord, Csr.NewValue, Csr.Read, Csr.MstatusWarl,
      Csr.WriteCfg, Csr.WriteAddr, Csr.CfgSlot, Csr.AddrIndex, Csr.NoTimeBit, Csr.TrapMstatus, Csr.MretMstatus,
      Csr.Mpp, NextEx, NextWb, NextResvValid, LrAnswered, AmoAnswered, F.Next, FetchIn, Csr.NextCounters, Set,
      WbWrite;
    MretIsNoJump(c.ex);
  }

  lemma MretIsNoJump(x: Ex)
    ensures IsMret(x.instr) ==>
      !IsJal(x.instr) && !IsJalr(x.instr) && !Taken(x) && !IsEcall(x.instr) && !IsEbreak(x.instr)
  {
    hide Opcode, Funct3, Funct12;
  }

  /** A failing SC leaves the reservation: only a redirect in the same clock drops it. */
  lemma FailedScKeepsReservation(e: Env, c: Core, i: In)
    requires c.csr.Valid() && c.ex.valid && IsSc(c.ex.instr) && c.ex.st == ExState.Exec && ToWb(e, c, i)
    ensures NextResvValid(e, c, i) <==> c.resvValid && !Redirect(e, c, i)
  {
    hide ToWb, Redirect, IsSc, IsLr;
  }
}
