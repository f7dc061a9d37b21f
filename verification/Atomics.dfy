/** LR, SC and AMO in the core's own registers, over every run, with no restriction on programs or
    inputs. */
module Atomics {
  import opened Words
  import opened Instr
  import opened Decoder
  import F = Fetch
  import Csr
  import opened Isa
  import opened Pipeline
  import opened System
  import opened RefineAccess
  import opened RefineRun
  import opened RefineTheorem
  import opened PipelineFacts

  // ------------------------------------------------------------------------------------------
  // The reservation
  // ------------------------------------------------------------------------------------------

  predicate ScAnswered(c: Core, i: In) { c.ex.valid && c.ex.st == MemWait && RspFire(c, i) && IsSc(c.ex.instr) }

  /** A load-reserved at x is answered, and EX does not redirect. */
  predicate LrClock(e: Env, c: Core, i: In, x: Word)
    requires c.csr.Valid()
  {
    LrAnswered(c, i) && c.ex.result == x && !Redirect(e, c, i)
  }

  /** No redirect, and no LR or SC is answered. */
  predicate CalmClock(e: Env, c: Core, i: In)
    requires c.csr.Valid()
  {
    !Redirect(e, c, i) && !LrAnswered(c, i) && !ScAnswered(c, i)
  }

  predicate Reserves(c: Core, x: Word) { c.resvValid && c.resvAddr == x }

  lemma ReservedStep(e: Env, s: Sys, t: Tick, x: Word)
    requires s.core.csr.Valid()
    ensures var i := Inputs(e, s, t);
      Reserves(NextSys(e, s, t).core, x)
      <==> LrClock(e, s.core, i, x) || (CalmClock(e, s.core, i) && Reserves(s.core, x))
  {
    hide Inputs, Redirect, RspFire, IsSc, IsLr, NextEx, NextWb, F.Next, FetchIn, NextDbus, ReqFire, NextSys, Next;
    ClockFields(e, s, t);
  }

  predicate CalmRun(e: Env, s: Sys, ts: seq<Tick>)
    requires s.core.csr.Valid()
    decreases |ts|
  {
    ts == [] || (CalmClock(e, s.core, Inputs(e, s, ts[0])) && CalmRun(e, NextSys(e, s, ts[0]), ts[1..]))
  }

  /** In the run an LR at x is answered, and after it there is no redirect and no LR or SC is answered. */
  predicate ReservedBy(e: Env, s: Sys, ts: seq<Tick>, x: Word)
    requires s.core.csr.Valid()
    decreases |ts|
  {
    ts != [] &&
    var n := NextSys(e, s, ts[0]);
    (LrClock(e, s.core, Inputs(e, s, ts[0]), x) && CalmRun(e, n, ts[1..])) || ReservedBy(e, n, ts[1..], x)
  }

  lemma {:induction false} ReservationOfRun(e: Env, s: Sys, ts: seq<Tick>, x: Word)
    requires s.core.csr.Valid()
    ensures Reserves(SysRun(e, s, ts).core, x)
       <==> (Reserves(s.core, x) && CalmRun(e, s, ts)) || ReservedBy(e, s, ts, x)
    decreases |ts|
  {
    hide NextSys, Inputs, Reserves, LrClock, CalmClock;
    if ts != [] {
      ReservedStep(e, s, ts[0], x);
      ReservationOfRun(e, NextSys(e, s, ts[0]), ts[1..], x);
    }
  }

  // ------------------------------------------------------------------------------------------
  // SC
  // ------------------------------------------------------------------------------------------

  /** An SC on the bus holds its reservation, and only an AMO has a second beat. */
  predicate OnBusOk(c: Core) {
    var x := c.ex;
    x.valid ==>
      && (x.st == MemReq || x.st == MemWait ==>
            (IsSc(x.instr) ==> Reserves(c, x.rs1v)) && (IsAtomic(x.instr) ==> x.result == x.rs1v))
      && (x.st == AmoStoreReq || x.st == AmoStoreWait ==> IsAmo(x.instr) && x.result == x.rs1v)
  }

  lemma AtomicKinds(w: Word)
    ensures IsSc(w) ==> IsAtomic(w) && !IsLoad(w) && !IsStore(w) && !IsLr(w) && !IsAmo(w)
    ensures IsAmo(w) || IsLr(w) ==> IsAtomic(w) && !IsLoad(w) && !IsStore(w) && !IsSc(w)
  {
    hide Opcode, Funct5;
  }

  lemma AtomicAddress(x: Ex)
    requires IsAtomic(x.instr)
    ensures AluResult(x) == x.rs1v && ExResult(x) == x.rs1v
  {
    hide DecImmI, DecImmS, DecImmU, Funct3, Funct7Bit5, Funct7;
  }

  lemma OnBusStep(e: Env, s: Sys, t: Tick)
    requires s.core.csr.Valid() && OnBusOk(s.core)
    ensures OnBusOk(NextSys(e, s, t).core)
  {
    hide Inputs, F.Next, FetchIn, NextDbus, NextSys, Next, NextWb, AluResult, ExResult, IsSc, IsAmo, IsAtomic, IsLoad,
      IsStore, IsLr, Pipeline.Misaligned, Funct3, DAllow, TriggerHit, RspFire, Operand, IdInstr, IdBadC, NextEx, ToWb,
      Redirect, IdFire;
    var c, i, n := s.core, Inputs(e, s, t), NextSys(e, s, t).core;
    ClockFields(e, s, t);
    AtomicKinds(c.ex.instr);
    if IsAtomic(c.ex.instr) { AtomicAddress(c.ex); }
    if n.ex.valid && n.ex.st != ExState.Exec {
      StillInEx(e, c, i);
    }
  }

  /** What is past its first EX cycle was in EX before. */
  lemma StillInEx(e: Env, c: Core, i: In)
    requires c.csr.Valid() && NextEx(e, c, i).valid && NextEx(e, c, i).st != ExState.Exec
    ensures c.ex.valid && !Redirect(e, c, i) && NextEx(e, c, i) == Advanced(e, c, i)
  {
    hide Redirect, IdFire, Operand, IdInstr, IdBadC, MemAccess, ExResult, AluResult, IsLoad, IsStore, IsAmo,
      Pipeline.Misaligned, Funct3, ReqFire, RspFire;
  }

  lemma {:induction false} OnBusRun(e: Env, s: Sys, ts: seq<Tick>)
    requires s.core.csr.Valid() && OnBusOk(s.core)
    ensures OnBusOk(SysRun(e, s, ts).core)
    decreases |ts|
  {
    hide OnBusOk, NextSys;
    if ts != [] {
      OnBusStep(e, s, ts[0]);
      OnBusRun(e, NextSys(e, s, ts[0]), ts[1..]);
    }
  }

  /** An SC without exception goes over the bus exactly if its address is reserved. */
  lemma ScLeaves(e: Env, c: Core, i: In)
    requires c.csr.Valid() && OnBusOk(c) && ToWb(e, c, i) && !Exception(e, c, i) && IsSc(c.ex.instr)
    ensures c.ex.st == MemWait <==> Reserves(c, c.ex.rs1v)
  {
    hide AluResult, ExResult, IsSc, IsAmo, IsAtomic, IsLoad, IsStore, IsLr, Pipeline.Misaligned, Funct3, DAllow,
      TriggerHit, BadTarget, LegalEff;
    AtomicKinds(c.ex.instr);
  }

  /** The request of an SC stores its operand at its address, all four bytes. */
  lemma ScRequest(e: Env, c: Core)
    requires c.csr.Valid() && OnBusOk(c) && Requesting(e, c) && IsSc(c.ex.instr)
    ensures Request(e, c) == DReq(c.ex.rs1v, true, c.ex.rs2v, Strobe(0xF))
  {
    hide AluResult, ExResult, IsSc, IsAmo, IsAtomic, IsLoad, IsStore, IsLr, Pipeline.Misaligned, Funct3, DAllow,
      TriggerHit, StoreData, StoreStrobe, AmoNew;
    AtomicKinds(c.ex.instr);
    AtomicAddress(c.ex);
  }

  lemma FlagIsZero(b: bool)
    ensures Flag(b) == ZERO <==> !b
  {}

  /** Over every run from reset an SC that completes without exception returns zero exactly if it has been
      on the bus, where it writes (ScRequest), and exactly if an LR to its address was answered with no
      redirect and no other LR or SC since. */
  lemma ScReturnsZero(e: Env, s: Sys, vector: Word, ts: seq<Tick>, t: Tick)
    requires s.core.csr.Valid() && AtReset(s, vector)
    requires var r := SysRun(e, s, ts); var i := Inputs(e, r, t);
      ToWb(e, r.core, i) && !Exception(e, r.core, i) && IsSc(r.core.ex.instr)
    ensures var r := SysRun(e, s, ts); var x, b := r.core.ex, NextSys(e, r, t).core.wb;
      && (b.scResult == ZERO <==> x.st == MemWait)
      && (b.scResult == ZERO <==> ReservedBy(e, s, ts, x.rs1v))
  {
    hide SysRun, Inputs, ToWb, Exception, IsSc, AtReset, ReservedBy, CalmRun, NextSys, NextEx, F.Next, FetchIn,
      NextDbus, Next, NextResvValid, LrAnswered, DoneErr, DoneMisaligned, BadTarget, LegalEff, ExResult, AluResult,
      NextTarget, ExecToWb, MemToWb, TriggerHit, Csr.PendingIrq, Rs1, Funct3, IsAmo;
    var r := SysRun(e, s, ts);
    ResetReserves(s, vector);
    OnBusRun(e, s, ts);
    ReservationOfRun(e, s, ts, r.core.ex.rs1v);
    ScLeaves(e, r.core, Inputs(e, r, t));
    ClockFields(e, r, t);
    FlagIsZero(!ScSucceeds(r.core.ex, r.core.resvValid, r.core.resvAddr));
  }

  lemma ResetReserves(s: Sys, vector: Word)
    requires AtReset(s, vector)
    ensures OnBusOk(s.core) && forall x :: !Reserves(s.core, x)
  {
    hide IsSc, IsAmo, IsAtomic;
  }

  // ------------------------------------------------------------------------------------------
  // AMO
  // ------------------------------------------------------------------------------------------

  /** Between its two beats: the read is accepted, the write is not. */
  predicate Between(c: Core, x: Ex) {
    && c.ex.valid && IsAmo(x.instr) && (c.ex.st == MemWait || c.ex.st == AmoStoreReq)
    && c.ex.instr == x.instr && c.ex.result == x.result && c.ex.rs2v == x.rs2v
  }

  /** No request is accepted in the run, and no answer in it is an error. */
  predicate NoRequest(e: Env, s: Sys, ts: seq<Tick>)
    requires s.core.csr.Valid()
    decreases |ts|
  {
    ts == [] ||
    var i := Inputs(e, s, ts[0]);
    && !ReqFire(e, s.core, i) && (i.dRsp.Some? ==> !i.dRsp.value.err) && NoRequest(e, NextSys(e, s, ts[0]), ts[1..])
  }

  /** The last word answered to EX in the run, if any. */
  function Answered(e: Env, s: Sys, ts: seq<Tick>, before: Word): (w: Word)
    requires s.core.csr.Valid()
    decreases |ts|
  {
    if ts == [] then before
    else
      var i := Inputs(e, s, ts[0]);
      Answered(e, NextSys(e, s, ts[0]), ts[1..], if RspFire(s.core, i) then i.dRsp.value.data else before)
  }

  lemma BetweenStep(e: Env, s: Sys, t: Tick, x: Ex)
    requires s.core.csr.Valid() && Between(s.core, x)
    requires var i := Inputs(e, s, t); !ReqFire(e, s.core, i) && (i.dRsp.Some? ==> !i.dRsp.value.err)
    ensures var i, n := Inputs(e, s, t), NextSys(e, s, t).core;
      && Between(n, x) && (s.core.ex.st == AmoStoreReq ==> n.ex.st == AmoStoreReq && !RspFire(s.core, i))
      && (n.ex.st == AmoStoreReq <==> s.core.ex.st == AmoStoreReq || RspFire(s.core, i))
      && n.amoOld == (if RspFire(s.core, i) then i.dRsp.value.data else s.core.amoOld)
  {
    hide Inputs, F.Next, FetchIn, NextDbus, NextSys, NextWb, ExResult, AluResult, IsAmo, IsLoad, IsStore, Request,
      Pipeline.Misaligned, Funct3, MemAccess, Redirect, IdFire, NextEx, Csr.Execute, Csr.NextCounters, Set, WbWrite,
      NextResvValid, LrAnswered;
    var i := Inputs(e, s, t);
    ClockFields(e, s, t);
    StaysInEx(e, s.core, i);
  }

  lemma {:induction false} BetweenRun(e: Env, s: Sys, ts: seq<Tick>, x: Ex)
    requires s.core.csr.Valid() && Between(s.core, x) && NoRequest(e, s, ts)
    ensures var r := SysRun(e, s, ts).core; Between(r, x) && r.amoOld == Answered(e, s, ts, s.core.amoOld)
    decreases |ts|
  {
    hide NextSys, Inputs, Between, ReqFire, RspFire;
    if ts != [] {
      BetweenStep(e, s, ts[0], x);
      BetweenRun(e, NextSys(e, s, ts[0]), ts[1..], x);
    }
  }

  /** Over every run without answer errors, the first request accepted after an AMO's read beat is its write
      beat: to the same address, of the AMO function of the word answered to the read. So nothing else
      gets between them. */
  lemma AmoIsTwoBeats(e: Env, s: Sys, ts: seq<Tick>, t: Tick)
    requires s.core.csr.Valid() && s.core.ex.valid && s.core.ex.st == MemWait && IsAmo(s.core.ex.instr)
    requires NoRequest(e, s, ts) && ReqFire(e, SysRun(e, s, ts).core, Inputs(e, SysRun(e, s, ts), t))
    ensures var r, x := SysRun(e, s, ts).core, s.core.ex;
      Request(e, r)
      == DReq(x.result, true, AmoNew(x.instr, Answered(e, s, ts, s.core.amoOld), x.rs2v), Strobe(0xF))
  {
    hide SysRun, Inputs, NoRequest, Answered, IsAmo, MemAccess, AmoNew, IsAtomic, IsSc, IsLoad, IsStore, IsLr;
    var r := SysRun(e, s, ts).core;
    BetweenRun(e, s, ts, s.core.ex);
    AtomicKinds(r.ex.instr);
  }
}
