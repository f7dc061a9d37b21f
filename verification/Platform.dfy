/** The core with its instruction ROM, its data fabric and its RAM, closed: over every run it is the
    closed system the refinement is about, so what it does is what the interpreter does. */
module Platform {
  import opened Words
  import F = Fetch
  import opened Decoder
  import FetchProof
  import Pmp
  import Csr
  import opened Isa
  import opened Pipeline
  import opened System
  import opened Refine
  import opened RefineTheorem
  import opened PipelineFacts
  import opened CoreRuns
  import opened AxiBridge
  import opened Memory
  import opened DataRam
  import opened Fabric
  import IB = InstructionBus
  import DataPort

  datatype Plat = Plat(core: Core, mux: IB.Mux, router: Router, slaves: Slaves, ram: Unit)
  {
    ghost predicate Valid() { core.csr.Valid() }
  }

  /** One clock's freedom: for each slave but RAM whether it would accept, and what it would answer if it
      owes an answer; and the interrupt lines. */
  datatype PTick = PTick(ready: nat -> bool, answer: nat -> Option<Beat>, ext: Csr.Ext)

  // ------------------------------------------------------------------------------------------
  // Wires
  // ------------------------------------------------------------------------------------------

  predicate RamTakes(p: Plat) { RspReady(p.core) && p.router.active == RamRegion }

  function RamGives(u: Unit): (b: Option<Beat>) { if u.pending then Some(Beat(u.data, false)) else None }

  function DataRequest(e: Env, p: Plat): (q: Option<DReq>)
    requires p.Valid()
  {
    if Requesting(e, p.core) then Some(Pipeline.Request(e, p.core)) else None
  }

  function FabIn(e: Env, p: Plat, t: PTick): (i: FabricIn)
    requires p.Valid()
    ensures i.Valid()
  {
    FabricIn(DataRequest(e, p), RspReady(p.core),
             [t.ready(0), p.ram.ReqReady(RamTakes(p)), t.ready(2), t.ready(3), t.ready(4)],
             [t.answer(0), RamGives(p.ram), t.answer(2), t.answer(3), t.answer(4)])
  }

  function RamRequest(e: Env, p: Plat): (q: Option<DReq>)
    requires p.Valid()
  {
    var q := DataRequest(e, p);
    if q.Some? && SelRam(q.value.addr) then q else None
  }

  /** The core's inputs from the data side. */
  function DataSide(e: Env, p: Plat, t: PTick): (i: In)
    requires p.Valid()
  {
    CoreIn(e, p.core, p.router, p.slaves, FabIn(e, p, t), In(false, None, false, None, t.ext))
  }

  /** All of them; the multiplexer's grant does not depend on its answer. */
  function CoreInput(e: Env, p: Plat, t: PTick): (i: In)
    requires p.Valid()
  {
    var d := DataSide(e, p, t);
    var f, w := p.core.fe, FetchIn(e, p.core, d);
    d.(iReady := f.BusReq(w) && p.mux.ReqReady(f.BusAddr(w), f.RspReady()),
       iRsp := if p.mux.RspValid() then Some(p.mux.Rsp()) else None)
  }

  /** One clock of core, multiplexer, router and RAM. */
  function NextPlat(e: Env, rom: IB.Rom, p: Plat, t: PTick): (n: Plat)
    requires p.Valid()
    ensures n.Valid()
  {
    var i := CoreInput(e, p, t);
    var f := p.core.fe;
    Plat(Pipeline.Next(e, p.core, i),
         p.mux.Next(rom, IB.Request(f, FetchIn(e, p.core, i)), f.RspReady()),
         p.router.Next(p.slaves, FabIn(e, p, t)),
         p.router.SlavesNext(p.slaves, FabIn(e, p, t)),
         p.ram.Next(RamRequest(e, p), RamTakes(p)))
  }

  // ------------------------------------------------------------------------------------------
  // Against the closed system
  // ------------------------------------------------------------------------------------------

  /** The platform p, which owes EX an answer to `due`, is at state s of the closed system. */
  predicate Realizes(rom: IB.Rom, p: Plat, s: Sys, due: Option<DReq>) {
    && s.core == p.core && s.ram == p.ram.mem
    && FetchProof.BusInv(p.core.fe, s.ibus) && IB.Owes(rom, p.mux, s.ibus)
    && Routed(p.router, p.slaves, due) && (due.Some? <==> RspReady(p.core))
    && (due.Some? <==> s.dbus.Some?)
    && (due.Some? ==> (s.dbus.value.inRam <==> InRam(due.value.addr)))
    && (p.ram.pending <==> due.Some? && InRam(due.value.addr))
    && (p.ram.pending && s.dbus.value.data.Some? ==> s.dbus.value.data.value == p.ram.data)
  }

  /** The closed system's choices in a clock of the platform. */
  function TickOf(e: Env, p: Plat, t: PTick): (r: Tick)
    requires p.Valid()
  {
    var i := CoreInput(e, p, t);
    Tick(i.iReady, i.iRsp.Some?, i.dReady, i.dRsp.Some?, match i.dRsp case Some(d) => d case None => DResp(ZERO, false),
         t.ext)
  }

  lemma SameRequests(e: Env, p: Plat, t: PTick)
    requires p.Valid()
    ensures var v, w := FetchIn(e, p.core, DataSide(e, p, t)), FetchIn(e, p.core, CoreInput(e, p, t));
      && w == v.(ready := w.ready, rspValid := w.rspValid, rsp := w.rsp)
      && w.rspValid == p.mux.RspValid()
      && w.ready == CoreInput(e, p, t).iReady
      && p.core.fe.BusReq(v) == p.core.fe.BusReq(w) && p.core.fe.BusAddr(v) == p.core.fe.BusAddr(w)
  {
    hide FabIn, Decoded, Router.Rsp, Router.ReqReady, RspReady, Pmp.Allow, ByteAddress, TriggerHit, LegalEff,
      BadTarget, ExResult, AluResult, NextTarget, MemAccess, Hazard, Csr.PendingIrq, Requesting, WordOf, NextWord,
      IsJal, IsJalr, Taken, IsEcall, IsEbreak, IsMret, IsCsrOp, PmpFault, TrapBase, IrqTarget, SeqPc, F.Fe.PmpWord,
      IsAmo;
  }

  /** The fetch side of a clock. */
  lemma FetchSide(e: Env, rom: IB.Rom, p: Plat, s: Sys, due: Option<DReq>, t: PTick)
    requires p.Valid() && e.imem == IB.Seen(rom) && Realizes(rom, p, s, due)
    ensures var i, f := CoreInput(e, p, t), p.core.fe; var w := FetchIn(e, p.core, i);
      && FetchProof.Handshakes(f, s.ibus, w)
      && Inputs(e, s, TickOf(e, p, t)).iReady == i.iReady && Inputs(e, s, TickOf(e, p, t)).iRsp == i.iRsp
      && IB.Owes(rom, p.mux.Next(rom, IB.Request(f, w), f.RspReady()), FetchProof.NextBus(f, s.ibus, w))
  {
    hide FetchIn, DataSide, IB.Selected, F.Fe.BusReq, F.Fe.BusAddr, F.Fe.PmpWord, FetchProof.Live, IB.Mux.Next,
      Routed, InRam, RspReady;
    var f, v, w := p.core.fe, FetchIn(e, p.core, DataSide(e, p, t)), FetchIn(e, p.core, CoreInput(e, p, t));
    SameRequests(e, p, t);
    IB.MuxObeys(rom, f, p.mux, s.ibus, v);
    IB.ReadyIsNotRead(f, v, IB.Connected(f, p.mux, v));
  }

  lemma OwedByItsSlave(r: Router, s: Slaves, q: DReq)
    requires Routed(r, s, Some(q))
    ensures r.pending && r.active == Decoded(q.addr)
    ensures r.active != Nowhere ==> s[Index(r.active)] == Some(q)
  {
    hide Decoded;
  }

  /** The data side of a clock. */
  lemma DataInputs(e: Env, rom: IB.Rom, p: Plat, s: Sys, due: Option<DReq>, t: PTick)
    requires p.Valid() && Realizes(rom, p, s, due)
    ensures var i, j := CoreInput(e, p, t), Inputs(e, s, TickOf(e, p, t));
      j.dReady == i.dReady && j.dRsp == i.dRsp && (i.dReady ==> due.None?)
  {
    hide FetchIn, IB.Owes, IB.Selected, F.Fe.BusReq, F.Fe.BusAddr, F.Fe.RspReady, FetchProof.BusInv, Decoded,
      Requesting, Pipeline.Request, RspReady, InRam, Unit.ReqReady;
    DataPort.WaitsDoNotRequest(e, p.core);
    if due.Some? { RamRegionIsRam(due.value.addr); OwedByItsSlave(p.router, p.slaves, due.value); }
  }

  lemma RamRegionIsRam(a: Word)
    ensures Decoded(a) == RamRegion <==> InRam(a)
  {
    hide SelRom, SelMmio, SelClint, SelPlic, InRam;
    RegionsAreDisjoint(a);
  }

  /** RAM and the ledger of the data bus in a clock. */
  lemma RamSide(e: Env, rom: IB.Rom, p: Plat, s: Sys, due: Option<DReq>, t: PTick)
    requires p.Valid() && Realizes(rom, p, s, due)
    ensures var i, u := CoreInput(e, p, t), p.ram.Next(RamRequest(e, p), RamTakes(p));
      var d, b := DueAfter(p.router, p.slaves, due, FabIn(e, p, t)), NextDbus(e, s, i);
      && u.mem == (if ReqFire(e, s.core, i) then NextRam(s.ram, Pipeline.Request(e, s.core)) else s.ram)
      && (d.Some? <==> b.Some?)
      && (d.Some? ==> (b.value.inRam <==> InRam(d.value.addr)))
      && (u.pending <==> d.Some? && InRam(d.value.addr))
      && (u.pending && b.value.data.Some? ==> b.value.data.value == u.data)
  {
    hide FetchIn, IB.Owes, IB.Selected, F.Fe.BusReq, F.Fe.BusAddr, F.Fe.RspReady, FetchProof.BusInv, Decoded,
      Requesting, Pipeline.Request, RspReady, InRam, RamIndex, Strobed;
    DataPort.WaitsDoNotRequest(e, p.core);
    DataInputs(e, rom, p, s, due, t);
    if due.Some? { RamRegionIsRam(due.value.addr); OwedByItsSlave(p.router, p.slaves, due.value); }
    if Requesting(e, p.core) { RamRegionIsRam(Pipeline.Request(e, p.core).addr); }
  }

  lemma TickExt(e: Env, s: Sys, p: Plat, t: PTick)
    requires p.Valid() && s.core.csr.Valid()
    ensures Inputs(e, s, TickOf(e, p, t)).ext == CoreInput(e, p, t).ext == t.ext
  {
    hide FetchIn, FabIn, RspReady, Router.Rsp, Router.ReqReady;
  }

  lemma DataSideKept(e: Env, p: Plat, t: PTick)
    requires p.Valid()
    ensures var i := CoreInput(e, p, t); CoreIn(e, p.core, p.router, p.slaves, FabIn(e, p, t), i) == i
  {
    hide FetchIn, FabIn, RspReady, Router.Rsp, Router.ReqReady;
  }

  lemma FeAdvances(e: Env, c: Core, i: In)
    requires c.csr.Valid()
    ensures Pipeline.Next(e, c, i).fe == F.Next(c.fe, FetchIn(e, c, i))
  {
    hide FetchIn, F.Next, NextEx, NextWb, Csr.Execute, Csr.NextCounters, NextResvValid, LrAnswered, AmoAnswered, Set,
      WbWrite, WbCommand, CsrInput;
  }

  /** Every clock of the platform is a clock of the closed system. */
  lemma StepRealizes(e: Env, rom: IB.Rom, p: Plat, s: Sys, due: Option<DReq>, t: PTick)
    requires p.Valid() && e.imem == IB.Seen(rom) && Realizes(rom, p, s, due)
    ensures Inputs(e, s, TickOf(e, p, t)) == CoreInput(e, p, t)
    ensures Realizes(rom, NextPlat(e, rom, p, t), NextSys(e, s, TickOf(e, p, t)),
                     DueAfter(p.router, p.slaves, due, FabIn(e, p, t)))
  {
    hide FetchIn, IB.Owes, Decoded, Requesting, Pipeline.Request, RspReady, InRam, Pipeline.Next, IB.Mux.Next,
      FetchProof.BusInv, FetchProof.NextBus, FetchProof.Handshakes, Router.Next, Router.SlavesNext, Unit.Next,
      DueAfter, NextRam, NextDbus, ReqFire, Routed, RamRequest, RamTakes;
    var i := CoreInput(e, p, t);
    FetchSide(e, rom, p, s, due, t);
    DataInputs(e, rom, p, s, due, t);
    TickExt(e, s, p, t);
    RamSide(e, rom, p, s, due, t);
    FetchProof.BusStep(p.core.fe, s.ibus, FetchIn(e, p.core, i));
    FabricServesCore(e, p.core, p.router, p.slaves, due, FabIn(e, p, t), i);
    DataSideKept(e, p, t);
    FeAdvances(e, p.core, i);
  }

  // ------------------------------------------------------------------------------------------
  // Runs
  // ------------------------------------------------------------------------------------------

  function PlatRun(e: Env, rom: IB.Rom, p: Plat, ts: seq<PTick>): (r: Plat)
    requires p.Valid()
    ensures r.Valid()
    decreases |ts|
  {
    if ts == [] then p else PlatRun(e, rom, NextPlat(e, rom, p, ts[0]), ts[1..])
  }

  /** What WB does in the clocks of a run. */
  function PlatLog(e: Env, rom: IB.Rom, p: Plat, ts: seq<PTick>): (log: seq<Entry>)
    requires p.Valid()
    decreases |ts|
  {
    if ts == [] then []
    else WbEntry(p.core, ts[0].ext) + PlatLog(e, rom, NextPlat(e, rom, p, ts[0]), ts[1..])
  }

  function TicksOf(e: Env, rom: IB.Rom, p: Plat, ts: seq<PTick>): (ks: seq<Tick>)
    requires p.Valid()
    decreases |ts|
  {
    if ts == [] then [] else [TickOf(e, p, ts[0])] + TicksOf(e, rom, NextPlat(e, rom, p, ts[0]), ts[1..])
  }

  function DueAtEnd(e: Env, rom: IB.Rom, p: Plat, due: Option<DReq>, ts: seq<PTick>): (d: Option<DReq>)
    requires p.Valid()
    decreases |ts|
  {
    if ts == [] then due
    else
      DueAtEnd(e, rom, NextPlat(e, rom, p, ts[0]), DueAfter(p.router, p.slaves, due, FabIn(e, p, ts[0])), ts[1..])
  }

  /** Over every run, whatever the latencies of the other slaves, the platform is the closed system with
      the ROM as instruction memory and this RAM, under the choices TicksOf. */
  lemma {:induction false} PlatformIsSystem(e: Env, rom: IB.Rom, p: Plat, s: Sys, due: Option<DReq>, ts: seq<PTick>)
    requires p.Valid() && e.imem == IB.Seen(rom) && Realizes(rom, p, s, due)
    ensures Realizes(rom, PlatRun(e, rom, p, ts), SysRun(e, s, TicksOf(e, rom, p, ts)), DueAtEnd(e, rom, p, due, ts))
    ensures PlatLog(e, rom, p, ts) == WbLog(e, s, TicksOf(e, rom, p, ts))
    decreases |ts|
  {
    hide Realizes, NextPlat, NextSys, TickOf, DueAfter, FabIn, WbEntry, IB.Seen;
    SameCore(rom, p, s, due);
    if ts != [] {
      var n, k := NextPlat(e, rom, p, ts[0]), TickOf(e, p, ts[0]);
      var ks := TicksOf(e, rom, p, ts);
      StepRealizes(e, rom, p, s, due, ts[0]);
      assert ks[0] == k && ks[1..] == TicksOf(e, rom, n, ts[1..]);
      TickHasLines(e, p, ts[0]);
      PlatformIsSystem(e, rom, n, NextSys(e, s, k), DueAfter(p.router, p.slaves, due, FabIn(e, p, ts[0])), ts[1..]);
    }
  }

  lemma SameCore(rom: IB.Rom, p: Plat, s: Sys, due: Option<DReq>)
    requires Realizes(rom, p, s, due)
    ensures s.core == p.core && s.ram == p.ram.mem
  {}

  lemma TickHasLines(e: Env, p: Plat, t: PTick)
    requires p.Valid()
    ensures TickOf(e, p, t).ext == t.ext
  {
    hide CoreInput;
  }

  /** After reset: nothing in the pipeline, nothing outstanding anywhere. */
  predicate PlatReset(p: Plat, vector: Word) {
    && p.core.fe == F.Reset(vector) && !p.core.ex.valid && !p.core.wb.valid && !p.core.resvValid
    && !p.mux.pending && !p.mux.bad && !p.router.pending && !p.ram.pending
    && forall k :: 0 <= k < SLAVES ==> p.slaves[k].None?
  }

  function StartOf(p: Plat): (s: Sys) { Sys(p.core, p.ram.mem, None, None) }

  lemma ResetRealizes(rom: IB.Rom, p: Plat, vector: Word)
    requires PlatReset(p, vector)
    ensures Realizes(rom, p, StartOf(p), None) && AtReset(StartOf(p), vector)
  {
    hide IB.Selected, InRam, Decoded;
  }

  /** From reset, over every allowed run of core, ROM, fabric and RAM: WB does what the interpreter of
      the program in ROM does, in order, and once the pipeline is drained the registers, RAM, CSRs and
      reservation are the interpreter's. */
  lemma PlatformRefinesIsa(e: Env, rom: IB.Rom, p: Plat, vector: Word, ts: seq<PTick>)
    requires p.Valid() && e.imem == IB.Seen(rom) && PlatReset(p, vector)
    requires AllowedRun(e, StartOf(p), TicksOf(e, rom, p, ts))
    ensures var a, ks := Visible(StartOf(p), vector), TicksOf(e, rom, p, ts);
      PlatLog(e, rom, p, ts) <= IsaLog(e, a, Supplied(e, StartOf(p), ks))
    ensures var n, a := PlatRun(e, rom, p, ts), ArchAt(e, StartOf(p), vector, TicksOf(e, rom, p, ts));
      !n.core.ex.valid && !n.core.wb.valid ==>
        a == Arch(a.pc, n.core.regs, n.ram.mem, CoreResv(n.core), n.core.csr)
  {
    hide Refines, SysRun, IsaRun, Supplied, AllowedRun, IsaLog, WbLog, Realizes, PlatRun, PlatLog, TicksOf, AtReset,
      PlatReset, DueAtEnd, IB.Seen;
    var s, ks := StartOf(p), TicksOf(e, rom, p, ts);
    ResetRealizes(rom, p, vector);
    PlatformIsSystem(e, rom, p, s, None, ts);
    RunRefines(e, s, vector, ks);
    SameCore(rom, PlatRun(e, rom, p, ts), SysRun(e, s, ks), DueAtEnd(e, rom, p, None, ts));
    var n := PlatRun(e, rom, p, ts).core;
    if !n.ex.valid && !n.wb.valid { Drained(e, SysRun(e, s, ks), ArchAt(e, s, vector, ks)); }
  }
}
