/** The core with both ports on the AXI memory path, closed: over every run that fetches no instruction
    from RAM or a device it is the closed system the refinement is about. */
module AxiPlatform {
  import opened Words
  import opened Decoder
  import F = Fetch
  import FetchProof
  import Pmp
  import Csr
  import opened Isa
  import opened Pipeline
  import opened System
  import R = Refine
  import opened RefineTheorem
  import opened PipelineFacts
  import opened CoreRuns
  import opened AxiBridge
  import opened AxiPath
  import opened AxiCore
  import DataPort
  import InstructionBus
  import Platform

  datatype Plat = Plat(core: Core, path: Path)
  {
    ghost predicate Valid() { core.csr.Valid() }
  }

  /** One clock's freedom: the stalls, what a device would answer, and the interrupt lines. */
  datatype ATick = ATick(stalls: Stalls, device: Word, ext: Csr.Ext)

  /** Instruction memory over the path, RAM and devices apart. */
  function Seen(rom: Rom): (m: F.IMem) {
    (a: WordAddr) => if InRom(ByteAddress(a)) then F.FWord(rom(a), false) else F.FWord(UNMAPPED, true)
  }

  // ------------------------------------------------------------------------------------------
  // Wires
  // ------------------------------------------------------------------------------------------

  function DataRequest(e: Env, p: Plat): (q: Option<DReq>)
    requires p.Valid()
  {
    if Requesting(e, p.core) then Some(Request(e, p.core)) else None
  }

  predicate Free(p: Path) { !p.arb.pending && p.bridge.ReqReady() }

  function AnswerOn(p: Path, port: Port): (b: Option<Beat>) {
    if p.arb.owner == Some(port) && p.bridge.RspValid() then Some(Beat(p.bridge.rdata, p.bridge.err)) else None
  }

  function DataSide(e: Env, p: Plat, t: ATick): (i: In)
    requires p.Valid()
  {
    In(false, None, Free(p.path) && DataRequest(e, p).Some?,
       match AnswerOn(p.path, DPort) case Some(x) => Some(DResp(x.data, x.err)) case None => None, t.ext)
  }

  function FetchRequest(e: Env, p: Plat, t: ATick): (a: Option<WordAddr>)
    requires p.Valid()
  {
    var f, w := p.core.fe, FetchIn(e, p.core, DataSide(e, p, t));
    if f.BusReq(w) then Some(f.BusAddr(w)) else None
  }

  function CoreInput(e: Env, p: Plat, t: ATick): (i: In)
    requires p.Valid()
  {
    DataSide(e, p, t).(
      iReady := Free(p.path) && DataRequest(e, p).None? && FetchRequest(e, p, t).Some?,
      iRsp := match AnswerOn(p.path, IPort) case Some(x) => Some(F.FWord(x.data, x.err)) case None => None)
  }

  function PathInput(e: Env, p: Plat, t: ATick): (i: PathIn)
    requires p.Valid()
  {
    var a := FetchRequest(e, p, t);
    PathIn(if a.Some? then Some(ByteAddress(a.value)) else None, p.core.fe.RspReady(), DataRequest(e, p),
           RspReady(p.core), t.stalls, t.device)
  }

  function NextPlat(e: Env, rom: Rom, p: Plat, t: ATick): (n: Plat)
    requires p.Valid()
    ensures n.Valid()
  {
    Plat(Pipeline.Next(e, p.core, CoreInput(e, p, t)), AxiPath.Next(rom, p.path, PathInput(e, p, t)))
  }

  predicate IsCode(a: WordAddr) { !InRam(ByteAddress(a)) && !InDevice(ByteAddress(a)) }

  /** The fetch the core makes in this clock, if any, is not from RAM or a device. */
  predicate FetchesCode(e: Env, p: Plat, t: ATick)
    requires p.Valid()
  {
    var a := FetchRequest(e, p, t);
    a.Some? ==> IsCode(a.value)
  }

  // ------------------------------------------------------------------------------------------
  // Against the closed system
  // ------------------------------------------------------------------------------------------

  /** The platform, whose path owes an answer to `due`, is at state s of the closed system. */
  predicate Realizes(rom: Rom, p: Plat, s: Sys, due: Option<Due>) {
    && s.core == p.core && Refines(rom, p.path, s.ram, due)
    && FetchProof.BusInv(p.core.fe, s.ibus) && Owed(due, s.ibus) && (s.ibus.Some? ==> IsCode(s.ibus.value))
    && OwedData(p.core, due)
    && s.dbus == if RspReady(p.core) then Some(PendOf(due.value.before, due.value.q)) else None
  }

  function TickOf(e: Env, p: Plat, t: ATick): (r: Tick)
    requires p.Valid()
  {
    var i := CoreInput(e, p, t);
    Tick(i.iReady, i.iRsp.Some?, i.dReady, i.dRsp.Some?, match i.dRsp case Some(d) => d case None => DResp(ZERO, false),
         t.ext)
  }

  lemma SameRequests(e: Env, p: Plat, t: ATick)
    requires p.Valid()
    ensures var v, w := FetchIn(e, p.core, DataSide(e, p, t)), FetchIn(e, p.core, CoreInput(e, p, t));
      && w == v.(ready := w.ready, rspValid := w.rspValid, rsp := w.rsp)
      && w.rspValid == CoreInput(e, p, t).iRsp.Some?
      && w.ready == CoreInput(e, p, t).iReady
      && p.core.fe.BusReq(v) == p.core.fe.BusReq(w) && p.core.fe.BusAddr(v) == p.core.fe.BusAddr(w)
  {
    hide AnswerOn, Free, DataRequest, FetchRequest, RspReady, Pmp.Allow, ByteAddress, TriggerHit, LegalEff, BadTarget,
      ExResult, AluResult, NextTarget, MemAccess, Hazard, Csr.PendingIrq, Requesting, WordOf, NextWord, IsJal, IsJalr,
      Taken, IsEcall, IsEbreak, IsMret, IsCsrOp, PmpFault, TrapBase, IrqTarget, SeqPc, F.Fe.PmpWord, IsAmo;
  }

  lemma CodeAnswers(rom: Rom, d: Due, a: WordAddr, x: Beat)
    requires d.q == IRequest(ByteAddress(a)) && IsCode(a) && Right(rom, d, x)
    ensures F.FWord(x.data, x.err) == Seen(rom)(a)
  {
    hide InRom, InRam, InDevice, RamIndex, ByteAddress, WordOf;
    ByteOfWordAddress(a);
  }

  /** The fetch side of a clock. */
  lemma FetchSide(e: Env, rom: Rom, p: Plat, s: Sys, due: Option<Due>, t: ATick)
    requires p.Valid() && e.imem == Seen(rom) && Realizes(rom, p, s, due) && FetchesCode(e, p, t)
    ensures var i, j, f := CoreInput(e, p, t), Inputs(e, s, TickOf(e, p, t)), p.core.fe;
      var w := FetchIn(e, p.core, i);
      var b := FetchProof.NextBus(f, s.ibus, w);
      && FetchProof.Handshakes(f, s.ibus, w)
      && j.iReady == i.iReady && j.iRsp == i.iRsp
      && Owed(DueAfter(s.ram, due, EventOf(p.path, PathInput(e, p, t))), b) && (b.Some? ==> IsCode(b.value))
  {
    hide FetchIn, DataSide, F.Fe.BusReq, F.Fe.BusAddr, F.Fe.PmpWord, IsCode, Refines, RspReady, Right, DueAfter,
      EventOf, Seen, Owed, DataRequest, ByteAddress, PendOf, F.Fe.RspReady, FetchProof.BusOk;
    var f, v, w := p.core.fe, FetchIn(e, p.core, DataSide(e, p, t)), FetchIn(e, p.core, CoreInput(e, p, t));
    var x := AnswerOn(p.path, IPort);
    SameRequests(e, p, t);
    var j := w.(rsp := if x.Some? then F.FWord(x.value.data, x.value.err) else w.rsp);
    InstructionBus.ReadyIsNotRead(f, w, j);
    PathObeys(rom, p.path, s.ram, due, f, s.ibus, PathInput(e, p, t), j);
    if x.Some? { OwedFetch(due, s.ibus); CodeAnswers(rom, due.value, s.ibus.value, x.value); }
  }

  lemma OwedFetch(due: Option<Due>, b: FetchProof.Bus)
    requires Owed(due, b) && b.Some?
    ensures due.Some? && due.value.port == IPort && due.value.q == IRequest(ByteAddress(b.value))
  {
    hide ByteAddress;
  }

  /** The data side of a clock. */
  lemma DataInputs(e: Env, rom: Rom, p: Plat, s: Sys, due: Option<Due>, t: ATick)
    requires p.Valid() && Realizes(rom, p, s, due)
    ensures var i, j := CoreInput(e, p, t), Inputs(e, s, TickOf(e, p, t));
      j.dReady == i.dReady && j.dRsp == i.dRsp && (i.dReady ==> due.None?)
  {
    hide FetchIn, F.Fe.BusReq, F.Fe.BusAddr, F.Fe.RspReady, FetchProof.BusInv, Requesting, Request, RspReady, Owed,
      FetchRequest, Right, RamIndex, InRam, InRom, InDevice, Mapped, MemRead;
    if AnswerOn(p.path, DPort).Some? { RamAnswers(rom, due.value, AnswerOn(p.path, DPort).value); }
  }

  lemma RamAnswers(rom: Rom, d: Due, x: Beat)
    requires Right(rom, d, x)
    ensures InRam(d.q.addr) ==> !x.err && (d.q.we || x.data == d.before[RamIndex(d.q.addr)])
  {
    hide InRam, RamIndex, InRom, InDevice;
    MapIsDisjoint(d.q.addr);
  }

  lemma MapIsDisjoint(a: Word)
    ensures InRam(a) ==> !InRom(a) && !InDevice(a)
  {}

  lemma TickExt(e: Env, s: Sys, p: Plat, t: ATick)
    requires p.Valid() && s.core.csr.Valid()
    ensures Inputs(e, s, TickOf(e, p, t)).ext == CoreInput(e, p, t).ext == t.ext
  {
    hide FetchIn, FetchRequest, DataRequest, AnswerOn;
  }

  /** RAM and the ledger of the data bus in a clock. */
  lemma RamSide(e: Env, rom: Rom, p: Plat, s: Sys, due: Option<Due>, t: ATick)
    requires p.Valid() && Realizes(rom, p, s, due)
    ensures var i, v := CoreInput(e, p, t), EventOf(p.path, PathInput(e, p, t));
      var d := DueAfter(s.ram, due, v);
      && RamAfter(s.ram, v) == (if ReqFire(e, s.core, i) then NextRam(s.ram, Request(e, s.core)) else s.ram)
      && NextDbus(e, s, i) == if d.Some? && d.value.port == DPort then Some(PendOf(d.value.before, d.value.q)) else None
  {
    hide FetchIn, F.Fe.BusReq, F.Fe.BusAddr, F.Fe.RspReady, FetchProof.BusInv, Requesting, Request, RspReady, Owed,
      FetchRequest, Right, RamIndex, InRam, Mapped, MemRead, NextRam, PendOf, ByteAddress, Memory.Strobed;
    DataPort.WaitsDoNotRequest(e, p.core);
    var i := PathInput(e, p, t);
    if i.dReq.None? && i.iReq.Some? { ReadsDoNotWrite(s.ram, IRequest(i.iReq.value)); }
  }

  /** Every such clock of the platform is a clock of the closed system. */
  lemma StepRealizes(e: Env, rom: Rom, p: Plat, s: Sys, due: Option<Due>, t: ATick)
    requires p.Valid() && e.imem == Seen(rom) && Realizes(rom, p, s, due) && FetchesCode(e, p, t)
    ensures Inputs(e, s, TickOf(e, p, t)) == CoreInput(e, p, t)
    ensures Realizes(rom, NextPlat(e, rom, p, t), NextSys(e, s, TickOf(e, p, t)),
                     DueAfter(s.ram, due, EventOf(p.path, PathInput(e, p, t))))
  {
    hide FetchIn, Requesting, Request, RspReady, InRam, Pipeline.Next, AxiPath.Next, FetchProof.BusInv,
      FetchProof.NextBus, FetchProof.Handshakes, DueAfter, EventOf, RamAfter, NextRam, NextDbus, ReqFire, Owed,
      IsCode, PendOf, Refines, Seen, Right, FetchRequest, FetchesCode;
    var i := CoreInput(e, p, t);
    FetchSide(e, rom, p, s, due, t);
    DataInputs(e, rom, p, s, due, t);
    TickExt(e, s, p, t);
    RamSide(e, rom, p, s, due, t);
    FetchProof.BusStep(p.core.fe, s.ibus, FetchIn(e, p.core, i));
    StepRefines(rom, p.path, s.ram, due, PathInput(e, p, t));
    PathServesEx(e, rom, p.path, s.ram, due, p.core, PathInput(e, p, t), i);
    Platform.FeAdvances(e, p.core, i);
  }

  // ------------------------------------------------------------------------------------------
  // Runs
  // ------------------------------------------------------------------------------------------

  function PlatRun(e: Env, rom: Rom, p: Plat, ts: seq<ATick>): (r: Plat)
    requires p.Valid()
    ensures r.Valid()
    decreases |ts|
  {
    if ts == [] then p else PlatRun(e, rom, NextPlat(e, rom, p, ts[0]), ts[1..])
  }

  /** What WB does in the clocks of a run. */
  function PlatLog(e: Env, rom: Rom, p: Plat, ts: seq<ATick>): (log: seq<Entry>)
    requires p.Valid()
    decreases |ts|
  {
    if ts == [] then []
    else WbEntry(p.core, ts[0].ext) + PlatLog(e, rom, NextPlat(e, rom, p, ts[0]), ts[1..])
  }

  function TicksOf(e: Env, rom: Rom, p: Plat, ts: seq<ATick>): (ks: seq<Tick>)
    requires p.Valid()
    decreases |ts|
  {
    if ts == [] then [] else [TickOf(e, p, ts[0])] + TicksOf(e, rom, NextPlat(e, rom, p, ts[0]), ts[1..])
  }

  predicate CodeRun(e: Env, rom: Rom, p: Plat, ts: seq<ATick>)
    requires p.Valid()
    decreases |ts|
  {
    ts == [] || (FetchesCode(e, p, ts[0]) && CodeRun(e, rom, NextPlat(e, rom, p, ts[0]), ts[1..]))
  }

  function DueAtEnd(e: Env, rom: Rom, p: Plat, ram: Ram, due: Option<Due>, ts: seq<ATick>): (d: Option<Due>)
    requires p.Valid()
    decreases |ts|
  {
    if ts == [] then due
    else
      var v := EventOf(p.path, PathInput(e, p, ts[0]));
      DueAtEnd(e, rom, NextPlat(e, rom, p, ts[0]), RamAfter(ram, v), DueAfter(ram, due, v), ts[1..])
  }

  lemma SameCore(rom: Rom, p: Plat, s: Sys, due: Option<Due>)
    requires Realizes(rom, p, s, due)
    ensures s.core == p.core && Refines(rom, p.path, s.ram, due)
  {
    hide Refines, Owed, IsCode, RspReady, FetchProof.BusInv, PendOf;
  }

  /** Over every run that fetches only code, under every stall schedule, core and path are the closed
      system under the choices TicksOf. */
  lemma {:induction false} PlatformIsSystem(e: Env, rom: Rom, p: Plat, s: Sys, due: Option<Due>, ts: seq<ATick>)
    requires p.Valid() && e.imem == Seen(rom) && Realizes(rom, p, s, due) && CodeRun(e, rom, p, ts)
    ensures Realizes(rom, PlatRun(e, rom, p, ts), SysRun(e, s, TicksOf(e, rom, p, ts)),
                     DueAtEnd(e, rom, p, s.ram, due, ts))
    ensures PlatLog(e, rom, p, ts) == WbLog(e, s, TicksOf(e, rom, p, ts))
    decreases |ts|
  {
    hide Realizes, NextPlat, NextSys, TickOf, DueAfter, EventOf, PathInput, WbEntry, Seen, FetchesCode, RamAfter,
      Refines;
    SameCore(rom, p, s, due);
    if ts != [] {
      var n, k := NextPlat(e, rom, p, ts[0]), TickOf(e, p, ts[0]);
      var ks := TicksOf(e, rom, p, ts);
      StepRealizes(e, rom, p, s, due, ts[0]);
      assert ks[0] == k && ks[1..] == TicksOf(e, rom, n, ts[1..]);
      TickHasLines(e, p, s, ts[0]);
      RamAdvances(e, rom, p, s, due, ts[0]);
      var v := EventOf(p.path, PathInput(e, p, ts[0]));
      PlatformIsSystem(e, rom, n, NextSys(e, s, k), DueAfter(s.ram, due, v), ts[1..]);
    }
  }

  lemma RamAdvances(e: Env, rom: Rom, p: Plat, s: Sys, due: Option<Due>, t: ATick)
    requires p.Valid() && e.imem == Seen(rom) && Realizes(rom, p, s, due) && FetchesCode(e, p, t)
    ensures NextSys(e, s, TickOf(e, p, t)).ram == RamAfter(s.ram, EventOf(p.path, PathInput(e, p, t)))
  {
    hide FetchIn, Requesting, Request, RspReady, Pipeline.Next, CoreInput, TickOf, Inputs, NextRam, NextDbus, ReqFire,
      RamAfter, EventOf, PathInput, DueAfter, FetchesCode, Seen, NextPlat, FetchProof.NextBus, PendOf;
    StepRealizes(e, rom, p, s, due, t);
    RamSide(e, rom, p, s, due, t);
    SameCore(rom, p, s, due);
  }

  lemma TickHasLines(e: Env, p: Plat, s: Sys, t: ATick)
    requires p.Valid()
    ensures TickOf(e, p, t).ext == t.ext
  {
    hide CoreInput;
  }

  /** After reset: nothing in the pipeline, nothing on the path. */
  predicate PlatReset(p: Plat, vector: Word) {
    && p.core.fe == F.Reset(vector) && !p.core.ex.valid && !p.core.wb.valid && !p.core.resvValid
    && p.path.arb == Arbiter(None, false) && p.path.bridge.st == Idle
    && p.path.slave.rd == ReadIdle && p.path.slave.wr == WriteIdle
  }

  function StartOf(p: Plat): (s: Sys) { Sys(p.core, p.path.slave.ram, None, None) }

  lemma ResetRealizes(rom: Rom, p: Plat, vector: Word)
    requires PlatReset(p, vector)
    ensures Realizes(rom, p, StartOf(p), None) && AtReset(StartOf(p), vector)
  {
    hide IsCode, InRam;
  }

  /** With EX empty no write is on the path. */
  lemma NoWriteWaits(rom: Rom, p: Plat, s: Sys, due: Option<Due>)
    requires Realizes(rom, p, s, due) && !p.core.ex.valid
    ensures p.path.slave.ram == s.ram
  {
    hide InRam, RamIndex, Right, Mapped, Effect, IsCode, ByteAddress, PendOf, FetchProof.BusInv;
  }

  /** From reset, over every allowed run on the AXI path that fetches only code: WB does what the
      interpreter does, in order, and once the pipeline is drained the registers, CSRs, reservation
      and the slave's RAM are the interpreter's. */
  lemma PlatformRefinesIsa(e: Env, rom: Rom, p: Plat, vector: Word, ts: seq<ATick>)
    requires p.Valid() && e.imem == Seen(rom) && PlatReset(p, vector) && CodeRun(e, rom, p, ts)
    requires AllowedRun(e, StartOf(p), TicksOf(e, rom, p, ts))
    ensures var a, ks := Visible(StartOf(p), vector), TicksOf(e, rom, p, ts);
      PlatLog(e, rom, p, ts) <= IsaLog(e, a, Supplied(e, StartOf(p), ks))
    ensures var n, a := PlatRun(e, rom, p, ts), ArchAt(e, StartOf(p), vector, TicksOf(e, rom, p, ts));
      !n.core.ex.valid && !n.core.wb.valid ==>
        a == Arch(a.pc, n.core.regs, n.path.slave.ram, CoreResv(n.core), n.core.csr)
  {
    hide R.Refines, SysRun, IsaRun, Supplied, AllowedRun, IsaLog, WbLog, Realizes, PlatRun, PlatLog, TicksOf, AtReset,
      PlatReset, DueAtEnd, Seen, CodeRun;
    var s, ks := StartOf(p), TicksOf(e, rom, p, ts);
    ResetRealizes(rom, p, vector);
    PlatformIsSystem(e, rom, p, s, None, ts);
    RunRefines(e, s, vector, ks);
    var n, r := PlatRun(e, rom, p, ts), SysRun(e, s, ks);
    SameCore(rom, n, r, DueAtEnd(e, rom, p, s.ram, None, ts));
    if !n.core.ex.valid && !n.core.wb.valid {
      Drained(e, r, ArchAt(e, s, vector, ks));
      NoWriteWaits(rom, n, r, DueAtEnd(e, rom, p, s.ram, None, ts));
    }
  }
}
