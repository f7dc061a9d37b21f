/** The core's two ports on the AXI memory path. */
module AxiCore {
  import opened Words
  import F = Fetch
  import FetchProof
  import opened Isa
  import opened Pipeline
  import opened AxiBridge
  import opened AxiPath
  import DataPort

  // ------------------------------------------------------------------------------------------
  // Instruction port
  // ------------------------------------------------------------------------------------------

  /** The arbiter owes the instruction port exactly the fetch that is outstanding. */
  predicate Owed(due: Option<Due>, b: FetchProof.Bus) {
    match b
    case None => due.Some? ==> due.value.port == DPort
    case Some(a) => due.Some? && due.value.port == IPort && due.value.q == IRequest(ByteAddress(a))
  }

  /** The path's inputs from the fetch stage, and the fetch stage's from the path. */
  predicate FetchWired(f: F.Fe, p: Path, i: PathIn, j: F.FeIn) {
    && i.iReq == (if f.BusReq(j) then Some(ByteAddress(f.BusAddr(j))) else None)
    && i.iReady == f.RspReady()
    && j.ready == (!p.arb.pending && i.dReq.None? && i.iReq.Some? && p.bridge.ReqReady())
    && j.rspValid == (p.arb.owner == Some(IPort) && p.bridge.RspValid())
    && (j.rspValid ==> j.rsp == F.FWord(p.bridge.rdata, p.bridge.err))
  }

  /** On the instruction port the path keeps the slave contract: it answers only the outstanding
      fetch, with what the atomic memory allows, and accepts only when nothing is outstanding. */
  lemma PathObeys(rom: Rom, p: Path, ram: Ram, due: Option<Due>, f: F.Fe, b: FetchProof.Bus, i: PathIn, j: F.FeIn)
    requires Refines(rom, p, ram, due) && FetchProof.BusOk(f, b) && Owed(due, b) && FetchWired(f, p, i, j)
    ensures j.rspValid ==> b.Some? && Right(rom, due.value, Beat(j.rsp.data, j.rsp.err))
    ensures FetchProof.Accepts(f, j) ==> b.None? && due.None?
    ensures Owed(DueAfter(ram, due, EventOf(p, i)), FetchProof.NextBus(f, b, j))
  {
    hide Right, Effect, WordOf, NextWord, ByteAddress, F.Fe.BusReq, F.Fe.BusAddr, InRam, RamIndex, Mapped, MemRead;
  }

  lemma ByteOfWordAddress(a: WordAddr)
    ensures WordOf(ByteAddress(a)) == a
  {}

  /** A fetch from the slave's ROM gets the ROM word, without error, whatever else is going on. */
  lemma RomFetch(rom: Rom, d: Due, a: WordAddr, x: Beat)
    requires d.q == IRequest(ByteAddress(a)) && InRom(ByteAddress(a)) && Right(rom, d, x)
    ensures !x.err && x.data == rom(a)
  {
    hide InRom, InDevice, InRam, RamIndex;
    ByteOfWordAddress(a);
    RomIsNoDevice(ByteAddress(a));
  }

  lemma RomIsNoDevice(a: Word)
    ensures InRom(a) ==> !InDevice(a)
  {}

  // ------------------------------------------------------------------------------------------
  // Data port
  // ------------------------------------------------------------------------------------------

  /** The path's inputs from EX, and the core's from the path. */
  predicate DataWired(e: Env, c: Core, p: Path, i: PathIn, j: In)
    requires c.csr.Valid()
  {
    && i.dReq == (if Requesting(e, c) then Some(Request(e, c)) else None)
    && i.dReady == RspReady(c)
    && j.dReady == (!p.arb.pending && i.dReq.Some? && p.bridge.ReqReady())
    && j.dRsp == (if p.arb.owner == Some(DPort) && p.bridge.RspValid()
                  then Some(DResp(p.bridge.rdata, p.bridge.err)) else None)
  }

  predicate OwedData(c: Core, due: Option<Due>) { due.Some? && due.value.port == DPort <==> RspReady(c) }

  /** EX gets each answer it is owed, once, and requests only when it is owed none. */
  lemma PathServesEx(e: Env, rom: Rom, p: Path, ram: Ram, due: Option<Due>, c: Core, i: PathIn, j: In)
    requires c.csr.Valid() && Refines(rom, p, ram, due) && OwedData(c, due) && DataWired(e, c, p, i, j)
    ensures j.dRsp.Some? ==> RspFire(c, j) && Right(rom, due.value, Beat(j.dRsp.value.data, j.dRsp.value.err))
    ensures Requesting(e, c) ==> due.Some? ==> due.value.port == IPort
    ensures OwedData(Pipeline.Next(e, c, j), DueAfter(ram, due, EventOf(p, i)))
  {
    hide Right, Effect, InRam, RamIndex, Mapped, MemRead, Pipeline.Next, Requesting, Request, RspReady;
    DataPort.WaitsDoNotRequest(e, c);
    DataPort.PortAdvances(e, c, j);
  }
}
