/** The core with its two buses: instruction memory that never changes, RAM behind the data bus,
    and everything else answering as the outside chooses. Grants and answers come at any time. */
module System {
  import opened Words
  import opened Instr
  import opened Isa
  import opened Pipeline
  import opened Memory
  import F = Fetch
  import FetchProof
  import Csr

  /** An accepted data request waiting for its answer: whether RAM answers it, and for a read the word
      it will answer. The data of a write's answer means nothing. */
  datatype Pend = Pend(inRam: bool, data: Option<Word>)

  datatype Sys = Sys(core: Core, ram: Ram, ibus: FetchProof.Bus, dbus: Option<Pend>)

  /** One clock's freedom: whether each bus grants and answers, what lies outside RAM answers,
      and the interrupt lines. */
  datatype Tick = Tick(iReady: bool, iAnswer: bool, dReady: bool, dAnswer: bool, outside: DResp, ext: Csr.Ext)

  function RamAnswer(p: Pend, t: Tick): (w: Word) {
    match p.data
    case Some(w) => w
    case None => t.outside.data
  }

  /** Each bus answers only an accepted request, and grants only when idle or, for instructions,
      while the answer is being delivered. */
  function Inputs(e: Env, s: Sys, t: Tick): (r: In) {
    var iRsp := if t.iAnswer && s.ibus.Some? then Some(e.imem(s.ibus.value)) else None;
    var dRsp := if !t.dAnswer || s.dbus.None? then None
                else if s.dbus.value.inRam then Some(DResp(RamAnswer(s.dbus.value, t), false))
                else Some(t.outside);
    In(t.iReady && (s.ibus.None? || (iRsp.Some? && s.core.fe.RspReady())), iRsp, t.dReady && s.dbus.None?, dRsp, t.ext)
  }

  function NextRam(ram: Ram, r: DReq): (n: Ram) {
    var k := RamIndex(r.addr);
    if InRam(r.addr) && r.we then ram[k := Strobed(ram[k], r.wdata, r.strb.lanes)] else ram
  }

  function PendOf(ram: Ram, r: DReq): (p: Pend) {
    Pend(InRam(r.addr), if r.we then None else Some(ram[RamIndex(r.addr)]))
  }

  function NextDbus(e: Env, s: Sys, i: In): (r: Option<Pend>)
    requires s.core.csr.Valid()
  {
    if ReqFire(e, s.core, i) then Some(PendOf(s.ram, Request(e, s.core)))
    else if RspFire(s.core, i) then None
    else s.dbus
  }

  function NextSys(e: Env, s: Sys, t: Tick): (r: Sys)
    requires s.core.csr.Valid()
    ensures r.core.csr.Valid()
  {
    var i := Inputs(e, s, t);
    Sys(Next(e, s.core, i),
        if ReqFire(e, s.core, i) then NextRam(s.ram, Request(e, s.core)) else s.ram,
        FetchProof.NextBus(s.core.fe, s.ibus, FetchIn(e, s.core, i)),
        NextDbus(e, s, i))
  }
}
