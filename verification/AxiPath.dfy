/** The AXI memory path: the arbiter between the instruction and data ports, the bridge, and the
    stalling slave, against an atomic memory. */
module AxiPath {
  import opened Words
  import opened Pipeline
  import opened Isa
  import opened Logs
  import opened AxiBridge
  import opened Memory
  import System

  datatype Port = IPort | DPort

  /** Contents of the slave's ROM. */
  type Rom = WordAddr -> Word

  // ------------------------------------------------------------------------------------------
  // Address map and atomic memory
  // ------------------------------------------------------------------------------------------

  predicate InRom(a: Word) { a.bits & 0xFFFF_0000 == 0 }

  /** CLINT, the 0x1000_0000 page (tohost, GPIO, UART), and PLIC. */
  predicate InDevice(a: Word) {
    a.bits & 0xFFFF_0000 == 0x0200_0000 || a.bits & 0xFFFF_0000 == 0x1000_0000 || a.bits & 0xFFC0_0000 == 0x0C00_0000
  }

  predicate Mapped(a: Word) { InRom(a) || InRam(a) || InDevice(a) }

  const UNMAPPED := Word(0xDEAD_BEEF)

  /** What a read finds; a device answers as it likes. */
  function MemRead(rom: Rom, ram: Ram, a: Word, device: Word): (r: Word) {
    if InRom(a) then rom(WordOf(a)) else if InRam(a) then ram[RamIndex(a)] else if InDevice(a) then device else UNMAPPED
  }

  function Effect(ram: Ram, q: DReq): (r: Ram) { System.NextRam(ram, q) }

  /** An accepted request, and the memory it acted on. */
  datatype Due = Due(port: Port, q: DReq, before: Ram)

  /** An answer the atomic memory allows: the bytes last written, an error exactly outside the map. */
  predicate Right(rom: Rom, d: Due, x: Beat) {
    && (x.err <==> !Mapped(d.q.addr))
    && (if d.q.we then x.data == ZERO else !InDevice(d.q.addr) ==> x.data == MemRead(rom, d.before, d.q.addr, ZERO))
  }

  // ------------------------------------------------------------------------------------------
  // Registers
  // ------------------------------------------------------------------------------------------

  datatype Arbiter = Arbiter(owner: Option<Port>, pending: bool)

  datatype ReadState = ReadIdle | ReadWait(left: nat) | ReadResp

  datatype WriteState = WriteIdle | GotAw | GotW | Execute | WriteWait(left: nat) | WriteRespond

  datatype Slave = Slave(rd: ReadState, rdAddr: Word, rdData: Word, rdErr: bool,
                         wr: WriteState, wrAddr: Word, wrBeat: WBeat, wrErr: bool, ram: Ram)

  datatype Path = Path(arb: Arbiter, bridge: Bridge, slave: Slave)

  /** Where the slave stalls in this clock, and for how long it then waits. */
  datatype Stalls = Stalls(ar: bool, r: Option<nat>, aw: bool, w: bool, b: Option<nat>)

  /** The two ports' requests and response readiness, the stalls, and what a device would answer. */
  datatype PathIn = PathIn(iReq: Option<Word>, iReady: bool, dReq: Option<DReq>, dReady: bool, stalls: Stalls,
                           device: Word)

  // ------------------------------------------------------------------------------------------
  // Wires
  // ------------------------------------------------------------------------------------------

  function IRequest(a: Word): (r: DReq) { DReq(a, false, ZERO, Strobe(0)) }

  /** The request the arbiter passes on; data goes before instructions. */
  function Chosen(p: Path, i: PathIn): (r: Option<DReq>) {
    if p.arb.pending then None
    else if i.dReq.Some? then i.dReq
    else if i.iReq.Some? then Some(IRequest(i.iReq.value))
    else None
  }

  function BridgeInput(p: Path, i: PathIn): (r: BridgeIn) {
    BridgeIn(Chosen(p, i),
             match p.arb.owner case Some(DPort) => i.dReady case Some(IPort) => i.iReady case None => false,
             p.slave.rd == ReadIdle && !i.stalls.ar,
             (p.slave.wr == WriteIdle || p.slave.wr == GotW) && !i.stalls.aw,
             (p.slave.wr == WriteIdle || p.slave.wr == GotAw) && !i.stalls.w,
             if p.slave.rd == ReadResp then Some(Beat(p.slave.rdData, p.slave.rdErr)) else None,
             if p.slave.wr == WriteRespond then Some(p.slave.wrErr) else None)
  }

  /** What the ports see in this clock. */
  datatype Event = Accept(port: Port, q: DReq) | Deliver(port: Port, beat: Beat)

  function Grant(p: Path, i: PathIn): (r: Option<Event>) {
    if !p.bridge.Accepts(BridgeInput(p, i)) then None
    else Some(Accept(if i.dReq.Some? then DPort else IPort, BridgeInput(p, i).req.value))
  }

  function Response(p: Path, i: PathIn): (r: Option<Event>) {
    if p.arb.owner.Some? && p.bridge.Delivers(BridgeInput(p, i))
    then Some(Deliver(p.arb.owner.value, Beat(p.bridge.rdata, p.bridge.err))) else None
  }

  // ------------------------------------------------------------------------------------------
  // One clock
  // ------------------------------------------------------------------------------------------

  function NextArbiter(p: Path, i: PathIn): (r: Arbiter) {
    if p.bridge.Accepts(BridgeInput(p, i)) then Arbiter(Some(if i.dReq.Some? then DPort else IPort), true)
    else if p.bridge.Delivers(BridgeInput(p, i)) then Arbiter(None, false)
    else p.arb
  }

  /** The slave's inputs: the addresses and data handed over in this clock, whether its answers are
      taken, its stalls, and a device's answer. */
  datatype SlaveIn = SlaveIn(ar: Option<Word>, aw: Option<Word>, w: Option<WBeat>, rTaken: bool, bTaken: bool,
                             rStall: Option<nat>, bStall: Option<nat>, device: Word)

  function SlaveInput(p: Path, i: PathIn): (r: SlaveIn) {
    var y := BridgeInput(p, i);
    SlaveIn(if p.bridge.ArFires(y) then Some(p.bridge.req.addr) else None,
            if p.bridge.AwFires(y) then Some(p.bridge.req.addr) else None,
            if p.bridge.WFires(y) then Some(WOf(p.bridge.req)) else None,
            p.bridge.RFires(y), p.bridge.BFires(y), i.stalls.r, i.stalls.b, i.device)
  }

  function Looked(rom: Rom, v: Slave, a: Word, device: Word): (r: Slave) {
    v.(rdAddr := a, rdData := MemRead(rom, v.ram, a, device), rdErr := !Mapped(a), rd := ReadResp)
  }

  function NextReadSide(rom: Rom, v: Slave, i: SlaveIn): (r: Slave) {
    match v.rd
    case ReadIdle =>
      if i.ar.None? then v
      else (match i.rStall
            case Some(n) => v.(rdAddr := i.ar.value, rd := ReadWait(n))
            case None => Looked(rom, v, i.ar.value, i.device))
    case ReadWait(n) => if n > 0 then v.(rd := ReadWait(n - 1)) else Looked(rom, v, v.rdAddr, i.device)
    case ReadResp => if i.rTaken then v.(rd := ReadIdle) else v
  }

  function Stored(ram: Ram, a: Word, w: WBeat): (r: Ram) {
    if InRam(a) then ram[RamIndex(a) := Strobed(ram[RamIndex(a)], w.data, w.strb.lanes)] else ram
  }

  function NextWriteSide(v: Slave, i: SlaveIn): (r: Slave) {
    match v.wr
    case WriteIdle =>
      if i.aw.Some? && i.w.Some? then v.(wrAddr := i.aw.value, wrBeat := i.w.value, wr := Execute)
      else if i.aw.Some? then v.(wrAddr := i.aw.value, wr := GotAw)
      else if i.w.Some? then v.(wrBeat := i.w.value, wr := GotW)
      else v
    case GotAw => if i.w.Some? then v.(wrBeat := i.w.value, wr := Execute) else v
    case GotW => if i.aw.Some? then v.(wrAddr := i.aw.value, wr := Execute) else v
    case Execute =>
      v.(ram := Stored(v.ram, v.wrAddr, v.wrBeat), wrErr := !Mapped(v.wrAddr),
         wr := match i.bStall case Some(n) => WriteWait(n) case None => WriteRespond)
    case WriteWait(n) => v.(wr := if n > 0 then WriteWait(n - 1) else WriteRespond)
    case WriteRespond => if i.bTaken then v.(wr := WriteIdle) else v
  }

  /** Both halves read the registers of before the clock. */
  function NextSlave(rom: Rom, v: Slave, i: SlaveIn): (r: Slave) {
    WithRead(NextWriteSide(v, i), NextReadSide(rom, v, i))
  }

  function Next(rom: Rom, p: Path, i: PathIn): (r: Path) {
    Path(NextArbiter(p, i), p.bridge.Next(BridgeInput(p, i)), NextSlave(rom, p.slave, SlaveInput(p, i)))
  }

  function WithRead(v: Slave, r: Slave): (x: Slave) {
    v.(rd := r.rd, rdAddr := r.rdAddr, rdData := r.rdData, rdErr := r.rdErr)
  }

  lemma ReadSideOnly(rom: Rom, v: Slave, i: SlaveIn)
    ensures NextReadSide(rom, v, i) == WithRead(v, NextReadSide(rom, v, i))
  {
    hide MemRead, Mapped;
  }

  lemma WriteSideOnly(v: Slave, r: Slave, i: SlaveIn)
    ensures NextWriteSide(WithRead(v, r), i) == WithRead(NextWriteSide(v, i), r)
  {
    hide Mapped, Stored;
    match v.wr {
      case WriteIdle =>
      case GotAw =>
      case GotW =>
      case _ =>
    }
  }

  /** The two halves share no register but ram, which only the write half changes. */
  lemma SidesCommute(rom: Rom, v: Slave, i: SlaveIn)
    ensures NextWriteSide(NextReadSide(rom, v, i), i) == NextSlave(rom, v, i)
  {
    hide NextReadSide, NextWriteSide;
    ReadSideOnly(rom, v, i);
    WriteSideOnly(v, NextReadSide(rom, v, i), i);
  }

  // ------------------------------------------------------------------------------------------
  // The clocked processes
  // ------------------------------------------------------------------------------------------

  class ArbiterRegs {
    var owner: Option<Port>
    var pending: bool

    ghost function View(): (r: Arbiter)
      reads this
    {
      Arbiter(owner, pending)
    }

    /** `p` is the whole path, of which this is the arbiter. */
    method Clock(p: Path, i: PathIn)
      requires p.arb == View()
      modifies this
      ensures View() == NextArbiter(p, i)
    {
      var y := BridgeInput(p, i);
      if y.req.Some? && p.bridge.ReqReady() {
        owner := Some(if i.dReq.Some? then DPort else IPort);
        pending := true;
      } else if p.bridge.RspValid() && y.rspReady {
        owner := None;
        pending := false;
      }
    }
  }

  class AxiSlave {
    var rd: ReadState
    var rdAddr: Word
    var rdData: Word
    var rdErr: bool
    var wr: WriteState
    var wrAddr: Word
    var wrBeat: WBeat
    var wrErr: bool
    const ram: array<Word>

    constructor ()
      ensures Valid() && fresh(ram)
      ensures View().rd == ReadIdle && View().wr == WriteIdle && View().ram == seq(RAM_WORDS, _ => ZERO)
    {
      rd, rdAddr, rdData, rdErr := ReadIdle, ZERO, ZERO, false;
      wr, wrAddr, wrBeat, wrErr := WriteIdle, ZERO, WBeat(ZERO, Strobe(0)), false;
      ram := new Word[RAM_WORDS](_ => ZERO);
    }

    ghost predicate Valid()
      reads this
    {
      ram.Length == RAM_WORDS
    }

    ghost function View(): (r: Slave)
      requires Valid()
      reads this, ram
    {
      Slave(rd, rdAddr, rdData, rdErr, wr, wrAddr, wrBeat, wrErr, ram[..])
    }

    /** The memory read of the slave. */
    method Lookup(rom: Rom, a: Word, device: Word) returns (d: Word)
      requires Valid()
      ensures d == MemRead(rom, View().ram, a, device)
    {
      if InRom(a) { d := rom(WordOf(a)); }
      else if InRam(a) { d := ram[RamIndex(a)]; }
      else if InDevice(a) { d := device; }
      else { d := UNMAPPED; }
    }

    method ClockRead(rom: Rom, i: SlaveIn)
      requires Valid()
      modifies `rd, `rdAddr, `rdData, `rdErr
      ensures View() == NextReadSide(rom, old(View()), i)
    {
      match rd {
        case ReadIdle =>
          if i.ar.Some? {
            rdAddr := i.ar.value;
            if i.rStall.Some? {
              rd := ReadWait(i.rStall.value);
            } else {
              rdData := Lookup(rom, i.ar.value, i.device);
              rdErr := !Mapped(i.ar.value);
              rd := ReadResp;
            }
          }
        case ReadWait(left) =>
          if left == 0 {
            rdData := Lookup(rom, rdAddr, i.device);
            rdErr := !Mapped(rdAddr);
            rd := ReadResp;
          } else {
            rd := ReadWait(left - 1);
          }
        case ReadResp =>
          if i.rTaken { rd := ReadIdle; }
      }
    }

    method ClockWrite(i: SlaveIn)
      requires Valid()
      modifies `wr, `wrAddr, `wrBeat, `wrErr, ram
      ensures View() == NextWriteSide(old(View()), i)
    {
      match wr {
        case WriteIdle =>
          if i.aw.Some? && i.w.Some? {
            wrAddr := i.aw.value;
            wrBeat := i.w.value;
            wr := Execute;
          } else if i.aw.Some? {
            wrAddr := i.aw.value;
            wr := GotAw;
          } else if i.w.Some? {
            wrBeat := i.w.value;
            wr := GotW;
          }
        case GotAw =>
          if i.w.Some? {
            wrBeat := i.w.value;
            wr := Execute;
          }
        case GotW =>
          if i.aw.Some? {
            wrAddr := i.aw.value;
            wr := Execute;
          }
        case Execute =>
          if InRam(wrAddr) {
            var k := RamIndex(wrAddr);
            ram[k] := Strobed(ram[k], wrBeat.data, wrBeat.strb.lanes);
          }
          wrErr := !Mapped(wrAddr);
          wr := match i.bStall case Some(n) => WriteWait(n) case None => WriteRespond;
        case WriteWait(left) =>
          wr := if left == 0 then WriteRespond else WriteWait(left - 1);
        case WriteRespond =>
          if i.bTaken { wr := WriteIdle; }
      }
    }

    /** One clock; the read side first, since it must see memory as it was. */
    method Clock(rom: Rom, i: SlaveIn)
      requires Valid()
      modifies this, ram
      ensures Valid() && View() == NextSlave(rom, old(View()), i)
    {
      hide NextReadSide, NextWriteSide, NextSlave;
      SidesCommute(rom, View(), i);
      ClockRead(rom, i);
      ClockWrite(i);
    }
  }

  // ------------------------------------------------------------------------------------------
  // Refinement
  // ------------------------------------------------------------------------------------------

  /** How far the bridge and the slave are with request d; ram is the atomic memory after it. */
  predicate Serving(rom: Rom, b: Bridge, v: Slave, d: Due, ram: Ram) {
    match b.st
    case Idle => false
    case RdAddr => !d.q.we && v.rd == ReadIdle && v.wr == WriteIdle && v.ram == ram
    case RdData =>
      && !d.q.we && v.wr == WriteIdle && v.ram == ram
      && (match v.rd
          case ReadIdle => false
          case ReadWait(_) => v.rdAddr == d.q.addr
          case ReadResp => Right(rom, d, Beat(v.rdData, v.rdErr)))
    case WrAddr =>
      && d.q.we && v.rd == ReadIdle && v.ram == d.before
      && (match v.wr
          case WriteIdle => !b.awDone && !b.wDone
          case GotAw => b.awDone && !b.wDone && v.wrAddr == d.q.addr
          case GotW => !b.awDone && b.wDone && v.wrBeat == WOf(d.q)
          case _ => false)
    case WrResp =>
      && d.q.we && v.rd == ReadIdle
      && (match v.wr
          case Execute => v.ram == d.before && v.wrAddr == d.q.addr && v.wrBeat == WOf(d.q)
          case WriteWait(_) => v.ram == ram && (v.wrErr <==> !Mapped(d.q.addr))
          case WriteRespond => v.ram == ram && (v.wrErr <==> !Mapped(d.q.addr))
          case _ => false)
    case Rsp => v.rd == ReadIdle && v.wr == WriteIdle && v.ram == ram && Right(rom, d, Beat(b.rdata, b.err))
  }

  /** The path is the atomic memory `ram` with request `due` not yet answered. */
  predicate Refines(rom: Rom, p: Path, ram: Ram, due: Option<Due>) {
    match due
    case None =>
      && p.arb == Arbiter(None, false) && p.bridge.st == Idle
      && p.slave.rd == ReadIdle && p.slave.wr == WriteIdle && p.slave.ram == ram
    case Some(d) =>
      && p.arb == Arbiter(Some(d.port), true) && p.bridge.req == d.q && ram == Effect(d.before, d.q)
      && Serving(rom, p.bridge, p.slave, d, ram)
  }

  function RamAfter(ram: Ram, v: Option<Event>): (r: Ram) {
    if v.Some? && v.value.Accept? then Effect(ram, v.value.q) else ram
  }

  function DueAfter(ram: Ram, due: Option<Due>, v: Option<Event>): (r: Option<Due>) {
    match v
    case None => due
    case Some(Accept(port, q)) => Some(Due(port, q, ram))
    case Some(Deliver(_, _)) => None
  }

  /** What happens at the ports in this clock; a request and an answer never coincide. */
  function EventOf(p: Path, i: PathIn): (r: Option<Event>) { if Grant(p, i).Some? then Grant(p, i) else Response(p, i) }

  lemma ReadsDoNotWrite(ram: Ram, q: DReq)
    requires !q.we
    ensures Effect(ram, q) == ram
  {
    hide InRam;
  }

  lemma IdleStep(rom: Rom, p: Path, ram: Ram, i: PathIn)
    requires Refines(rom, p, ram, None)
    ensures var v := EventOf(p, i);
      Refines(rom, Next(rom, p, i), RamAfter(ram, v), DueAfter(ram, None, v)) && (v.Some? ==> v.value.Accept?)
  {
    hide InRam, RamIndex, Mapped, Right, MemRead, Stored, Effect, IRequest;
    if Chosen(p, i).Some? && !Chosen(p, i).value.we { ReadsDoNotWrite(ram, Chosen(p, i).value); }
  }

  lemma ReadIsRight(rom: Rom, d: Due, ram: Ram, device: Word)
    requires !d.q.we && ram == Effect(d.before, d.q)
    ensures Right(rom, d, Beat(MemRead(rom, ram, d.q.addr, device), !Mapped(d.q.addr)))
  {
    hide InRam, RamIndex, InRom, InDevice;
    ReadsDoNotWrite(d.before, d.q);
  }

  lemma ReadStep(rom: Rom, p: Path, ram: Ram, d: Due, i: PathIn)
    requires Refines(rom, p, ram, Some(d)) && (p.bridge.st == RdAddr || p.bridge.st == RdData)
    ensures EventOf(p, i).None? && Refines(rom, Next(rom, p, i), ram, Some(d))
  {
    hide InRam, RamIndex, Mapped, Right, MemRead, Stored, Effect, WOf;
    ReadIsRight(rom, d, ram, i.device);
  }

  lemma StoredIsEffect(ram: Ram, q: DReq)
    requires q.we
    ensures Stored(ram, q.addr, WOf(q)) == Effect(ram, q)
  {
    hide InRam, RamIndex, Strobed;
  }

  lemma WriteStep(rom: Rom, p: Path, ram: Ram, d: Due, i: PathIn)
    requires Refines(rom, p, ram, Some(d)) && (p.bridge.st == WrAddr || p.bridge.st == WrResp)
    ensures EventOf(p, i).None? && Refines(rom, Next(rom, p, i), ram, Some(d))
  {
    hide InRam, RamIndex, Mapped, MemRead, Stored, Effect;
    StoredIsEffect(d.before, d.q);
  }

  lemma AnswerStep(rom: Rom, p: Path, ram: Ram, d: Due, i: PathIn)
    requires Refines(rom, p, ram, Some(d)) && p.bridge.st == Rsp
    ensures var v := EventOf(p, i);
      && Refines(rom, Next(rom, p, i), ram, DueAfter(ram, Some(d), v))
      && (v.Some? ==> v.value.Deliver? && v.value.port == d.port && Right(rom, d, v.value.beat))
  {
    hide InRam, RamIndex, Mapped, Right, MemRead, Stored, Effect;
  }

  /** An event the atomic memory allows in this state. */
  predicate Permitted(rom: Rom, due: Option<Due>, v: Event) {
    match v
    case Accept(_, _) => due.None?
    case Deliver(port, beat) => due.Some? && port == due.value.port && Right(rom, due.value, beat)
  }

  /** Each clock is invisible, or accepts one request into the idle atomic memory, or delivers its
      answer to the port that asked. */
  lemma StepRefines(rom: Rom, p: Path, ram: Ram, due: Option<Due>, i: PathIn)
    requires Refines(rom, p, ram, due)
    ensures var v := EventOf(p, i);
      && Refines(rom, Next(rom, p, i), RamAfter(ram, v), DueAfter(ram, due, v))
      && (v.Some? ==> Permitted(rom, due, v.value))
  {
    hide Next, EventOf, Right, Effect;
    match due {
      case None => IdleStep(rom, p, ram, i);
      case Some(d) =>
        match p.bridge.st {
          case Rsp => AnswerStep(rom, p, ram, d, i);
          case RdAddr => ReadStep(rom, p, ram, d, i);
          case RdData => ReadStep(rom, p, ram, d, i);
          case _ => WriteStep(rom, p, ram, d, i);
        }
    }
  }

  // ------------------------------------------------------------------------------------------
  // Runs
  // ------------------------------------------------------------------------------------------

  function Run(rom: Rom, p: Path, ins: seq<PathIn>): (r: Path)
    decreases |ins|
  {
    if ins == [] then p else Run(rom, Next(rom, p, ins[0]), ins[1..])
  }

  /** What happens at the ports in a run. */
  function Events(rom: Rom, p: Path, ins: seq<PathIn>): (r: seq<Event>)
    decreases |ins|
  {
    if ins == [] then []
    else (match EventOf(p, ins[0]) case Some(v) => [v] case None => []) + Events(rom, Next(rom, p, ins[0]), ins[1..])
  }

  /** The events are those of an atomic memory: each request acts at once on all of memory, and is
      answered once, on its own port, before the next one is accepted. */
  predicate Atomic(rom: Rom, ram: Ram, due: Option<Due>, vs: seq<Event>)
    decreases |vs|
  {
    vs == [] ||
    (Permitted(rom, due, vs[0]) && Atomic(rom, RamAfter(ram, Some(vs[0])), DueAfter(ram, due, Some(vs[0])), vs[1..]))
  }

  function RamAtEnd(ram: Ram, vs: seq<Event>): (r: Ram)
    decreases |vs|
  {
    if vs == [] then ram else RamAtEnd(RamAfter(ram, Some(vs[0])), vs[1..])
  }

  function DueAtEnd(ram: Ram, due: Option<Due>, vs: seq<Event>): (r: Option<Due>)
    decreases |vs|
  {
    if vs == [] then due else DueAtEnd(RamAfter(ram, Some(vs[0])), DueAfter(ram, due, Some(vs[0])), vs[1..])
  }

  /** Under every stall schedule and every order of AW and W, arbiter, bridge and slave together are
      an atomic memory. */
  lemma {:induction false} PathIsAtomicMemory(rom: Rom, p: Path, ram: Ram, due: Option<Due>, ins: seq<PathIn>)
    requires Refines(rom, p, ram, due)
    ensures var vs := Events(rom, p, ins);
      && Atomic(rom, ram, due, vs)
      && Refines(rom, Run(rom, p, ins), RamAtEnd(ram, vs), DueAtEnd(ram, due, vs))
    decreases |ins|
  {
    hide Refines, Next, EventOf, Permitted, RamAfter, DueAfter;
    if ins != [] {
      var v := EventOf(p, ins[0]);
      StepRefines(rom, p, ram, due, ins[0]);
      NoEvent(ram, due);
      var rest := Events(rom, Next(rom, p, ins[0]), ins[1..]);
      PathIsAtomicMemory(rom, Next(rom, p, ins[0]), RamAfter(ram, v), DueAfter(ram, due, v), ins[1..]);
      if v.Some? { assert ([v.value] + rest)[1..] == rest; } else { assert [] + rest == rest; }
    }
  }

  lemma NoEvent(ram: Ram, due: Option<Due>)
    ensures RamAfter(ram, None) == ram && DueAfter(ram, due, None) == due
  {}

  // ------------------------------------------------------------------------------------------
  // Progress
  // ------------------------------------------------------------------------------------------

  /** Clocks to the delivery of the answer if no channel stalls its handshake any more; the slave's
      own waits last at most fifteen and seven clocks. */
  function Clocks(p: Path): (r: nat) {
    match p.bridge.st
    case Idle => 0
    case Rsp => 1
    case RdData => (match p.slave.rd case ReadWait(n) => 3 + n case _ => 2)
    case RdAddr => 19
    case WrResp => (match p.slave.wr case Execute => 11 case WriteWait(n) => 3 + n case _ => 2)
    case WrAddr => if p.slave.wr == WriteIdle then 13 else 12
  }

  predicate Flows(i: PathIn) {
    && !i.stalls.ar && !i.stalls.aw && !i.stalls.w && i.iReady && i.dReady
    && (i.stalls.r.Some? ==> i.stalls.r.value <= 15) && (i.stalls.b.Some? ==> i.stalls.b.value <= 7)
  }

  /** An accepted request is answered within nineteen such clocks. */
  lemma AnswerComes(rom: Rom, p: Path, ram: Ram, d: Due, i: PathIn)
    requires Refines(rom, p, ram, Some(d)) && Flows(i)
    ensures Response(p, i).Some? || Clocks(Next(rom, p, i)) < Clocks(p)
  {
    hide InRam, RamIndex, Mapped, Right, MemRead, Stored, Effect, WOf;
  }
}
