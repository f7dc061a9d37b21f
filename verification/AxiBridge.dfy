/** The bridge from the core's request/response bus to AXI4-Lite. */
module AxiBridge {
  import opened Words
  import opened Pipeline
  import opened Logs

  datatype BridgeState = Idle | RdAddr | RdData | WrAddr | WrResp | Rsp

  /** An answer: read data, and whether the slave reported an error. */
  datatype Beat = Beat(data: Word, err: bool)

  /** One clock's inputs: a request and a ready response port on the core side; READY on the
      address and data channels, a read beat, and a write response (its error) on the AXI side. */
  datatype BridgeIn = BridgeIn(req: Option<DReq>, rspReady: bool, arReady: bool, awReady: bool, wReady: bool,
                               r: Option<Beat>, b: Option<bool>)

  /** The bridge's registers. */
  datatype Bridge = Bridge(st: BridgeState, req: DReq, rdata: Word, err: bool, awDone: bool, wDone: bool)
  {
    predicate ReqReady() { st == Idle }
    predicate ArValid() { st == RdAddr }
    predicate RReady() { st == RdData }
    predicate AwValid() { st == WrAddr && !awDone }
    predicate WValid() { st == WrAddr && !wDone }
    predicate BReady() { st == WrResp }
    predicate RspValid() { st == Rsp }

    predicate Accepts(i: BridgeIn) { ReqReady() && i.req.Some? }
    predicate ArFires(i: BridgeIn) { ArValid() && i.arReady }
    predicate AwFires(i: BridgeIn) { AwValid() && i.awReady }
    predicate WFires(i: BridgeIn) { WValid() && i.wReady }
    predicate RFires(i: BridgeIn) { RReady() && i.r.Some? }
    predicate BFires(i: BridgeIn) { BReady() && i.b.Some? }
    predicate Delivers(i: BridgeIn) { RspValid() && i.rspReady }

    function Next(i: BridgeIn): (r: Bridge) {
      match st
      case Idle =>
        if !Accepts(i) then this
        else if i.req.value.we then this.(st := WrAddr, req := i.req.value, awDone := false, wDone := false)
        else this.(st := RdAddr, req := i.req.value)
      case RdAddr => if ArFires(i) then this.(st := RdData) else this
      case RdData => if RFires(i) then this.(st := Rsp, rdata := i.r.value.data, err := i.r.value.err) else this
      case WrAddr =>
        var aw, w := awDone || AwFires(i), wDone || WFires(i);
        this.(awDone := aw, wDone := w, st := if aw && w then WrResp else WrAddr)
      case WrResp => if BFires(i) then this.(st := Rsp, rdata := ZERO, err := i.b.value) else this
      case Rsp => if Delivers(i) then this.(st := Idle) else this
    }
  }

  /** The bridge's clocked process. */
  class AxiMaster {
    var state: BridgeState
    var req: DReq
    var rdata: Word
    var err: bool
    var awDone: bool
    var wDone: bool

    ghost function View(): (r: Bridge)
      reads this
    {
      Bridge(state, req, rdata, err, awDone, wDone)
    }

    constructor ()
      ensures View().st == Idle
    {
      state, req, rdata, err := Idle, DReq(ZERO, false, ZERO, Strobe(0)), ZERO, false;
      awDone, wDone := false, false;
    }

    method Clock(i: BridgeIn)
      modifies this
      ensures View() == old(View()).Next(i)
    {
      var arvalid, awvalid, wvalid := state == RdAddr, state == WrAddr && !awDone, state == WrAddr && !wDone;
      match state {
        case Idle =>
          if i.req.Some? {
            req := i.req.value;
            if i.req.value.we {
              state := WrAddr;
              awDone := false;
              wDone := false;
            } else {
              state := RdAddr;
            }
          }
        case RdAddr =>
          if arvalid && i.arReady { state := RdData; }
        case RdData =>
          if i.r.Some? {
            rdata := i.r.value.data;
            err := i.r.value.err;
            state := Rsp;
          }
        case WrAddr =>
          var awWas, wWas := awDone, wDone;
          if awvalid && i.awReady { awDone := true; }
          if wvalid && i.wReady { wDone := true; }
          if (awWas || (awvalid && i.awReady)) && (wWas || (wvalid && i.wReady)) { state := WrResp; }
        case WrResp =>
          if i.b.Some? {
            err := i.b.value;
            rdata := ZERO;
            state := Rsp;
          }
        case Rsp =>
          if i.rspReady { state := Idle; }
      }
    }
  }

  // ------------------------------------------------------------------------------------------
  // One clock
  // ------------------------------------------------------------------------------------------

  /** VALID, once asserted, stays until READY with the same address, data and strobe, and so does a
      response until it is taken (section A3.2.1 of ARM IHI 0022). */
  lemma ValidIsStable(b: Bridge, i: BridgeIn)
    ensures var n := b.Next(i);
      && (b.ArValid() && !i.arReady ==> n.ArValid() && n.req == b.req)
      && (b.AwValid() && !i.awReady ==> n.AwValid() && n.req == b.req)
      && (b.WValid() && !i.wReady ==> n.WValid() && n.req == b.req)
      && (b.RspValid() && !i.rspReady ==> n.RspValid() && n.rdata == b.rdata && n.err == b.err)
      && (b.st != Idle ==> n.req == b.req)
  {}

  /** Handshakes left until the response is delivered. */
  function Rank(b: Bridge): (r: nat) {
    match b.st
    case Idle => 0
    case Rsp => 1
    case RdData => 2
    case RdAddr => 3
    case WrResp => 2
    case WrAddr => 2 + (if b.awDone then 0 else 1) + (if b.wDone then 0 else 1)
  }

  function Handshakes(b: Bridge, i: BridgeIn): (r: nat) {
    (if b.ArFires(i) then 1 else 0) + (if b.AwFires(i) then 1 else 0) + (if b.WFires(i) then 1 else 0) +
    (if b.RFires(i) then 1 else 0) + (if b.BFires(i) then 1 else 0) + (if b.Delivers(i) then 1 else 0)
  }

  /** Not both halves of a write are done while it still waits for them. */
  predicate Valid(b: Bridge) { b.st == WrAddr ==> !(b.awDone && b.wDone) }

  /** Between accepting a request and delivering its response, every handshake lowers the rank by
      one and nothing else changes it. */
  lemma RankFalls(b: Bridge, i: BridgeIn)
    requires Valid(b)
    ensures Valid(b.Next(i))
    ensures b.st != Idle ==> Rank(b) == Rank(b.Next(i)) + Handshakes(b, i)
    ensures b.st == Idle && !b.Accepts(i) ==> b.Next(i) == b
    ensures b.Accepts(i) ==> Rank(b.Next(i)) == if i.req.value.we then 4 else 3
  {}

  // ------------------------------------------------------------------------------------------
  // Runs, whatever the slave does
  // ------------------------------------------------------------------------------------------

  function Run(b: Bridge, ins: seq<BridgeIn>): (r: Bridge)
    decreases |ins|
  {
    if ins == [] then b else Run(b.Next(ins[0]), ins[1..])
  }

  function Fresh(b: Bridge, i: BridgeIn): (r: seq<DReq>) { if b.Accepts(i) then [i.req.value] else [] }

  function Accepted(b: Bridge, ins: seq<BridgeIn>): (r: seq<DReq>)
    decreases |ins|
  {
    if ins == [] then [] else Fresh(b, ins[0]) + Accepted(b.Next(ins[0]), ins[1..])
  }

  datatype WBeat = WBeat(data: Word, strb: Strobe)

  function WOf(q: DReq): (r: WBeat) { WBeat(q.wdata, q.strb) }

  /** The addresses sent on AR and AW, and the beats sent on W. */
  function Ars(b: Bridge, ins: seq<BridgeIn>): (r: seq<Word>)
    decreases |ins|
  {
    if ins == [] then [] else When(b.ArFires(ins[0]), b.req.addr) + Ars(b.Next(ins[0]), ins[1..])
  }

  function Aws(b: Bridge, ins: seq<BridgeIn>): (r: seq<Word>)
    decreases |ins|
  {
    if ins == [] then [] else When(b.AwFires(ins[0]), b.req.addr) + Aws(b.Next(ins[0]), ins[1..])
  }

  function Ws(b: Bridge, ins: seq<BridgeIn>): (r: seq<WBeat>)
    decreases |ins|
  {
    if ins == [] then [] else When(b.WFires(ins[0]), WOf(b.req)) + Ws(b.Next(ins[0]), ins[1..])
  }

  /** Answers received on R and B, and responses delivered to the core. */
  function Received(b: Bridge, ins: seq<BridgeIn>): (r: seq<Beat>)
    decreases |ins|
  {
    if ins == [] then [] else Got(b, ins[0]) + Received(b.Next(ins[0]), ins[1..])
  }

  function Delivered(b: Bridge, ins: seq<BridgeIn>): (r: seq<Beat>)
    decreases |ins|
  {
    if ins == [] then [] else When(b.Delivers(ins[0]), Beat(b.rdata, b.err)) + Delivered(b.Next(ins[0]), ins[1..])
  }

  predicate AcceptsRead(b: Bridge, i: BridgeIn) { b.Accepts(i) && !i.req.value.we }

  predicate AcceptsWrite(b: Bridge, i: BridgeIn) { b.Accepts(i) && i.req.value.we }

  function ReadAddress(b: Bridge, i: BridgeIn): (r: seq<Word>) { if AcceptsRead(b, i) then [i.req.value.addr] else [] }

  function WriteAddress(b: Bridge, i: BridgeIn): (r: seq<Word>) {
    if AcceptsWrite(b, i) then [i.req.value.addr] else []
  }

  function WriteBeat(b: Bridge, i: BridgeIn): (r: seq<WBeat>) { if AcceptsWrite(b, i) then [WOf(i.req.value)] else [] }

  /** Addresses of the accepted reads, and of the accepted writes, and the data of the latter. */
  function ReadAddresses(b: Bridge, ins: seq<BridgeIn>): (r: seq<Word>)
    decreases |ins|
  {
    if ins == [] then [] else ReadAddress(b, ins[0]) + ReadAddresses(b.Next(ins[0]), ins[1..])
  }

  function WriteAddresses(b: Bridge, ins: seq<BridgeIn>): (r: seq<Word>)
    decreases |ins|
  {
    if ins == [] then [] else WriteAddress(b, ins[0]) + WriteAddresses(b.Next(ins[0]), ins[1..])
  }

  function WriteBeats(b: Bridge, ins: seq<BridgeIn>): (r: seq<WBeat>)
    decreases |ins|
  {
    if ins == [] then [] else WriteBeat(b, ins[0]) + WriteBeats(b.Next(ins[0]), ins[1..])
  }

  function ArDue(b: Bridge): (r: seq<Word>) { When(b.ArValid(), b.req.addr) }

  function AwDue(b: Bridge): (r: seq<Word>) { When(b.AwValid(), b.req.addr) }

  function WDue(b: Bridge): (r: seq<WBeat>) { When(b.WValid(), WOf(b.req)) }

  function Held(b: Bridge): (r: seq<Beat>) { When(b.RspValid(), Beat(b.rdata, b.err)) }

  lemma ReadStep(b: Bridge, i: BridgeIn)
    ensures ArDue(b) + ReadAddress(b, i) == When(b.ArFires(i), b.req.addr) + ArDue(b.Next(i))
  {}

  lemma WriteAddressStep(b: Bridge, i: BridgeIn)
    ensures AwDue(b) + WriteAddress(b, i) == When(b.AwFires(i), b.req.addr) + AwDue(b.Next(i))
  {}

  lemma WriteBeatStep(b: Bridge, i: BridgeIn)
    ensures WDue(b) + WriteBeat(b, i) == When(b.WFires(i), WOf(b.req)) + WDue(b.Next(i))
  {
    hide WOf;
  }

  lemma {:induction false} ReadsOnce(b: Bridge, ins: seq<BridgeIn>)
    ensures ArDue(b) + ReadAddresses(b, ins) == Ars(b, ins) + ArDue(Run(b, ins))
    decreases |ins|
  {
    hide Bridge.Next, ArDue, Bridge.ArFires, When, ReadAddress;
    if ins != [] {
      var n, i := b.Next(ins[0]), ins[0];
      ReadsOnce(n, ins[1..]);
      ReadStep(b, i);
      Chained(ArDue(b), ReadAddress(b, i), ReadAddresses(n, ins[1..]), When(b.ArFires(i), b.req.addr), ArDue(n),
              Ars(n, ins[1..]), ArDue(Run(b, ins)));
    }
  }

  lemma {:induction false} WriteAddressesOnce(b: Bridge, ins: seq<BridgeIn>)
    ensures AwDue(b) + WriteAddresses(b, ins) == Aws(b, ins) + AwDue(Run(b, ins))
    decreases |ins|
  {
    hide Bridge.Next, AwDue, Bridge.AwFires, When, WriteAddress;
    if ins != [] {
      var n, i := b.Next(ins[0]), ins[0];
      WriteAddressesOnce(n, ins[1..]);
      WriteAddressStep(b, i);
      Chained(AwDue(b), WriteAddress(b, i), WriteAddresses(n, ins[1..]), When(b.AwFires(i), b.req.addr), AwDue(n),
              Aws(n, ins[1..]), AwDue(Run(b, ins)));
    }
  }

  lemma {:induction false} WriteBeatsOnce(b: Bridge, ins: seq<BridgeIn>)
    ensures WDue(b) + WriteBeats(b, ins) == Ws(b, ins) + WDue(Run(b, ins))
    decreases |ins|
  {
    hide Bridge.Next, WDue, Bridge.WFires, When, WOf, WriteBeat;
    if ins != [] {
      var n, i := b.Next(ins[0]), ins[0];
      WriteBeatsOnce(n, ins[1..]);
      WriteBeatStep(b, i);
      Chained(WDue(b), WriteBeat(b, i), WriteBeats(n, ins[1..]), When(b.WFires(i), WOf(b.req)), WDue(n),
              Ws(n, ins[1..]), WDue(Run(b, ins)));
    }
  }

  function Got(b: Bridge, i: BridgeIn): (r: seq<Beat>) {
    if b.RFires(i) then [i.r.value] else if b.BFires(i) then [Beat(ZERO, i.b.value)] else []
  }

  lemma AnswerStep(b: Bridge, i: BridgeIn)
    ensures Held(b) + Got(b, i) == When(b.Delivers(i), Beat(b.rdata, b.err)) + Held(b.Next(i))
  {}

  lemma {:induction false} AnswersOnce(b: Bridge, ins: seq<BridgeIn>)
    ensures Held(b) + Received(b, ins) == Delivered(b, ins) + Held(Run(b, ins))
    decreases |ins|
  {
    hide Bridge.Next, Held, Got, When, Bridge.Delivers;
    if ins != [] {
      var n, i := b.Next(ins[0]), ins[0];
      AnswersOnce(n, ins[1..]);
      AnswerStep(b, i);
      Chained(Held(b), Got(b, i), Received(n, ins[1..]), When(b.Delivers(i), Beat(b.rdata, b.err)), Held(n),
              Delivered(n, ins[1..]), Held(Run(b, ins)));
    }
  }

  function Busy(b: Bridge): (r: nat) { if b.st == Idle then 0 else 1 }

  lemma {:induction false} OneAnswerEach(b: Bridge, ins: seq<BridgeIn>)
    ensures Busy(b) + |Accepted(b, ins)| == |Delivered(b, ins)| + Busy(Run(b, ins))
    decreases |ins|
  {
    if ins != [] { OneAnswerEach(b.Next(ins[0]), ins[1..]); }
  }

  /** Over every run and every behaviour of the slave: the AR addresses are the read requests', the AW
      addresses and W beats the write requests', each once and in order, up to what the request in
      flight still has to send; each answer received is delivered once, in order; and each request
      gets one. */
  lemma ExactlyOnce(b: Bridge, ins: seq<BridgeIn>)
    ensures var n := Run(b, ins);
      && ArDue(b) + ReadAddresses(b, ins) == Ars(b, ins) + ArDue(n)
      && AwDue(b) + WriteAddresses(b, ins) == Aws(b, ins) + AwDue(n)
      && WDue(b) + WriteBeats(b, ins) == Ws(b, ins) + WDue(n)
      && Held(b) + Received(b, ins) == Delivered(b, ins) + Held(n)
      && Busy(b) + |Accepted(b, ins)| == |Delivered(b, ins)| + Busy(n)
  {
    hide *;
    ReadsOnce(b, ins);
    WriteAddressesOnce(b, ins);
    WriteBeatsOnce(b, ins);
    AnswersOnce(b, ins);
    OneAnswerEach(b, ins);
  }
}
