/** The data-side address decoder and response router. */
module Fabric {
  import opened Words
  import opened Pipeline
  import opened AxiBridge
  import opened Isa
  import Csr
  import DataPort

  datatype Region = RomRegion | RamRegion | MmioRegion | ClintRegion | PlicRegion | Nowhere

  const SLAVES := 5

  predicate SelRom(a: Word) { a.bits & 0xFFE0_0000 == 0 }
  predicate SelRam(a: Word) { InRam(a) }
  predicate SelMmio(a: Word) { a.bits & 0xFFFF_0000 == 0x1000_0000 }
  predicate SelClint(a: Word) { a.bits & 0xFFFF_0000 == 0x0200_0000 }
  predicate SelPlic(a: Word) { a.bits & 0xFFC0_0000 == 0x0C00_0000 }

  function Decoded(a: Word): (r: Region) {
    if SelRom(a) then RomRegion
    else if SelRam(a) then RamRegion
    else if SelMmio(a) then MmioRegion
    else if SelClint(a) then ClintRegion
    else if SelPlic(a) then PlicRegion
    else Nowhere
  }

  function Index(r: Region): (k: nat)
    ensures k <= SLAVES && (k < SLAVES <==> r != Nowhere)
  {
    match r
    case RomRegion => 0
    case RamRegion => 1
    case MmioRegion => 2
    case ClintRegion => 3
    case PlicRegion => 4
    case Nowhere => 5
  }

  /** For each slave the request it has accepted and not answered. */
  type Slaves = s: seq<Option<DReq>> | |s| == SLAVES witness seq(SLAVES, _ => None)

  /** One clock: the master's request and response readiness, and for each slave whether it would
      accept, and the answer it gives if it owes one. */
  datatype FabricIn = FabricIn(req: Option<DReq>, rspReady: bool, ready: seq<bool>, answer: seq<Option<Beat>>)
  {
    predicate Valid() { |ready| == SLAVES && |answer| == SLAVES }
  }

  datatype Router = Router(active: Region, pending: bool)
  {
    predicate ReqReady(i: FabricIn)
      requires i.Valid() && i.req.Some?
    {
      var k := Index(Decoded(i.req.value.addr));
      k < SLAVES ==> i.ready[k]
    }

    function Rsp(s: Slaves, i: FabricIn): (r: Option<Beat>)
      requires i.Valid()
    {
      var k := Index(active);
      if k == SLAVES then (if pending then Some(Beat(Word(0xDEAD_BEEF), true)) else None)
      else if s[k].Some? then i.answer[k]
      else None
    }

    function Next(s: Slaves, i: FabricIn): (r: Router)
      requires i.Valid()
    {
      if i.req.Some? && ReqReady(i) && !pending then Router(Decoded(i.req.value.addr), true)
      else if Rsp(s, i).Some? && i.rspReady then this.(pending := false)
      else this
    }

    /** What slave k owes after the clock. */
    function SlaveNext(s: Slaves, i: FabricIn, k: nat): (r: Option<DReq>)
      requires i.Valid() && k < SLAVES
    {
      if i.req.Some? && Index(Decoded(i.req.value.addr)) == k && i.ready[k] then i.req
      else if s[k].Some? && i.answer[k].Some? && i.rspReady && Index(active) == k then None
      else s[k]
    }

    function SlavesNext(s: Slaves, i: FabricIn): (r: Slaves)
      requires i.Valid()
    {
      seq(SLAVES, k requires 0 <= k < SLAVES => SlaveNext(s, i, k))
    }
  }

  /** The router's clocked process. */
  class MemFabric {
    var active: Region
    var pending: bool

    ghost function View(): (r: Router)
      reads this
    {
      Router(active, pending)
    }

    constructor ()
      ensures View() == Router(RomRegion, false)
    {
      active, pending := RomRegion, false;
    }

    method Clock(s: Slaves, i: FabricIn)
      requires i.Valid()
      modifies this
      ensures View() == old(View()).Next(s, i)
    {
      var k := Index(active);
      var rspValid := if k == SLAVES then pending else s[k].Some? && i.answer[k].Some?;
      var reqReady := false;
      if i.req.Some? {
        var sel := Index(Decoded(i.req.value.addr));
        reqReady := if sel == SLAVES then true else i.ready[sel];
      }
      if reqReady && !pending {
        pending := true;
        active := Decoded(i.req.value.addr);
      } else if rspValid && i.rspReady {
        pending := false;
      }
    }
  }

  // ------------------------------------------------------------------------------------------
  // Routing
  // ------------------------------------------------------------------------------------------

  /** No address is decoded to two slaves. */
  lemma RegionsAreDisjoint(a: Word)
    ensures SelRom(a) ==> !SelRam(a) && !SelMmio(a) && !SelClint(a) && !SelPlic(a)
    ensures SelRam(a) ==> !SelMmio(a) && !SelClint(a) && !SelPlic(a)
    ensures SelMmio(a) ==> !SelClint(a) && !SelPlic(a)
    ensures SelClint(a) ==> !SelPlic(a)
  {
    if SelRom(a) {} else if SelRam(a) {} else if SelMmio(a) {} else if SelClint(a) {}
  }

  /** The request `due`, if any, is owed by the slave its address selects and by no other. */
  predicate Routed(r: Router, s: Slaves, due: Option<DReq>) {
    match due
    case None => !r.pending && forall k :: 0 <= k < SLAVES ==> s[k].None?
    case Some(q) =>
      && r.pending && r.active == Decoded(q.addr)
      && forall k :: 0 <= k < SLAVES ==> s[k] == if k == Index(r.active) then Some(q) else None
  }

  /** The master asks only when nothing is outstanding. */
  predicate Patient(due: Option<DReq>, i: FabricIn) { i.req.Some? ==> due.None? }

  predicate Takes(r: Router, i: FabricIn)
    requires i.Valid()
  {
    i.req.Some? && r.ReqReady(i)
  }

  predicate Gives(r: Router, s: Slaves, i: FabricIn)
    requires i.Valid()
  {
    r.Rsp(s, i).Some? && i.rspReady
  }

  function DueAfter(r: Router, s: Slaves, due: Option<DReq>, i: FabricIn): (x: Option<DReq>)
    requires i.Valid()
  {
    if Takes(r, i) then i.req else if Gives(r, s, i) then None else due
  }

  lemma NoOverlapRoutes(r: Router, s: Slaves, due: Option<DReq>, i: FabricIn)
    requires i.Valid() && Routed(r, s, due) && (Takes(r, i) ==> due.None?)
    ensures Routed(r.Next(s, i), r.SlavesNext(s, i), DueAfter(r, s, due, i))
  {
    hide Decoded;
  }

  /** For a patient master, whatever the slaves' latencies: each answer comes from the slave its
      request's address selects, nothing else answers, and it is delivered once. */
  lemma StepRoutes(r: Router, s: Slaves, due: Option<DReq>, i: FabricIn)
    requires i.Valid() && Routed(r, s, due) && Patient(due, i)
    ensures Routed(r.Next(s, i), r.SlavesNext(s, i), DueAfter(r, s, due, i))
    ensures due.None? ==> r.Rsp(s, i).None?
    ensures due.Some? ==>
      var k := Index(Decoded(due.value.addr));
      r.Rsp(s, i) == if k == SLAVES then Some(Beat(Word(0xDEAD_BEEF), true)) else i.answer[k]
  {
    hide Decoded, Router.Next, Router.SlavesNext;
    NoOverlapRoutes(r, s, due, i);
  }

  /** For any master the routing survives a clock exactly if no request is taken while an answer is
      owed, or that answer is not given now and the request goes to the slave that owes it. */
  lemma RoutingSurvives(r: Router, s: Slaves, due: Option<DReq>, i: FabricIn)
    requires i.Valid() && Routed(r, s, due)
    ensures Routed(r.Next(s, i), r.SlavesNext(s, i), DueAfter(r, s, due, i))
       <==> (Takes(r, i) && due.Some? ==> !Gives(r, s, i) && Decoded(i.req.value.addr) == Decoded(due.value.addr))
  {
    hide Decoded, Router.SlaveNext;
    if Takes(r, i) && due.Some? && !Gives(r, s, i) {
      forall k: nat | k < SLAVES
        ensures r.SlaveNext(s, i, k) == if k == Index(Decoded(i.req.value.addr)) then i.req else s[k]
      {
        TakenAtSlave(r, s, i, k);
      }
      if Decoded(i.req.value.addr) != Decoded(due.value.addr) { assert r.Next(s, i).active == r.active; }
    } else if !Takes(r, i) || due.None? {
      NoOverlapRoutes(r, s, due, i);
    }
  }

  lemma TakenAtSlave(r: Router, s: Slaves, i: FabricIn, k: nat)
    requires i.Valid() && Takes(r, i) && !Gives(r, s, i) && k < SLAVES
    ensures r.SlaveNext(s, i, k) == if k == Index(Decoded(i.req.value.addr)) then i.req else s[k]
  {
    hide Decoded;
  }

  // ------------------------------------------------------------------------------------------
  // Behind the core's data port
  // ------------------------------------------------------------------------------------------

  /** The core's clock inputs when its data port is connected to the fabric. */
  function CoreIn(e: Env, c: Core, r: Router, s: Slaves, i: FabricIn, rest: In): (x: In)
    requires c.csr.Valid() && i.Valid()
  {
    rest.(dReady := i.req.Some? && r.ReqReady(i),
          dRsp := match r.Rsp(s, i) case Some(x) => Some(DResp(x.data, x.err)) case None => None)
  }

  predicate Connected(e: Env, c: Core, i: FabricIn)
    requires c.csr.Valid()
  {
    && i.Valid()
    && i.req == (if Requesting(e, c) then Some(Request(e, c)) else None)
    && i.rspReady == RspReady(c)
  }

  /** EX is patient, so every request it makes is answered once, by the slave it addressed, and EX is
      waiting when the answer comes. */
  lemma FabricServesCore(e: Env, c: Core, r: Router, s: Slaves, due: Option<DReq>, i: FabricIn, rest: In)
    requires c.csr.Valid() && Connected(e, c, i) && Routed(r, s, due) && (due.Some? <==> RspReady(c))
    ensures Patient(due, i)
    ensures var n := Next(e, c, CoreIn(e, c, r, s, i, rest));
      && Routed(r.Next(s, i), r.SlavesNext(s, i), DueAfter(r, s, due, i))
      && (DueAfter(r, s, due, i).Some? <==> RspReady(n))
    ensures Gives(r, s, i) <==> RspFire(c, CoreIn(e, c, r, s, i, rest))
  {
    hide Decoded, Next, Requesting, Request, RspReady, Router.Next, Router.SlavesNext, Routed, Router.Rsp,
      Router.ReqReady;
    DataPort.WaitsDoNotRequest(e, c);
    StepRoutes(r, s, due, i);
    DataPort.PortAdvances(e, c, CoreIn(e, c, r, s, i, rest));
  }
}
