/** The single-cycle RAM behind the fabric. */
module DataRam {
  import opened Words
  import opened Pipeline
  import opened Isa
  import opened Memory
  import System

  /** Its contents, whether an answer is waiting, and the answer. */
  datatype Unit = Unit(mem: Ram, pending: bool, data: Word)
  {
    predicate ReqReady(rspReady: bool) { !pending || rspReady }

    /** An accepted request acts at once; its answer is the word as it was. */
    function Next(req: Option<DReq>, rspReady: bool): (r: Unit) {
      if req.Some? && ReqReady(rspReady) then Unit(Written(mem, req.value), true, mem[RamIndex(req.value.addr)])
      else if pending && rspReady then this.(pending := false)
      else this
    }
  }

  function Written(mem: Ram, q: DReq): (r: Ram) {
    var k := RamIndex(q.addr);
    if q.we then mem[k := Strobed(mem[k], q.wdata, q.strb.lanes)] else mem
  }

  class RamArray {
    const mem: array<Word>
    var pending: bool
    var data: Word

    ghost predicate Valid()
      reads this
    {
      mem.Length == RAM_WORDS
    }

    ghost function View(): (r: Unit)
      requires Valid()
      reads this, mem
    {
      Unit(mem[..], pending, data)
    }

    constructor ()
      ensures Valid() && fresh(mem) && View() == Unit(seq(RAM_WORDS, _ => ZERO), false, ZERO)
    {
      mem := new Word[RAM_WORDS](_ => ZERO);
      pending, data := false, ZERO;
    }

    method Clock(req: Option<DReq>, rspReady: bool)
      requires Valid()
      modifies this, mem
      ensures Valid() && View() == old(View()).Next(req, rspReady)
    {
      if req.Some? && (!pending || rspReady) {
        var k := RamIndex(req.value.addr);
        data := mem[k];
        if req.value.we { mem[k] := Strobed(mem[k], req.value.wdata, req.value.strb.lanes); }
        pending := true;
      } else if pending && rspReady {
        pending := false;
      }
    }
  }

  /** The RAM is the memory the pipelined system assumes: while its answer is owed, the bus holds
      that answer, fixed when the request was taken. */
  predicate Backs(u: Unit, ram: Ram, b: Option<System.Pend>) {
    u.mem == ram &&
    match b
    case None => !u.pending
    case Some(p) => p.inRam == u.pending && (p.inRam && p.data.Some? ==> u.data == p.data.value)
  }

  /** A RAM request from the core, and an answer it takes, keep that. */
  lemma RamBacksSystem(u: Unit, ram: Ram, q: DReq)
    requires Backs(u, ram, None) && InRam(q.addr)
    ensures Backs(u.Next(Some(q), false), System.NextRam(ram, q), Some(System.PendOf(ram, q)))
    ensures Backs(u.Next(Some(q), false).Next(None, true), System.NextRam(ram, q), None)
    ensures u.Next(Some(q), false).Next(None, false) == u.Next(Some(q), false)
  {
    hide InRam, RamIndex, Strobed;
  }
}
