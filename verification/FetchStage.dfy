/** The clocked process of the fetch stage, register by register in the order of the RTL: a later
    assignment to a register wins. */
module FetchStage {
  import opened Words
  import opened Fetch

  class IfStage {
    var ifState: IfState
    var fetchPc: Word
    var fetchReqPc: Word
    var fetchUpperHold: Half
    var fetchErrHold: bool
    var ifDiscardRsp: bool
    var fbuf: Buf
    var pf: Buf
    var pfInflight: bool
    var pfInflightAddr: WordAddr
    var pfDiscard: bool
    var ifIdValid: bool
    var ifId: Item

    function View(): (r: Fe)
      reads this
    {
      Fe(ifState, fetchPc, fetchReqPc, fetchUpperHold, fetchErrHold, ifDiscardRsp, fbuf, pf, pfInflight, pfInflightAddr,
         pfDiscard, ifIdValid, ifId)
    }

    constructor (vector: Word)
      ensures View() == Reset(vector)
    {
      ifState, fetchPc, fetchReqPc, fetchUpperHold, fetchErrHold, ifDiscardRsp := Req, vector, vector, Half(0), false,
          false;
      fbuf, pf := Buf(false, WordAddr(0), FWord(ZERO, false)), Buf(false, WordAddr(0), FWord(ZERO, false));
      pfInflight, pfInflightAddr, pfDiscard := false, WordAddr(0), false;
      ifIdValid, ifId := false, Item(ZERO, NOP, false, false);
    }

    /** Assembling an instruction from a complete word. */
    method Assemble(at: Word, w: FWord)
      modifies `ifState, `fetchPc, `fetchReqPc, `fetchUpperHold, `fetchErrHold, `ifIdValid, `ifId
      ensures View() == TakeWord(old(View()), at, w)
    {
      hide WordOf, IsUpper, HalfOf, Zext, Join, IsShort, Plus, NextWord;
      var upper := IsUpper(at);
      var half := HalfOf(w.data, upper);
      if w.err {
        fetchErrHold := true;
        ifIdValid := true;
        ifId := Item(at, NOP, false, true);
        fetchPc := Plus(at, 4);
        ifState := Req;
      } else if !upper {
        fetchErrHold := false;
        ifIdValid := true;
        if IsShort(half) {
          ifId := Item(at, Zext(half), true, false);
          fetchPc := Plus(at, 2);
        } else {
          ifId := Item(at, w.data, false, false);
          fetchPc := Plus(at, 4);
        }
        ifState := Req;
      } else {
        fetchErrHold := false;
        if IsShort(half) {
          ifIdValid := true;
          ifId := Item(at, Zext(half), true, false);
          fetchPc := Plus(at, 2);
          ifState := Req;
        } else {
          fetchUpperHold := half;
          fetchReqPc := at;
          ifState := SecondReq;
        }
      }
    }

    /** The second half of a straddling instruction. */
    method Straddle(w: FWord)
      modifies `ifState, `fetchPc, `fetchUpperHold, `fetchErrHold, `ifIdValid, `ifId
      ensures View() == TakeSecond(old(View()), w)
    {
      hide WordOf, IsUpper, HalfOf, Zext, Join, IsShort, Plus, NextWord;
      ifIdValid := true;
      ifId := Item(fetchReqPc, Join(HalfOf(w.data, false), fetchUpperHold), false, fetchErrHold || w.err);
      fetchPc := Plus(fetchReqPc, 4);
      fetchUpperHold := Half(0);
      fetchErrHold := false;
      ifState := Req;
    }

    /** Dropping everything fetched so far. `r` are the wires of this clock. */
    method Redirect(f: Fe, i: FeIn)
      modifies this
      ensures View() == Redirected(old(View()), f, i)
    {
      fetchPc := i.target;
      ifIdValid := false;
      fetchUpperHold := Half(0);
      fetchErrHold := false;
      fbuf := Invalid(fbuf);
      pf := Invalid(pf);
      if f.pfInflight && !f.PfRsp(i) { pfDiscard := true; }
      if f.Waiting() && !i.rspValid {
        ifDiscardRsp := true;
      } else {
        ifDiscardRsp := false;
        ifState := Req;
      }
    }

    /** A demand request is accepted. `f` are the registers before the clock, which drive the wires. */
    method FireRequest(f: Fe, i: FeIn)
      modifies `ifState, `fetchReqPc
      ensures View() == Requested(old(View()), f, i)
    {
      hide Fe.DemandReq;
      if f.DemandReq(i) && i.ready {
        if f.st == Req {
          fetchReqPc := f.pc;
          ifState := Wait;
        } else {
          ifState := SecondWait;
        }
      }
    }

    /** A prefetch request is accepted, or its answer fills the slot. */
    method FirePrefetch(f: Fe, i: FeIn)
      modifies `pf, `pfInflight, `pfInflightAddr, `pfDiscard
      ensures View() == Prefetched(old(View()), f, i)
    {
      hide Fe.PfIssue, Fe.PfRsp, Fe.PfTarget;
      if f.PfIssue(i) && i.ready {
        pfInflight := true;
        pfInflightAddr := f.PfTarget();
      }
      if f.PfRsp(i) {
        pfInflight := false;
        if f.pfDiscard {
          pfDiscard := false;
        } else {
          pf := Buf(true, f.pfWa, i.rsp);
        }
      }
    }

    /** A served prefetch word moves to the fetch buffer. */
    method Promote(f: Fe, i: FeIn)
      modifies `fbuf, `pf
      ensures View() == Promoted(old(View()), f, i)
    {
      hide Fe.ServeBuf, Fe.FbufHit;
      if f.ServeBuf(i) && !f.FbufHit() {
        fbuf := f.slot.(valid := true);
        pf := Invalid(pf);
      }
    }

    /** A demand answer is dropped, or fills the fetch buffer. */
    method Fill(f: Fe, i: FeIn)
      modifies `ifState, `ifDiscardRsp, `fbuf
      ensures View() == Filled(old(View()), f, i)
    {
      hide Fe.IfRsp, WordOf, NextWord;
      if f.IfRsp(i) && f.discard {
        ifDiscardRsp := false;
        ifState := Req;
      }
      if f.IfRsp(i) && !f.discard {
        fbuf := Buf(true, if f.st == SecondWait then NextWord(WordOf(f.reqPc)) else WordOf(f.reqPc), i.rsp);
      }
    }

    /** An instruction is assembled from a complete word, or completed by its second half. */
    method TakeAnswer(f: Fe, i: FeIn)
      modifies `ifState, `fetchPc, `fetchReqPc, `fetchUpperHold, `fetchErrHold, `ifIdValid, `ifId
      ensures View() == Answered(old(View()), f, i)
    {
      hide TakeWord, TakeSecond, Fe.BufHit, Fe.FbufHit, Fe.CanAccept;
      var wordReady := (f.IfRsp(i) && !f.discard && f.st == Wait) || f.ServeBuf(i);
      var word := if f.ServeBuf(i) then (if f.FbufHit() then f.fbuf.word else f.slot.word) else i.rsp;
      var wordPc := if f.ServeBuf(i) then f.pc else f.reqPc;
      if wordReady { Assemble(wordPc, word); }
      if f.IfRsp(i) && !f.discard && f.st == SecondWait { Straddle(i.rsp); }
    }

    /** One clock. */
    method Clock(i: FeIn)
      modifies this
      ensures View() == Next(old(View()), i)
    {
      hide Requested, Prefetched, Promoted, Filled, Answered, Produces, Redirected, Next;
      var f := View();
      ClockInOrder(f, i);
      FireRequest(f, i);
      FirePrefetch(f, i);
      Promote(f, i);
      Fill(f, i);
      TakeAnswer(f, i);
      if i.redirect { Redirect(f, i); }
      if i.idFire && !Produces(f, i) { ifIdValid := false; }
    }
  }

  // ------------------------------------------------------------------------------------------
  // The order of the assignments
  // ------------------------------------------------------------------------------------------

  function Requested(p: Fe, f: Fe, i: FeIn): (r: Fe) {
    if !(f.DemandReq(i) && i.ready) then p
    else if f.st == Req then p.(reqPc := f.pc, st := Wait)
    else p.(st := SecondWait)
  }

  function Prefetched(p: Fe, f: Fe, i: FeIn): (r: Fe) {
    var q := if f.PfIssue(i) && i.ready then p.(pfInflight := true, pfWa := f.PfTarget()) else p;
    if !f.PfRsp(i) then q
    else if f.pfDiscard then q.(pfInflight := false, pfDiscard := false)
    else q.(pfInflight := false, slot := Buf(true, f.pfWa, i.rsp))
  }

  function Promoted(p: Fe, f: Fe, i: FeIn): (r: Fe) {
    if f.ServeBuf(i) && !f.FbufHit() then p.(fbuf := f.slot.(valid := true), slot := Invalid(p.slot)) else p
  }

  function Filled(p: Fe, f: Fe, i: FeIn): (r: Fe) {
    if !f.IfRsp(i) then p
    else if f.discard then p.(discard := false, st := Req)
    else p.(fbuf := Buf(true, if f.st == SecondWait then NextWord(WordOf(f.reqPc)) else WordOf(f.reqPc), i.rsp))
  }

  /** The registers before an instruction is assembled. */
  function AfterBus(f: Fe, i: FeIn): (r: Fe) {
    Filled(Promoted(Prefetched(Requested(f, f, i), f, i), f, i), f, i)
  }

  function Answered(b: Fe, f: Fe, i: FeIn): (r: Fe) {
    if f.ServeBuf(i) then TakeWord(b, f.pc, if f.FbufHit() then f.fbuf.word else f.slot.word)
    else if f.IfRsp(i) && !f.discard then (if f.st == Wait then TakeWord(b, f.reqPc, i.rsp) else TakeSecond(b, i.rsp))
    else b
  }

  function AfterWord(f: Fe, i: FeIn): (r: Fe) { Answered(AfterBus(f, i), f, i) }

  predicate Produces(f: Fe, i: FeIn) {
    if f.ServeBuf(i) then Emits(f.pc, if f.FbufHit() then f.fbuf.word else f.slot.word)
    else f.IfRsp(i) && !f.discard && (f.st == Wait ==> Emits(f.reqPc, i.rsp))
  }

  /** A complete word gives an instruction at once, unless it only starts a straddling one. */
  predicate Emits(at: Word, w: FWord) { w.err || !IsUpper(at) || IsShort(HalfOf(w.data, true)) }

  function Cleared(g: Fe, f: Fe, i: FeIn): (r: Fe) { if i.idFire && !Produces(f, i) then g.(idValid := false) else g }

  function Redirected(r: Fe, f: Fe, i: FeIn): (x: Fe) {
    var stale := f.Waiting() && !i.rspValid;
    r.(pc := i.target, idValid := false, upper := Half(0), errHold := false, fbuf := Invalid(r.fbuf),
        slot := Invalid(r.slot),
       pfDiscard := r.pfDiscard || (f.pfInflight && !f.PfRsp(i)), discard := stale, st := if stale then r.st else Req)
  }

  lemma ClearCommutes(g: Fe, at: Word, w: FWord)
    ensures TakeWord(g.(idValid := false), at, w)
         == if Emits(at, w) then TakeWord(g, at, w) else TakeWord(g, at, w).(idValid := false)
  {
    hide WordOf, NextWord, IsUpper, HalfOf, Zext, Join, IsShort, Plus;
  }

  /** The prefetch registers do not depend on the order. */
  function WithPrefetch(p: Fe, n: Fe): (r: Fe) {
    p.(pfInflight := n.pfInflight, pfWa := n.pfWa, pfDiscard := n.pfDiscard, slot := n.slot)
  }

  lemma PrefetchAlone(p: Fe, f: Fe, i: FeIn)
    requires WithPrefetch(p, f) == p
    ensures Prefetched(p, f, i) == WithPrefetch(p, NextPrefetch(f, i))
        && NextPrefetch(f, i) == WithPrefetch(f, NextPrefetch(f, i))
  {
    hide Fe.PfTarget, Fe.CanAccept, Fe.TargetResident, Fe.DemandReq;
  }

  lemma ServingInOrder(f: Fe, i: FeIn)
    requires f.st == Req && f.ServeBuf(i)
    ensures Cleared(AfterWord(f, i), f, i) == NextRunning(f, i)
  {
    hide WordOf, NextWord, TakeWord, TakeSecond, Emits, Fe.BufHit, Fe.FbufHit, Prefetched, NextPrefetch;
    PrefetchAlone(Requested(f, f, i), f, i);
    ClearCommutes(AfterBus(f, i), f.pc, if f.FbufHit() then f.fbuf.word else f.slot.word);
  }

  lemma AskingInOrder(f: Fe, i: FeIn)
    requires f.st == Req && !f.ServeBuf(i)
    ensures Cleared(AfterWord(f, i), f, i) == NextRunning(f, i)
  {
    hide WordOf, NextWord, TakeWord, TakeSecond, Emits, Fe.BufHit, Fe.FbufHit, Prefetched, NextPrefetch;
    PrefetchAlone(Requested(f, f, i), f, i);
  }

  lemma WaitingInOrder(f: Fe, i: FeIn)
    requires f.st == Wait
    ensures Cleared(AfterWord(f, i), f, i) == NextRunning(f, i)
  {
    hide WordOf, NextWord, TakeWord, TakeSecond, Emits, Fe.BufHit, Fe.FbufHit, Prefetched, NextPrefetch;
    PrefetchAlone(Requested(f, f, i), f, i);
    ClearCommutes(AfterBus(f, i), f.reqPc, i.rsp);
  }

  lemma SecondInOrder(f: Fe, i: FeIn)
    requires f.st == SecondReq || f.st == SecondWait
    ensures Cleared(AfterWord(f, i), f, i) == NextRunning(f, i)
  {
    hide WordOf, NextWord, HalfOf, Join, Plus, TakeWord, Emits, Fe.BufHit, Fe.FbufHit, Prefetched, NextPrefetch;
    PrefetchAlone(Requested(f, f, i), f, i);
  }

  /** The order of the RTL's assignments gives the clock function. */
  lemma RunningInOrder(f: Fe, i: FeIn)
    ensures Cleared(AfterWord(f, i), f, i) == NextRunning(f, i)
  {
    hide *;
    match f.st {
      case Req => if f.ServeBuf(i) { ServingInOrder(f, i); } else { AskingInOrder(f, i); }
      case Wait => WaitingInOrder(f, i);
      case _ => SecondInOrder(f, i);
    }
  }

  lemma ClockInOrder(f: Fe, i: FeIn)
    ensures Next(f, i) == Cleared(if i.redirect then Redirected(AfterWord(f, i), f, i) else AfterWord(f, i), f, i)
  {
    hide WordOf, NextWord, IsUpper, HalfOf, Zext, Join, IsShort, Plus, TakeWord, Emits, AfterWord, Produces,
      NextRunning, Fe.PfRsp;
    RunningInOrder(f, i);
    if f.Waiting() && !i.rspValid { StaleState(f, i); }
  }

  lemma StaleState(f: Fe, i: FeIn)
    requires f.Waiting() && !i.rspValid
    ensures NextRunning(f, i).st == f.st
  {
    hide Fe.PfIssue, Fe.PfTarget;
  }
}
