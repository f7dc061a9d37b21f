/** The fetch stage hands ID exactly what parsing halfwords from memory gives. */
module FetchProof {
  import opened Words
  import opened Fetch

  /** The outstanding response will be used (it is not marked to be dropped). */
  predicate Live(f: Fe) { if f.Waiting() then !f.discard else f.pfInflight && !f.pfDiscard }

  /** The single-outstanding bus: address of the accepted, not yet answered request. */
  type Bus = Option<WordAddr>

  predicate Accepts(f: Fe, i: FeIn) { f.BusReq(i) && i.ready }

  function NextBus(f: Fe, b: Bus, i: FeIn): (r: Bus) {
    if Accepts(f, i) then Some(f.BusAddr(i)) else if i.rspValid && f.RspReady() then None else b
  }

  /** The slave contract: it answers only an outstanding request, at the earliest one clock after
      accepting it, and accepts only when idle or while delivering the outstanding answer.
      A response that will be used carries the word at its own address. */
  predicate Obeys(m: IMem, f: Fe, b: Bus, i: FeIn) {
    && (i.rspValid ==> b.Some? && (Live(f) ==> i.rsp == m(b.value)))
    && (Accepts(f, i) ==> b.None? || (i.rspValid && f.RspReady()))
  }

  /** The handshake part of it. */
  predicate Handshakes(f: Fe, b: Bus, i: FeIn) {
    && (i.rspValid ==> b.Some?)
    && (Accepts(f, i) ==> b.None? || (i.rspValid && f.RspReady()))
  }

  /** What holds between the stage and its bus whatever memory answers. */
  predicate BusInv(f: Fe, b: Bus) {
    BusOk(f, b) && (f.pfDiscard ==> f.pfInflight) && (f.discard ==> f.Waiting())
  }

  predicate BufOk(m: IMem, b: Buf) { b.valid ==> b.word == m(b.wa) }

  predicate BusOk(f: Fe, b: Bus) {
    match b
    case None => !f.Waiting() && !f.pfInflight
    case Some(a) =>
      && f.Waiting() != f.pfInflight
      && a == (if f.Waiting() then f.PmpWord() else f.pfWa)
  }

  predicate StraddleOk(m: IMem, f: Fe) {
    var w := m(WordOf(f.pc));
    && f.reqPc == f.pc && IsUpper(f.pc) && !w.err && !f.errHold
    && f.upper == HalfOf(w.data, true) && !IsShort(f.upper)
  }

  /** Invariant of the fetch stage over instruction memory m. */
  predicate Inv(m: IMem, f: Fe, b: Bus) {
    && BufOk(m, f.fbuf) && BufOk(m, f.slot)
    && BusOk(f, b)
    && (f.pfDiscard ==> f.pfInflight)
    && (f.discard ==> f.Waiting() && !f.idValid && !f.fbuf.valid && !f.slot.valid)
    && (f.idValid ==> f.st == Req && f.id == ParseAt(m, f.id.pc) && f.pc == After(f.id))
    && (f.st == Wait && !f.discard ==> f.reqPc == f.pc)
    && (f.st == SecondReq || (f.st == SecondWait && !f.discard) ==> StraddleOk(m, f))
  }

  /** Nothing that was fetched so far can still be used. */
  predicate Quiet(f: Fe) { !f.idValid && !f.fbuf.valid && !f.slot.valid && !Live(f) && f.st != SecondReq }

  /** A complete word gives either the parsed instruction or the first half of a straddling one. */
  lemma TakeWordParses(m: IMem, f: Fe)
    ensures var w := m(WordOf(f.pc)); var t := TakeWord(f, f.pc, w);
      if IsUpper(f.pc) && !w.err && !IsShort(HalfOf(w.data, true))
      then t == f.(errHold := false, upper := HalfOf(w.data, true), reqPc := f.pc, st := SecondReq)
      else t.id == ParseAt(m, f.pc) && t.idValid && t.pc == After(t.id) && t.st == Req
           && t == f.(errHold := t.errHold, idValid := true, id := t.id, pc := t.pc, st := Req)
  {
    hide WordOf, IsUpper, HalfOf, Zext, Join, IsShort, Plus, NextWord;
    var w := m(WordOf(f.pc));
    HalfwordAddresses(f.pc);
    JoinHalves(w.data);
  }

  lemma TakeSecondParses(m: IMem, f: Fe)
    requires StraddleOk(m, f)
    ensures var t := TakeSecond(f, m(NextWord(WordOf(f.pc))));
      t.id == ParseAt(m, f.pc) && t.pc == After(t.id)
  {
    hide WordOf, IsUpper, HalfOf, Zext, Join, IsShort, Plus, NextWord;
    HalfwordAddresses(f.pc);
    JoinHalves(m(NextWord(WordOf(f.pc))).data);
  }

  /** Assembling an instruction leaves the buffers and the prefetch registers alone. */
  lemma TakeFrame(f: Fe, at: Word, w: FWord)
    ensures var t := TakeWord(f, at, w);
      t == f.(st := t.st, pc := t.pc, reqPc := t.reqPc, upper := t.upper, errHold := t.errHold,
              idValid := t.idValid, id := t.id)
  {
    hide WordOf, IsUpper, HalfOf, Zext, Join, IsShort, Plus, NextWord;
  }

  /** Assembling never leaves the stage waiting for the bus. */
  lemma TakeIsNoWait(f: Fe, at: Word, w: FWord)
    ensures !TakeWord(f, at, w).Waiting() && !TakeSecond(f, w).Waiting()
    ensures var t := TakeSecond(f, w);
      t == f.(st := t.st, pc := t.pc, upper := t.upper, errHold := t.errHold, idValid := t.idValid, id := t.id)
  {
    hide WordOf, IsUpper, HalfOf, Zext, Join, IsShort, Plus, NextWord;
  }

  function Freed(f: Fe, i: FeIn): (r: Fe) {
    var p := NextPrefetch(f, i);
    if i.idFire then p.(idValid := false) else p
  }

  lemma BusStepReq(f: Fe, b: Bus, i: FeIn)
    requires BusInv(f, b) && Handshakes(f, b, i) && f.st == Req
    ensures BusInv(NextRunning(f, i), NextBus(f, b, i))
  {
    hide WordOf, NextWord, TakeWord, TakeSecond;
    var g := Freed(f, i);
    TakeFrame(g, f.pc, f.fbuf.word);
    TakeIsNoWait(g, f.pc, f.fbuf.word);
    var h := g.(fbuf := f.slot.(valid := true), slot := Invalid(g.slot));
    TakeFrame(h, f.pc, f.slot.word);
    TakeIsNoWait(h, f.pc, f.slot.word);
  }

  lemma BusStepWait(f: Fe, b: Bus, i: FeIn)
    requires BusInv(f, b) && Handshakes(f, b, i) && f.st == Wait
    ensures BusInv(NextRunning(f, i), NextBus(f, b, i))
  {
    hide WordOf, NextWord, TakeWord, TakeSecond;
    var g := Freed(f, i).(fbuf := Buf(true, WordOf(f.reqPc), i.rsp));
    TakeFrame(g, f.reqPc, i.rsp);
    TakeIsNoWait(g, f.reqPc, i.rsp);
  }

  lemma BusStepSecond(f: Fe, b: Bus, i: FeIn)
    requires BusInv(f, b) && Handshakes(f, b, i) && (f.st == SecondReq || f.st == SecondWait)
    ensures BusInv(NextRunning(f, i), NextBus(f, b, i))
  {
    hide WordOf, NextWord, TakeWord, TakeSecond;
    var g := Freed(f, i).(fbuf := Buf(true, NextWord(WordOf(f.reqPc)), i.rsp));
    TakeIsNoWait(g, f.reqPc, i.rsp);
  }

  lemma BusStepRedirect(f: Fe, b: Bus, i: FeIn)
    requires BusInv(f, b) && Handshakes(f, b, i) && i.redirect
    requires BusInv(NextRunning(f, i), NextBus(f, b, i))
    ensures BusInv(NextRedirected(f, i), NextBus(f, b, i))
  {
    hide WordOf, NextWord, TakeWord, TakeSecond;
    if f.st == Wait {
      var g := Freed(f, i).(fbuf := Buf(true, WordOf(f.reqPc), i.rsp));
      TakeFrame(g, f.reqPc, i.rsp);
    } else if f.st == SecondWait {
      TakeIsNoWait(Freed(f, i).(fbuf := Buf(true, NextWord(WordOf(f.reqPc)), i.rsp)), f.reqPc, i.rsp);
    }
  }

  /** Stage and bus stay in step in every clock, whatever memory answers. */
  lemma BusStep(f: Fe, b: Bus, i: FeIn)
    requires BusInv(f, b) && Handshakes(f, b, i)
    ensures BusInv(Next(f, i), NextBus(f, b, i))
  {
    hide BusInv, Handshakes, NextBus, NextRunning, NextRedirected;
    match f.st {
      case Req => BusStepReq(f, b, i);
      case Wait => BusStepWait(f, b, i);
      case _ => BusStepSecond(f, b, i);
    }
    if i.redirect { BusStepRedirect(f, b, i); }
  }

  lemma ReqStep(m: IMem, f: Fe, b: Bus, i: FeIn)
    requires f.st == Req
    requires Inv(m, f, b) && Obeys(m, f, b, i) && !i.redirect && (i.idFire ==> f.idValid)
    ensures Inv(m, Next(f, i), NextBus(f, b, i))
    ensures Next(f, i).Head() == if i.idFire then After(f.id) else f.Head()
  {
    hide WordOf, IsUpper, HalfOf, Zext, Join, IsShort, Plus, NextWord, ParseAt, TakeWord, TakeSecond, After;
    var g := Freed(f, i);
    if f.ServeBuf(i) {
      if f.FbufHit() { TakeWordParses(m, g); }
      else { TakeWordParses(m, g.(fbuf := f.slot.(valid := true), slot := Invalid(g.slot))); }
    }
  }

  lemma WaitStep(m: IMem, f: Fe, b: Bus, i: FeIn)
    requires f.st == Wait
    requires Inv(m, f, b) && Obeys(m, f, b, i) && !i.redirect && (i.idFire ==> f.idValid)
    ensures Inv(m, Next(f, i), NextBus(f, b, i))
    ensures Next(f, i).Head() == if i.idFire then After(f.id) else f.Head()
  {
    hide WordOf, IsUpper, HalfOf, Zext, Join, IsShort, Plus, NextWord, ParseAt, TakeWord, TakeSecond, After;
    if i.rspValid && !f.discard {
      TakeWordParses(m, Freed(f, i).(fbuf := Buf(true, WordOf(f.reqPc), i.rsp)));
    }
  }

  lemma SecondStep(m: IMem, f: Fe, b: Bus, i: FeIn)
    requires f.st == SecondReq || f.st == SecondWait
    requires Inv(m, f, b) && Obeys(m, f, b, i) && !i.redirect && (i.idFire ==> f.idValid)
    ensures Inv(m, Next(f, i), NextBus(f, b, i))
    ensures Next(f, i).Head() == if i.idFire then After(f.id) else f.Head()
  {
    hide WordOf, IsUpper, HalfOf, Zext, Join, IsShort, Plus, NextWord, ParseAt, After;
    if f.st == SecondWait && i.rspValid && !f.discard {
      TakeSecondParses(m, Freed(f, i).(fbuf := Buf(true, NextWord(WordOf(f.reqPc)), i.rsp)));
    }
  }

  /** One clock without redirect keeps the invariant; ID always gets the parse of the next pc. */
  lemma RunningStep(m: IMem, f: Fe, b: Bus, i: FeIn)
    requires Inv(m, f, b) && Obeys(m, f, b, i) && !i.redirect
    requires i.idFire ==> f.idValid
    ensures Inv(m, Next(f, i), NextBus(f, b, i))
    ensures Next(f, i).Head() == if i.idFire then After(f.id) else f.Head()
  {
    hide *;
    match f.st {
      case Req => ReqStep(m, f, b, i);
      case Wait => WaitStep(m, f, b, i);
      case _ => SecondStep(m, f, b, i);
    }
  }

  /** A redirect leaves nothing usable behind and restarts at its target, for any memory view. */
  lemma RedirectStep(m: IMem, f: Fe, b: Bus, i: FeIn, m': IMem)
    requires Inv(m, f, b) && Obeys(m, f, b, i) && i.redirect
    ensures Quiet(Next(f, i)) && Next(f, i).Head() == i.target
    ensures Inv(m', Next(f, i), NextBus(f, b, i))
  {
    hide WordOf, IsUpper, HalfOf, Zext, Join, IsShort, Plus, NextWord, ParseAt, TakeWord, After;
    if f.st == Wait && i.rspValid {
      TakeFrame(Freed(f, i).(fbuf := Buf(true, WordOf(f.reqPc), i.rsp)), f.reqPc, i.rsp);
    }
  }
}
