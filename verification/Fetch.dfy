/** The instruction-fetch stage: one-word fetch buffer, prefetch slot, halfword assembly,
    straddling instructions, redirects and discarded responses, over one single-outstanding bus. */
module Fetch {
  import opened Words

  /** One instruction word as the front end sees it; `err` is a bus error or a PMP denial. */
  datatype FWord = FWord(data: Word, err: bool)

  /** What a fetch of each word address answers. */
  type IMem = WordAddr -> FWord

  // ------------------------------------------------------------------------------------------
  // Reference: parse instructions one halfword at a time
  // ------------------------------------------------------------------------------------------

  datatype FHalf = FHalf(half: Half, err: bool)

  datatype Item = Item(pc: Word, raw: Word, isC: bool, err: bool)

  /** The two low bits of an instruction's first halfword tell its length. */
  predicate IsShort(h: Half) { h.bits & 3 != 3 }

  function HalfAt(m: IMem, pc: Word): (r: FHalf) {
    var w := m(WordOf(pc));
    FHalf(HalfOf(w.data, IsUpper(pc)), w.err)
  }

  /** The instruction at `pc`: a 16-bit one unless the two low bits are 11; a halfword that cannot
      be fetched gives a faulting NOP, or a faulting instruction if only the second one fails. */
  function ParseAt(m: IMem, pc: Word): (r: Item)
    ensures r.pc == pc
  {
    var lo := HalfAt(m, pc);
    if lo.err then Item(pc, NOP, false, true)
    else if IsShort(lo.half) then Item(pc, Zext(lo.half), true, false)
    else
      var hi := HalfAt(m, Plus(pc, 2));
      Item(pc, Join(hi.half, lo.half), false, hi.err)
  }

  function After(i: Item): (r: Word) { Plus(i.pc, if i.isC then 2 else 4) }

  /** The first n instructions from `pc` on. */
  function ParseStream(m: IMem, pc: Word, n: nat): (r: seq<Item>)
    decreases n
  {
    if n == 0 then [] else [ParseAt(m, pc)] + ParseStream(m, After(ParseAt(m, pc)), n - 1)
  }

  // ------------------------------------------------------------------------------------------
  // Registers and wires
  // ------------------------------------------------------------------------------------------

  datatype IfState = Req | Wait | SecondReq | SecondWait

  datatype Buf = Buf(valid: bool, wa: WordAddr, word: FWord)

  /** The IF registers. `slot` is the prefetch slot, `id` (with `idValid`) the IF/ID register. */
  datatype Fe = Fe(st: IfState, pc: Word, reqPc: Word, upper: Half, errHold: bool, discard: bool,
                   fbuf: Buf, slot: Buf, pfInflight: bool, pfWa: WordAddr, pfDiscard: bool,
                   idValid: bool, id: Item)
  {
    predicate FbufHit() { fbuf.valid && fbuf.wa == WordOf(pc) }

    predicate SlotHit() { slot.valid && slot.wa == WordOf(pc) }

    predicate BufHit() { FbufHit() || SlotHit() }

    predicate CanAccept(i: FeIn) { !i.redirect && (!idValid || i.idFire) }

    predicate ServeBuf(i: FeIn) { CanAccept(i) && st == Req && BufHit() }

    /** The demand fetch wants the bus. */
    predicate DemandReq(i: FeIn) { CanAccept(i) && ((st == Req && !BufHit()) || st == SecondReq) }

    function PfTarget(): (r: WordAddr) { NextWord(WordOf(pc)) }

    predicate TargetResident() { (slot.valid && slot.wa == PfTarget()) || (fbuf.valid && fbuf.wa == PfTarget()) }

    predicate PfIssue(i: FeIn) {
      CanAccept(i) && !pfInflight && !TargetResident() && !DemandReq(i) && (st == Req || st == Wait)
    }

    predicate BusReq(i: FeIn) { DemandReq(i) || PfIssue(i) }

    function BusAddr(i: FeIn): (r: WordAddr) {
      if DemandReq(i) then (if st == SecondReq then NextWord(WordOf(reqPc)) else WordOf(pc)) else PfTarget()
    }

    predicate Waiting() { st == Wait || st == SecondWait }

    predicate RspReady() { Waiting() || pfInflight }

    predicate IfRsp(i: FeIn) { i.rspValid && Waiting() }

    predicate PfRsp(i: FeIn) { i.rspValid && pfInflight && !Waiting() }

    /** The word whose response is checked against the PMP this cycle. */
    function PmpWord(): (r: WordAddr) {
      if st == SecondWait then NextWord(WordOf(reqPc))
      else if st == Wait then WordOf(reqPc)
      else if pfInflight then pfWa
      else WordOf(reqPc)
    }

    /** pc of the next instruction to leave the IF/ID register. */
    function Head(): (r: Word) { if idValid then id.pc else pc }
  }

  /** Inputs of one clock: bus grant and response, redirect from EX, and ID handing on. */
  datatype FeIn = FeIn(ready: bool, rspValid: bool, rsp: FWord, redirect: bool, target: Word, idFire: bool)

  function Invalid(b: Buf): (r: Buf) { b.(valid := false) }

  // ------------------------------------------------------------------------------------------
  // One clock as a function
  // ------------------------------------------------------------------------------------------

  /** What a complete word does at `at`: emit one instruction, or start a straddling one. */
  function TakeWord(f: Fe, at: Word, w: FWord): (r: Fe) {
    var half := HalfOf(w.data, IsUpper(at));
    if w.err then
      f.(errHold := true, idValid := true, id := Item(at, NOP, false, true), pc := Plus(at, 4), st := Req)
    else if IsShort(half) then
      f.(errHold := false, idValid := true, id := Item(at, Zext(half), true, false), pc := Plus(at, 2), st := Req)
    else if !IsUpper(at) then
      f.(errHold := false, idValid := true, id := Item(at, w.data, false, false), pc := Plus(at, 4), st := Req)
    else
      f.(errHold := false, upper := half, reqPc := at, st := SecondReq)
  }

  /** The second word of a straddling instruction. */
  function TakeSecond(f: Fe, w: FWord): (r: Fe) {
    f.(idValid := true,
       id := Item(f.reqPc, Join(HalfOf(w.data, false), f.upper), false, f.errHold || w.err),
       pc := Plus(f.reqPc, 4), upper := Half(0), errHold := false, st := Req)
  }

  /** Prefetch registers after this clock, redirect apart. */
  function NextPrefetch(f: Fe, i: FeIn): (r: Fe) {
    if f.PfRsp(i) then
      if f.pfDiscard then f.(pfInflight := false, pfDiscard := false)
      else f.(pfInflight := false, slot := Buf(true, f.pfWa, i.rsp))
    else if f.PfIssue(i) && i.ready then f.(pfInflight := true, pfWa := f.PfTarget())
    else f
  }

  /** A clock without redirect. */
  function NextRunning(f: Fe, i: FeIn): (r: Fe) {
    var p := NextPrefetch(f, i);
    var g := if i.idFire then p.(idValid := false) else p;
    match f.st
    case Req =>
      if f.ServeBuf(i) then
        if f.FbufHit() then TakeWord(g, f.pc, f.fbuf.word)
        else TakeWord(g.(fbuf := f.slot.(valid := true), slot := Invalid(g.slot)), f.pc, f.slot.word)
      else if f.DemandReq(i) && i.ready then g.(reqPc := f.pc, st := Wait)
      else g
    case Wait =>
      if !i.rspValid then g
      else if f.discard then g.(discard := false, st := Req)
      else TakeWord(g.(fbuf := Buf(true, WordOf(f.reqPc), i.rsp)), f.reqPc, i.rsp)
    case SecondReq =>
      if f.DemandReq(i) && i.ready then g.(st := SecondWait) else g
    case SecondWait =>
      if !i.rspValid then g
      else if f.discard then g.(discard := false, st := Req)
      else TakeSecond(g.(fbuf := Buf(true, NextWord(WordOf(f.reqPc)), i.rsp)), i.rsp)
  }

  /** A redirect drops both buffers and the IF/ID register, and marks what is still in flight. */
  function NextRedirected(f: Fe, i: FeIn): (r: Fe) {
    var r := NextRunning(f, i);
    var stale := f.Waiting() && !i.rspValid;
    r.(pc := i.target, idValid := false, upper := Half(0), errHold := false,
       fbuf := Invalid(r.fbuf), slot := Invalid(r.slot),
       pfDiscard := r.pfDiscard || (f.pfInflight && !f.PfRsp(i)),
       discard := stale, st := if stale then f.st else Req)
  }

  function Next(f: Fe, i: FeIn): (r: Fe) {
    if i.redirect then NextRedirected(f, i) else NextRunning(f, i)
  }

  function Reset(vector: Word): (r: Fe) {
    Fe(Req, vector, vector, Half(0), false, false, Buf(false, WordAddr(0), FWord(ZERO, false)),
       Buf(false, WordAddr(0), FWord(ZERO, false)), false, WordAddr(0), false, false, Item(ZERO, NOP, false, false))
  }
}
