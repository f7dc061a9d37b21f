/** Runs from reset that reach, with their first instruction, states the refinement excludes. */
module ResetRuns {
  import opened Words
  import opened Instr
  import opened Decoder
  import F = Fetch
  import FetchProof
  import Pmp
  import Csr
  import opened Isa
  import opened Pipeline
  import opened System
  import opened RefineAccess
  import opened RefineRun
  import opened RefineTheorem
  import opened PipelineFacts
  import opened Witnesses

  const NOTHING := DResp(ZERO, false)

  /** The fetch bus accepts; it answers; nothing happens on the buses. */
  const GRANT := Tick(true, false, false, false, NOTHING, NO_LINES)
  const ANSWER := Tick(false, true, false, false, NOTHING, NO_LINES)
  const REST := Tick(false, false, false, false, NOTHING, NO_LINES)

  /** After reset at address zero, with w there, and nothing configured. */
  ghost predicate Boots(e: Env, s: Sys, w: Word) {
    && s.core.csr == CsrAt(ZERO, OPEN) && s.core.csr.Valid() && AtReset(s, ZERO)
    && e.imem(WordOf(ZERO)) == F.FWord(w, false) && !F.IsShort(HalfOf(w, false))
    && e.trig0 == NO_TRIGGER && e.trig1 == NO_TRIGGER
  }

  /** Nothing is in EX or WB, on the data bus or reserved, and the CSRs are as at reset. */
  ghost predicate Empty(s: Sys, k: Csr.State, regs: Regs, ram: Ram) {
    && s.core.csr == k && s.core.csr.Valid() && !s.core.ex.valid && !s.core.wb.valid
    && s.core.regs == regs && s.ram == ram && s.dbus.None? && !s.core.resvValid
  }

  lemma EmptyStays(e: Env, s: Sys, t: Tick)
    requires Empty(s, s.core.csr, s.core.regs, s.ram)
    ensures var i, n := Inputs(e, s, t), NextSys(e, s, t);
      && !Redirect(e, s.core, i) && IdFire(e, s.core, i) == s.core.fe.idValid
      && n.core.csr == s.core.csr && !n.core.wb.valid && n.core.regs == s.core.regs && n.ram == s.ram && n.dbus.None?
      && !n.core.resvValid
      && n.core.ex == (if s.core.fe.idValid then Loaded(e, s.core, t.ext) else s.core.ex)
  {
    hide Pmp.Allow, F.Next, FetchProof.NextBus, ByteAddress, OPEN, MemAccess, Loaded, Csr.NextCounters, Exception,
      IsJal, IsJalr, Taken, IsEcall, IsEbreak, IsMret, TakesIrq, Request, NextRam, ExTarget, FetchIn, ForwardValid;
  }

  lemma FirstGrant(e: Env, s: Sys, w: Word)
    requires Boots(e, s, w)
    ensures var n := NextSys(e, s, GRANT);
      && Empty(n, s.core.csr, s.core.regs, s.ram) && n.ibus == Some(WordOf(ZERO))
      && n.core.fe == F.Reset(ZERO).(st := F.IfState.Wait, reqPc := ZERO)
  {
    hide Pmp.Allow, NextEx, NextWb, Csr.NextCounters, ExTarget, Redirect, IdFire, Loaded, WordOf, NextWord, OPEN,
      NextDbus, NextResvValid, LrAnswered, ReqFire, Next, Request, HalfOf, F.IsShort, CsrAt;
    EmptyStays(e, s, GRANT);
    ClockFields(e, s, GRANT);
    Fetches(e, s, GRANT);
  }

  lemma Fetches(e: Env, s: Sys, t: Tick)
    requires s.core.csr.Valid()
    ensures var i := Inputs(e, s, t); var w := FetchIn(e, s.core, i);
      && w.redirect == Redirect(e, s.core, i) && w.idFire == IdFire(e, s.core, i)
      && w.ready == i.iReady && w.rspValid == i.iRsp.Some?
      && var allowed := Pmp.Allow(s.core.csr.pmp, ByteAddress(s.core.fe.PmpWord()), s.core.csr.priv, Pmp.FETCH);
         i.iRsp.Some? && allowed ==> w.rsp == i.iRsp.value
  {
    hide Pmp.Allow, ByteAddress, Redirect, IdFire, ExTarget, F.Fe.PmpWord, Inputs;
  }

  /** Fetch has delivered the word at zero and goes on at 4. */
  predicate Fetched(f: F.Fe) {
    && f.st == F.IfState.Req && f.pc == Word(4) && f.fbuf.wa == WordOf(ZERO)
    && !f.slot.valid && !f.pfInflight && !f.discard
  }

  lemma FetchedRests(f: F.Fe, i: F.FeIn)
    requires Fetched(f) && !i.redirect && !i.ready && !i.rspValid
    ensures F.Next(f, i) == f.(idValid := f.idValid && !i.idFire)
  {
    hide NextWord;
    assert WordOf(Word(4)) != WordOf(ZERO);
  }

  lemma FirstAnswer(e: Env, s: Sys, k: Csr.State, regs: Regs, ram: Ram, w: Word)
    requires k == CsrAt(ZERO, OPEN) && Empty(s, k, regs, ram)
    requires e.imem(WordOf(ZERO)) == F.FWord(w, false) && !F.IsShort(HalfOf(w, false))
    requires s.ibus == Some(WordOf(ZERO)) && s.core.fe == F.Reset(ZERO).(st := F.IfState.Wait, reqPc := ZERO)
    ensures var n := NextSys(e, s, ANSWER);
      && Empty(n, k, regs, ram) && n.ibus.None?
      && n.core.fe.idValid && n.core.fe.id == ItemAt(ZERO, w) && Fetched(n.core.fe)
  {
    hide Pmp.Allow, NextEx, NextWb, Csr.NextCounters, ExTarget, Redirect, IdFire, Loaded, WordOf, NextWord, OPEN,
      NextDbus, NextResvValid, LrAnswered, ReqFire, Next, Request, HalfOf, F.IsShort, ByteAddress, FetchIn;
    EmptyStays(e, s, ANSWER);
    ClockFields(e, s, ANSWER);
    Fetches(e, s, ANSWER);
    OpenAllows(ByteAddress(s.core.fe.PmpWord()), Pmp.FETCH);
    ZeroIsLow();
  }

  lemma ZeroIsLow()
    ensures !IsUpper(ZERO) && Plus(ZERO, 4) == Word(4)
  {}

  /** EX in its first cycle with the first instruction of a program. */
  ghost predicate Started(s: Sys, k: Csr.State, regs: Regs, ram: Ram, w: Word) {
    var x := s.core.ex;
    && s.core.csr == k && s.core.csr.Valid() && !s.core.wb.valid && s.ram == ram && s.dbus.None?
    && !s.core.resvValid && s.ibus.None? && !s.core.fe.idValid && Fetched(s.core.fe)
    && x == Ex(true, ExState.Exec, ItemAt(ZERO, w), w, false, Get(regs, Rs1(w)), Get(regs, Rs2(w)), Pmp.MACHINE, ZERO,
               ZERO, ZERO, false, false)
  }

  lemma FirstEnters(e: Env, s: Sys, k: Csr.State, regs: Regs, ram: Ram, w: Word)
    requires k.priv == Pmp.MACHINE && Empty(s, k, regs, ram) && s.ibus.None? && s.core.fe.idValid
    requires s.core.fe.id == ItemAt(ZERO, w) && Fetched(s.core.fe)
    ensures Started(NextSys(e, s, REST), k, regs, ram, w)
  {
    hide Pmp.Allow, NextEx, NextWb, Csr.NextCounters, ExTarget, Redirect, IdFire, OPEN, NextDbus, NextResvValid,
      LrAnswered, ReqFire, Next, Request, FetchIn, NextSys, WbResult, HasResult, Rs1, Rs2, Get;
    EmptyStays(e, s, REST);
    ClockFields(e, s, REST);
    Fetches(e, s, REST);
    FetchedRests(s.core.fe, FetchIn(e, s.core, Inputs(e, s, REST)));
    NothingForwarded(e, s.core, NO_LINES, Rs1(w));
    NothingForwarded(e, s.core, NO_LINES, Rs2(w));
  }

  lemma NothingForwarded(e: Env, c: Core, l: Csr.Ext, r: Reg)
    requires c.csr.Valid() && !c.ex.valid && !c.wb.valid
    ensures Operand(e, c, l, r) == Get(c.regs, r)
  {
    hide HasResult, WbResult, TriggerHit, BadTarget, DecLegal, Get;
  }

  /** Three clocks after reset the first instruction is in EX. */
  lemma FirstInEx(e: Env, s: Sys, w: Word)
    requires Boots(e, s, w)
    ensures Started(SysRun(e, s, [GRANT, ANSWER, REST]), s.core.csr, s.core.regs, s.ram, w)
  {
    hide Boots, Empty, Started, NextSys;
    BootsIsValid(e, s, w);
    var s1 := NextSys(e, s, GRANT);
    FirstGrant(e, s, w);
    FirstAnswer(e, s1, s.core.csr, s.core.regs, s.ram, w);
    var s2 := NextSys(e, s1, ANSWER);
    FirstEnters(e, s2, s.core.csr, s.core.regs, s.ram, w);
    var ts := [GRANT, ANSWER, REST];
    assert ts[1..] == [ANSWER, REST] && ts[1..][1..] == [REST] && [REST][1..] == [];
    assert SysRun(e, s, ts) == SysRun(e, s1, ts[1..]) == SysRun(e, s2, ts[1..][1..]);
    assert SysRun(e, s2, [REST]) == SysRun(e, NextSys(e, s2, REST), [REST][1..]);
  }

  lemma BootsIsValid(e: Env, s: Sys, w: Word)
    requires Boots(e, s, w)
    ensures s.core.csr.Valid() && e.imem(WordOf(ZERO)) == F.FWord(w, false) && !F.IsShort(HalfOf(w, false))
    ensures s.core.csr == CsrAt(ZERO, OPEN) && e.trig0 == NO_TRIGGER && e.trig1 == NO_TRIGGER
  {}

  // ------------------------------------------------------------------------------------------
  // An illegal store
  // ------------------------------------------------------------------------------------------

  lemma LongWords()
    ensures !F.IsShort(HalfOf(BAD_STORE, false)) && Rs1(BAD_STORE) == X0 && Rs2(BAD_STORE) == X0
    ensures !F.IsShort(HalfOf(AMO_ADD, false)) && Rs1(AMO_ADD) == X0 && Rs2(AMO_ADD) == X0
  {}

  /** A program that begins with the illegal store writes on the data bus three clocks after reset. */
  lemma IllegalStoreIsReached(e: Env, s: Sys)
    requires Boots(e, s, BAD_STORE)
    ensures var r := SysRun(e, s, [GRANT, ANSWER, REST]).core;
      r.csr.Valid() && Decode(r.ex.instr) == Illegal && Requesting(e, r) && Request(e, r).we
  {
    hide SysRun, Boots, Requesting, Request, Decode, Fetched, Rs1, Rs2;
    LongWords();
    BootsIsValid(e, s, BAD_STORE);
    FirstInEx(e, s, BAD_STORE);
    IllegalStoreRequests(e, SysRun(e, s, [GRANT, ANSWER, REST]).core);
  }

  // ------------------------------------------------------------------------------------------
  // An AMO whose read fails
  // ------------------------------------------------------------------------------------------

  /** AMOADD.W x1, x0, (x0) */
  const AMO_ADD := Word(0x0000_20AF)

  const DATA_GRANT := Tick(false, false, true, false, NOTHING, NO_LINES)
  const DATA_ERROR := Tick(false, false, false, true, DResp(ZERO, true), NO_LINES)

  lemma AmoFields()
    ensures IsAmo(AMO_ADD) && !IsLoad(AMO_ADD) && !IsStore(AMO_ADD) && !IsLr(AMO_ADD) && !IsSc(AMO_ADD)
    ensures Funct3(AMO_ADD) == 2 && IsAtomic(AMO_ADD) && !IsJal(AMO_ADD) && !IsJalr(AMO_ADD) && !IsMret(AMO_ADD)
    ensures !IsCsrOp(AMO_ADD) && !IsEcall(AMO_ADD) && !IsEbreak(AMO_ADD)
    ensures !InRam(ZERO) && !Pipeline.Misaligned(ZERO, 2)
  {}

  lemma AmoAddress(x: Ex)
    requires x.instr == AMO_ADD && x.rs1v == ZERO
    ensures AluResult(x) == ZERO && ExResult(x) == ZERO && !Taken(x)
  {
    hide DecImmI, DecImmS, DecImmB, DecImmJ, DecImmU;
  }

  /** The AMO's read is outstanding, outside RAM. */
  ghost predicate Reading(s: Sys) {
    && s.core.csr.Valid() && !s.core.wb.valid && s.ibus.None? && !s.core.fe.idValid && Fetched(s.core.fe)
    && s.core.ex.valid && s.core.ex.st == MemWait && s.core.ex.instr == AMO_ADD
    && s.dbus.Some? && !s.dbus.value.inRam
  }

  /** In a clock in which nothing leaves EX and the fetch bus rests, fetch and the CSRs rest too. */
  lemma RestOfCore(e: Env, s: Sys, t: Tick)
    requires s.core.csr.Valid() && !s.core.wb.valid && s.ibus.None? && !s.core.fe.idValid && Fetched(s.core.fe)
    requires s.core.ex.valid && !ToWb(e, s.core, Inputs(e, s, t)) && !t.iReady
    ensures var n := NextSys(e, s, t);
      && n.core.csr.Valid() && !n.core.wb.valid && n.ibus.None? && !n.core.fe.idValid && Fetched(n.core.fe)
      && n.core.ex == Advanced(e, s.core, Inputs(e, s, t)) && n.dbus == NextDbus(e, s, Inputs(e, s, t))
  {
    hide F.Next, FetchIn, ToWb, NextEx, Advanced, Redirect, IdFire, NextDbus, NextResvValid, LrAnswered, Next,
      ReqFire, Completed, Fetched, F.Fe.BusReq;
    var i := Inputs(e, s, t);
    StaysInEx(e, s.core, i);
    ClockFields(e, s, t);
    Fetches(e, s, t);
    FetchedRests(s.core.fe, FetchIn(e, s.core, i));
    StillFetched(s.core.fe);
  }

  lemma StillFetched(f: F.Fe)
    requires Fetched(f)
    ensures Fetched(f.(idValid := false))
  {}

  lemma AmoReads(e: Env, s: Sys, k: Csr.State, regs: Regs, ram: Ram)
    requires k == CsrAt(ZERO, OPEN) && Started(s, k, regs, ram, AMO_ADD)
    requires e.trig0 == NO_TRIGGER && e.trig1 == NO_TRIGGER
    ensures Reading(NextSys(e, s, DATA_GRANT))
  {
    hide Rs1, Rs2, OPEN, Pmp.Allow, AluResult, ExResult, IsAmo, IsLoad, IsStore, IsLr, IsSc, IsAtomic, Funct3, InRam,
      Pipeline.Misaligned, TriggerHit, NextSys, Fetched, RamIndex;
    LongWords();
    AmoFields();
    AmoAddress(s.core.ex);
    SilentTriggers(e, s.core.ex);
    OpenAllows(ZERO, Pmp.Access(true, true, false));
    RestOfCore(e, s, DATA_GRANT);
  }

  lemma AmoVanishes(e: Env, s: Sys)
    requires Reading(s)
    ensures var n := NextSys(e, s, DATA_ERROR).core; !n.ex.valid && !n.wb.valid && n.fe.Head() == Word(4)
  {
    hide NextSys, MemAccess, AluResult, ExResult, IsAmo, IsLoad, IsStore, Funct3, Request, NextRam, PendOf;
    AmoFields();
    RestOfCore(e, s, DATA_ERROR);
  }

  /** A program that begins with an AMO outside RAM whose read is answered with an error goes on behind it,
      and WB has seen nothing: neither a completion nor a trap. */
  lemma AmoIsLost(e: Env, s: Sys)
    requires Boots(e, s, AMO_ADD)
    ensures var ts := [GRANT, ANSWER, REST, DATA_GRANT, DATA_ERROR]; var r := SysRun(e, s, ts).core;
      !r.ex.valid && !r.wb.valid && r.fe.Head() == Word(4) && WbLog(e, s, ts) == []
  {
    hide Boots, Empty, Started, Reading, NextSys, F.Fe.Head;
    LongWords();
    BootsIsValid(e, s, AMO_ADD);
    var s1 := NextSys(e, s, GRANT);
    FirstGrant(e, s, AMO_ADD);
    FirstAnswer(e, s1, s.core.csr, s.core.regs, s.ram, AMO_ADD);
    var s2 := NextSys(e, s1, ANSWER);
    FirstEnters(e, s2, s.core.csr, s.core.regs, s.ram, AMO_ADD);
    var s3 := NextSys(e, s2, REST);
    AmoReads(e, s3, s.core.csr, s.core.regs, s.ram);
    var s4 := NextSys(e, s3, DATA_GRANT);
    AmoVanishes(e, s4);
    NoWb(e, s, s1, s2, s3, s4);
    FiveClocks(e, s, GRANT, ANSWER, REST, DATA_GRANT, DATA_ERROR);
  }

  lemma NoWb(e: Env, s0: Sys, s1: Sys, s2: Sys, s3: Sys, s4: Sys)
    requires Boots(e, s0, AMO_ADD) && Empty(s1, s0.core.csr, s0.core.regs, s0.ram)
    requires Empty(s2, s0.core.csr, s0.core.regs, s0.ram) && Started(s3, s0.core.csr, s0.core.regs, s0.ram, AMO_ADD)
    requires Reading(s4)
    ensures s1.core.csr.Valid() && s2.core.csr.Valid() && s3.core.csr.Valid() && s4.core.csr.Valid()
    ensures forall l :: WbEntry(s0.core, l) == [] && WbEntry(s1.core, l) == [] && WbEntry(s2.core, l) == []
    ensures forall l :: WbEntry(s3.core, l) == [] && WbEntry(s4.core, l) == []
  {
    hide WbWrite, WbCommand, OPEN, Fetched;
  }

  lemma FiveClocks(e: Env, s: Sys, t0: Tick, t1: Tick, t2: Tick, t3: Tick, t4: Tick)
    requires s.core.csr.Valid()
    ensures var ts := [t0, t1, t2, t3, t4];
      var s1 := NextSys(e, s, t0);
      var s2 := NextSys(e, s1, t1);
      var s3 := NextSys(e, s2, t2);
      var s4 := NextSys(e, s3, t3);
      && SysRun(e, s, ts) == NextSys(e, s4, t4)
      && WbLog(e, s, ts) == WbEntry(s.core, t0.ext) + (WbEntry(s1.core, t1.ext) + (WbEntry(s2.core, t2.ext)
                              + (WbEntry(s3.core, t3.ext) + (WbEntry(s4.core, t4.ext) + []))))
  {
    hide NextSys, WbEntry;
    var ts := [t0, t1, t2, t3, t4];
    assert ts[1..] == [t1, t2, t3, t4] && [t1, t2, t3, t4][1..] == [t2, t3, t4] && [t2, t3, t4][1..] == [t3, t4];
    assert [t3, t4][1..] == [t4] && [t4][1..] == [];
    var s1 := NextSys(e, s, t0);
    var s2 := NextSys(e, s1, t1);
    var s3 := NextSys(e, s2, t2);
    var s4 := NextSys(e, s3, t3);
    assert WbLog(e, s4, [t4]) == WbEntry(s4.core, t4.ext) + WbLog(e, NextSys(e, s4, t4), []);
    assert SysRun(e, s3, [t3, t4]) == SysRun(e, s4, [t4]);
    assert WbLog(e, s3, [t3, t4]) == WbEntry(s3.core, t3.ext) + WbLog(e, s4, [t4]);
    assert SysRun(e, s2, [t2, t3, t4]) == SysRun(e, s3, [t3, t4]);
    assert WbLog(e, s2, [t2, t3, t4]) == WbEntry(s2.core, t2.ext) + WbLog(e, s3, [t3, t4]);
    assert SysRun(e, s1, [t1, t2, t3, t4]) == SysRun(e, s2, [t2, t3, t4]);
    assert WbLog(e, s1, [t1, t2, t3, t4]) == WbEntry(s1.core, t1.ext) + WbLog(e, s2, [t2, t3, t4]);
    assert SysRun(e, s, ts) == SysRun(e, s1, ts[1..]);
    assert WbLog(e, s, ts) == WbEntry(s.core, t0.ext) + WbLog(e, s1, ts[1..]);
  }
}
