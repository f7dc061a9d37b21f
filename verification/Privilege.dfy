/** Traps and returns over every run, with no restriction on programs or inputs: they find the pipeline
    empty, so what EX runs and what fetch serves was checked at the privilege it runs at. */
module Privilege {
  import opened Words
  import opened Instr
  import opened Decoder
  import F = Fetch
  import opened FetchProof
  import Pmp
  import Csr
  import opened Isa
  import opened Pipeline
  import opened System
  import opened Refine
  import opened RefineRun
  import opened RefineTheorem
  import opened PipelineFacts

  // ------------------------------------------------------------------------------------------
  // One clock
  // ------------------------------------------------------------------------------------------

  /** After a redirect nothing that was fetched can be used. */
  lemma RedirectQuiets(f: F.Fe, i: F.FeIn)
    requires i.redirect
    ensures Quiet(F.Next(f, i))
  {
    hide WordOf, NextWord, F.TakeWord, F.TakeSecond;
    if f.st == F.IfState.Wait {
      TakeFrame(Freed(f, i).(fbuf := F.Buf(true, WordOf(f.reqPc), i.rsp)), f.reqPc, i.rsp);
    } else if f.st == F.IfState.SecondWait {
      TakeIsNoWait(Freed(f, i).(fbuf := F.Buf(true, NextWord(WordOf(f.reqPc)), i.rsp)), f.reqPc, i.rsp);
    }
  }

  /** Whatever the state, a trap or return that enters WB leaves ID and EX empty, and fetch with nothing
      it can use. */
  lemma TrapEmptiesPipe(e: Env, c: Core, i: In)
    requires c.csr.Valid() && WbTraps(Next(e, c, i).wb)
    ensures !Next(e, c, i).ex.valid && Quiet(Next(e, c, i).fe)
  {
    hide ToWb, Completed, Redirect, ExTarget, IdFire, WbCommand, Advanced, F.Next, Csr.Execute, Csr.NextCounters,
      NextResvValid, LrAnswered, AmoAnswered, Set, WbWrite, Quiet, Pmp.Allow, ByteAddress, RanksAgree, Exception,
      IrqVector, WbVector, NextEx;
    BubbleIsIdle(c.wb);
    SteeringAgrees(e, c, i);
    RedirectBlocksId(e, c, i);
    ExLeft(e, c, i);
    RedirectQuiets(c.fe, FetchIn(e, c, i));
  }

  lemma BubbleIsIdle(b: Wb)
    ensures WbCommand(b.(valid := false)).Idle?
  {}

  /** Only a trap or a return changes the privilege. */
  lemma OnlyTrapsChangePriv(s: Csr.State, k: Csr.Counters, l: Csr.Ext, m: Csr.Command)
    requires s.Valid() && !m.Take? && !m.Mret?
    ensures Csr.Execute(s, k, l, m).priv == s.priv
  {
    hide Csr.Read, Csr.NewValue, Csr.MstatusWarl, Csr.WriteCfg, Csr.WriteAddr, Csr.CfgSlot, Csr.AddrIndex,
      Csr.NoTimeBit, Csr.EvenWord;
  }

  // ------------------------------------------------------------------------------------------
  // Every reachable state
  // ------------------------------------------------------------------------------------------

  ghost predicate PrivInv(s: Sys) {
    && s.core.csr.Valid() && BusInv(s.core.fe, s.ibus)
    && (WbTraps(s.core.wb) ==> !s.core.ex.valid && Quiet(s.core.fe))
    && (s.core.ex.valid ==> s.core.ex.priv == s.core.csr.priv)
  }

  lemma InputsHandshake(e: Env, s: Sys, t: Tick)
    requires s.core.csr.Valid()
    ensures Handshakes(s.core.fe, s.ibus, FetchIn(e, s.core, Inputs(e, s, t)))
  {
    hide Pmp.Allow, ByteAddress, Redirect, ExTarget, IdFire, F.Fe.BusReq, F.Fe.BusAddr, F.Fe.PmpWord;
  }

  lemma ExKeepsPriv(e: Env, c: Core, i: In)
    requires c.csr.Valid() && (c.ex.valid ==> c.ex.priv == c.csr.priv) && NextEx(e, c, i).valid
    ensures NextEx(e, c, i).priv == c.csr.priv
    ensures c.ex.valid || c.fe.idValid
  {
    hide MemAccess, Exception, IsJal, IsJalr, Taken, IsEcall, IsEbreak, IsMret, TakesIrq, Hazard, ExResult, AluResult,
      Pipeline.Misaligned, IsAmo, IsLoad, IsStore, Funct3, Operand, IdInstr, IdBadC;
  }

  lemma PrivStep(e: Env, s: Sys, t: Tick)
    requires PrivInv(s)
    ensures PrivInv(NextSys(e, s, t))
  {
    hide Inputs, WbTraps, FetchIn, F.Next, NextEx, NextWb, NextResvValid, LrAnswered, NextDbus, ReqFire, Quiet,
      BusInv, Handshakes, NextBus, Next;
    var i := Inputs(e, s, t);
    ClockFields(e, s, t);
    InputsHandshake(e, s, t);
    BusStep(s.core.fe, s.ibus, FetchIn(e, s.core, i));
    if WbTraps(NextSys(e, s, t).core.wb) { TrapEmptiesPipe(e, s.core, i); }
    if NextEx(e, s.core, i).valid {
      ExKeepsPriv(e, s.core, i);
      QuietHasNoId(s.core.fe);
      CsrAdvances(e, s.core, i);
      NoTrapNoChange(s.core, i);
    }
  }

  lemma QuietHasNoId(f: F.Fe)
    ensures Quiet(f) ==> !f.idValid
  {}

  lemma CsrAdvances(e: Env, c: Core, i: In)
    requires c.csr.Valid()
    ensures Next(e, c, i).csr == Csr.Execute(c.csr, c.counters, i.ext, WbCommand(c.wb))
  {
    hide FetchIn, F.Next, NextEx, NextWb, Csr.Execute, Csr.NextCounters, NextResvValid, LrAnswered, AmoAnswered, Set,
      WbWrite, WbCommand, CsrInput;
  }

  lemma NoTrapNoChange(c: Core, i: In)
    requires c.csr.Valid() && !WbTraps(c.wb)
    ensures Csr.Execute(c.csr, c.counters, i.ext, WbCommand(c.wb)).priv == c.csr.priv
  {
    hide WbCommand, Csr.Execute;
    OnlyTrapsChangePriv(c.csr, c.counters, i.ext, WbCommand(c.wb));
  }

  lemma {:induction false} PrivRun(e: Env, s: Sys, ts: seq<Tick>)
    requires PrivInv(s)
    ensures PrivInv(SysRun(e, s, ts))
    decreases |ts|
  {
    hide PrivInv, NextSys;
    PrivInvIsValid(s);
    if ts != [] {
      PrivStep(e, s, ts[0]);
      PrivRun(e, NextSys(e, s, ts[0]), ts[1..]);
    }
  }

  lemma PrivInvIsValid(s: Sys)
    ensures PrivInv(s) ==> s.core.csr.Valid()
  {
    hide WbTraps, Quiet, BusInv;
  }

  lemma ResetInv(s: Sys, vector: Word)
    requires s.core.csr.Valid() && AtReset(s, vector)
    ensures PrivInv(s) && Quiet(s.core.fe)
  {
    BubbleIsIdle(s.core.wb);
    assert s.core.wb.(valid := false) == s.core.wb;
  }

  /** In every reachable state in which WB traps or returns, ID and EX are empty, both fetch buffers are
      invalid, and whatever is outstanding on the instruction bus is marked to be dropped; and the
      privilege changes in no other clock. */
  lemma PrivilegeNeedsEmptyPipe(e: Env, s: Sys, vector: Word, ts: seq<Tick>, t: Tick)
    requires s.core.csr.Valid() && AtReset(s, vector)
    ensures var r := SysRun(e, s, ts); var c, f := r.core, r.core.fe;
      && (WbTraps(c.wb) ==>
            && !c.ex.valid && !f.idValid && !f.fbuf.valid && !f.slot.valid
            && (r.ibus.Some? ==> if f.Waiting() then f.discard else f.pfInflight && f.pfDiscard))
      && (NextSys(e, r, t).core.csr.priv != c.csr.priv ==> WbTraps(c.wb))
  {
    hide NextSys, SysRun, WbTraps, AtReset, Inputs;
    var r := SysRun(e, s, ts);
    ResetInv(s, vector);
    PrivRun(e, s, ts);
    PrivInvIsValid(r);
    if !WbTraps(r.core.wb) { PrivKept(e, r, t); }
  }

  lemma PrivKept(e: Env, s: Sys, t: Tick)
    requires s.core.csr.Valid() && !WbTraps(s.core.wb)
    ensures NextSys(e, s, t).core.csr.priv == s.core.csr.priv
  {
    hide NextSys, WbTraps, Inputs, Next, Csr.Execute, WbCommand, F.Next, FetchIn, NextBus, NextEx, NextWb, NextDbus,
      NextResvValid, LrAnswered, ReqFire;
    ClockFields(e, s, t);
    CsrAdvances(e, s.core, Inputs(e, s, t));
    NoTrapNoChange(s.core, Inputs(e, s, t));
  }

  /** So in every reachable state what is in EX runs at the privilege in force. */
  lemma ExRunsAtPrivilege(e: Env, s: Sys, vector: Word, ts: seq<Tick>)
    requires s.core.csr.Valid() && AtReset(s, vector)
    ensures var c := SysRun(e, s, ts).core; c.ex.valid ==> c.ex.priv == c.csr.priv
  {
    hide SysRun, WbTraps, AtReset, Quiet, BusInv;
    ResetInv(s, vector);
    PrivRun(e, s, ts);
  }

  // ------------------------------------------------------------------------------------------
  // What fetch serves
  // ------------------------------------------------------------------------------------------

  /** Instruction memory checked by the PMP registers and privilege in force. */
  function Now(s: Sys, e: Env): (m: F.IMem)
    requires s.core.csr.Valid()
  {
    View(e, s.core.csr.pmp, s.core.csr.priv)
  }

  /** What can serve nothing holds nothing wrong, for any memory. */
  lemma QuietHoldsNothing(m: F.IMem, f: F.Fe, b: Bus)
    requires BusInv(f, b) && Quiet(f)
    ensures Inv(m, f, b)
  {
    hide WordOf, NextWord, F.ParseAt, F.After;
  }

  /** A fetch answer is checked at its own address. */
  lemma AnswersAreChecked(e: Env, s: Sys, t: Tick)
    requires s.core.csr.Valid() && BusInv(s.core.fe, s.ibus)
    ensures Obeys(Now(s, e), s.core.fe, s.ibus, FetchIn(e, s.core, Inputs(e, s, t)))
  {
    hide Pmp.Allow, ByteAddress, Redirect, ExTarget, IdFire, F.Fe.BusReq, F.Fe.BusAddr, WordOf, NextWord;
  }

  lemma UnusedAnswersObey(m: F.IMem, f: F.Fe, b: Bus, i: F.FeIn)
    requires Handshakes(f, b, i) && Quiet(f)
    ensures Obeys(m, f, b, i)
  {
    hide F.Fe.BusReq, F.Fe.BusAddr;
  }

  lemma IdFireNeedsId(e: Env, c: Core, i: In)
    requires c.csr.Valid()
    ensures IdFire(e, c, i) ==> c.fe.idValid && !Redirect(e, c, i)
    ensures FetchIn(e, c, i).redirect == Redirect(e, c, i) && FetchIn(e, c, i).idFire == IdFire(e, c, i)
  {
    hide CanAccept, Redirect, Hazard, Pmp.Allow, ByteAddress, ExTarget;
  }

  /** A clock that redirects, or leaves the PMP registers alone, keeps everything fetch holds checked at
      the registers and privilege in force. */
  lemma ServedStep(e: Env, s: Sys, t: Tick)
    requires PrivInv(s)
    requires Redirect(e, s.core, Inputs(e, s, t)) ||
      (Inv(Now(s, e), s.core.fe, s.ibus) && NextSys(e, s, t).core.csr.pmp == s.core.csr.pmp)
    ensures var n := NextSys(e, s, t); Inv(Now(n, e), n.core.fe, n.ibus)
  {
    hide Inputs, WbTraps, FetchIn, F.Next, NextEx, NextWb, NextResvValid, LrAnswered, NextDbus, ReqFire, Quiet,
      BusInv, Handshakes, NextBus, Next, Inv, Obeys, View, NextSys, IdFire, Redirect;
    var i, n := Inputs(e, s, t), NextSys(e, s, t);
    var w := FetchIn(e, s.core, i);
    ClockFields(e, s, t);
    InputsHandshake(e, s, t);
    IdFireNeedsId(e, s.core, i);
    BusStep(s.core.fe, s.ibus, w);
    if Redirect(e, s.core, i) {
      RedirectQuiets(s.core.fe, w);
      QuietHoldsNothing(Now(n, e), n.core.fe, n.ibus);
    } else if WbTraps(s.core.wb) {
      QuietHoldsNothing(Now(n, e), s.core.fe, s.ibus);
      UnusedAnswersObey(Now(n, e), s.core.fe, s.ibus, w);
      RunningStep(Now(n, e), s.core.fe, s.ibus, w);
    } else {
      PrivKept(e, s, t);
      AnswersAreChecked(e, s, t);
      RunningStep(Now(s, e), s.core.fe, s.ibus, w);
    }
  }

  /** The PMP registers have changed since the last redirect. */
  predicate Stale(e: Env, s: Sys, ts: seq<Tick>, before: bool)
    requires s.core.csr.Valid()
    decreases |ts|
  {
    if ts == [] then before
    else
      var n := NextSys(e, s, ts[0]);
      Stale(e, n, ts[1..],
            !Redirect(e, s.core, Inputs(e, s, ts[0])) && (before || n.core.csr.pmp != s.core.csr.pmp))
  }

  lemma {:induction false} ServedRun(e: Env, s: Sys, ts: seq<Tick>, before: bool)
    requires PrivInv(s) && (before || Inv(Now(s, e), s.core.fe, s.ibus)) && !Stale(e, s, ts, before)
    ensures var r := SysRun(e, s, ts); PrivInv(r) && Inv(Now(r, e), r.core.fe, r.ibus)
    decreases |ts|
  {
    hide PrivInv, NextSys, Inv, Redirect, Inputs, Now;
    PrivInvIsValid(s);
    if ts != [] {
      var n := NextSys(e, s, ts[0]);
      var redirects := Redirect(e, s.core, Inputs(e, s, ts[0]));
      var after := !redirects && (before || n.core.csr.pmp != s.core.csr.pmp);
      PrivStep(e, s, ts[0]);
      if !after { ServedStep(e, s, ts[0]); }
      ServedRun(e, n, ts[1..], after);
    }
  }

  /** The word at b.wa as fetch may execute it now. */
  predicate Checked(s: Sys, e: Env, b: F.Buf)
    requires s.core.csr.Valid()
  {
    var k := s.core.csr;
    b.word == F.FWord(e.imem(b.wa).data, e.imem(b.wa).err || !Pmp.Allow(k.pmp, ByteAddress(b.wa), k.priv, Pmp.FETCH))
  }

  /** In every reachable state, if the PMP registers have not changed since the last redirect, what ID
      holds is what parsing memory gives, and each buffered word is memory's, checked for execution at
      its own address, by the registers and at the privilege in force; so is what ID hands to EX, at the
      privilege EX runs it at. */
  lemma ServedWordsAreChecked(e: Env, s: Sys, vector: Word, ts: seq<Tick>, t: Tick)
    requires s.core.csr.Valid() && AtReset(s, vector) && !Stale(e, s, ts, false)
    ensures var r := SysRun(e, s, ts); var f, x := r.core.fe, NextSys(e, r, t).core.ex;
      && (f.idValid ==> f.id == F.ParseAt(Now(r, e), f.id.pc))
      && (f.fbuf.valid ==> Checked(r, e, f.fbuf)) && (f.slot.valid ==> Checked(r, e, f.slot))
      && (IdFire(e, r.core, Inputs(e, r, t)) ==>
            x.valid && x.item == F.ParseAt(View(e, r.core.csr.pmp, x.priv), x.item.pc))
  {
    hide SysRun, WbTraps, AtReset, Stale, NextSys, Inputs, IdFire, BusInv, Quiet, F.ParseAt, Pmp.Allow, F.Next,
      FetchIn, NextWb, Next, NextBus, NextDbus, NextResvValid, LrAnswered, ReqFire, Operand, IdInstr, IdBadC,
      StraddleOk, BusOk, F.After, ByteAddress;
    var r := SysRun(e, s, ts);
    ResetInv(s, vector);
    QuietHoldsNothing(Now(s, e), s.core.fe, s.ibus);
    ServedRun(e, s, ts, false);
    PrivInvIsValid(r);
    ClockFields(e, r, t);
    IdFireNeedsId(e, r.core, Inputs(e, r, t));
  }

  /** When WB writes the PMP registers in a clock without redirect, a word buffered after it is still
      rightly checked exactly if memory answers it with an error anyway, or the new registers allow it
      just as the old ones did. */
  lemma WordsUnderPmpWrite(e: Env, s: Sys, t: Tick, b: F.Buf)
    requires PrivInv(s) && Inv(Now(s, e), s.core.fe, s.ibus)
    requires !Redirect(e, s.core, Inputs(e, s, t)) && WbCommand(s.core.wb).Access?
    requires b.valid && (b == NextSys(e, s, t).core.fe.fbuf || b == NextSys(e, s, t).core.fe.slot)
    ensures var n, k, at := NextSys(e, s, t), s.core.csr, ByteAddress(b.wa);
      Checked(n, e, b) <==>
        || e.imem(b.wa).err
        || Pmp.Allow(n.core.csr.pmp, at, k.priv, Pmp.FETCH) == Pmp.Allow(k.pmp, at, k.priv, Pmp.FETCH)
  {
    hide Inputs, FetchIn, F.Next, NextEx, NextWb, NextResvValid, LrAnswered, NextDbus, ReqFire, BusInv, Quiet,
      Handshakes, NextBus, Next, Obeys, NextSys, IdFire, Redirect, WbCommand, Pmp.Allow, ByteAddress, BusOk,
      StraddleOk, F.ParseAt, F.After;
    var i := Inputs(e, s, t);
    ClockFields(e, s, t);
    IdFireNeedsId(e, s.core, i);
    AnswersAreChecked(e, s, t);
    PrivKept(e, s, t);
    RunningStep(Now(s, e), s.core.fe, s.ibus, FetchIn(e, s.core, i));
  }
}
