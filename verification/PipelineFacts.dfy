/** Consequences of the refinement, and facts about the pipeline that need no restriction. */
module PipelineFacts {
  import opened Words
  import opened Instr
  import opened Decoder
  import F = Fetch
  import FetchProof
  import Pmp
  import Csr
  import opened Isa
  import opened Pipeline
  import opened Memory
  import opened DataPath
  import opened System
  import opened Refine
  import opened RefineBase
  import opened RefineCommit
  import opened RefineStep
  import opened RefineRun
  import opened RefineTheorem
  import opened RefineAccess
  import RefineBypass
  import CounterRead

  // ------------------------------------------------------------------------------------------
  // Start and end of a run
  // ------------------------------------------------------------------------------------------

  /** After reset: nothing fetched, nothing in EX or WB, no request outstanding. */
  predicate AtReset(s: Sys, vector: Word) {
    s.core.fe == F.Reset(vector) && !s.core.ex.valid && !s.core.wb.valid && !s.core.resvValid && s.ibus.None?
        && s.dbus.None?
  }

  /** The architectural registers, RAM and CSRs of a system with an empty pipeline. */
  function Visible(s: Sys, pc: Word): (r: Arch) {
    Arch(pc, s.core.regs, s.ram, if s.core.resvValid then Some(s.core.resvAddr) else None, s.core.csr)
  }

  lemma ResetRefines(e: Env, s: Sys, vector: Word)
    requires s.core.csr.Valid() && AtReset(s, vector)
    ensures Refines(e, s, Visible(s, vector))
  {
    hide Covered, View;
  }

  /** Whenever EX and WB are empty, the registers, RAM, CSRs and reservation are the interpreter's. */
  lemma Drained(e: Env, s: Sys, a: Arch)
    requires Refines(e, s, a) && !s.core.ex.valid && !s.core.wb.valid
    ensures a == Visible(s, a.pc)
  {
    hide Covered, View, FetchProof.Inv, FetchProof.Quiet, F.Fe.Head;
  }

  /** From reset, over every allowed run and latency schedule: once the pipeline is drained, the
      visible state is exactly that of the interpreter run on the same program, and WB has done
      exactly what the interpreter did. */
  lemma FromReset(e: Env, s: Sys, vector: Word, ts: seq<Tick>)
    requires s.core.csr.Valid() && AtReset(s, vector) && AllowedRun(e, s, ts)
    requires var n := SysRun(e, s, ts).core; !n.ex.valid && !n.wb.valid
    ensures var a := IsaRun(e, Visible(s, vector), Supplied(e, s, ts)); a == Visible(SysRun(e, s, ts), a.pc)
    ensures WbLog(e, s, ts) == IsaLog(e, Visible(s, vector), Supplied(e, s, ts))
  {
    hide Refines, SysRun, IsaRun, Supplied, AllowedRun, Visible, IsaLog, WbLog;
    ResetRefines(e, s, vector);
    ResetIsIdle(s, vector);
    PipelineRefinesIsa(e, s, Visible(s, vector), ts);
    Drained(e, SysRun(e, s, ts), IsaRun(e, Visible(s, vector), Supplied(e, s, ts)));
    var log := WbLog(e, s, ts);
    assert log + [] == log;
  }

  lemma ResetIsIdle(s: Sys, vector: Word)
    requires AtReset(s, vector)
    ensures !s.core.wb.valid && Visible(s, vector).csr == s.core.csr
  {}

  // ------------------------------------------------------------------------------------------
  // Traps
  // ------------------------------------------------------------------------------------------

  /** The same outside, with no interrupt line raised. */
  function Unraised(io: Io): (r: Io) { io.(ext := NO_EXT) }

  lemma NoneRaised(k: Csr.State)
    ensures Csr.PendingIrq(k, NO_EXT).None?
  {
    hide Csr.Mie, Csr.Enabled;
  }

  /** If o traps, either the instruction itself faults: it writes no register and no memory, and
      mepc is its own pc; or it completes as q, without the interrupt, and mepc is its successor. */
  predicate Precise(a: Arch, io: Io, o: Commit, q: Commit) {
    o.cmd.Take? ==>
      || (o == q && o.wr.None? && o.ram == a.ram && o.resv.None? && o.cmd.t.epc == a.pc
          && o.next == TrapBase(a.csr.mtvec) && !o.retired)
      || (q.cmd.Idle? && q.retired && Csr.PendingIrq(a.csr, io.ext).Some? &&
          var cause := Csr.PendingIrq(a.csr, io.ext).value;
          o == Commit(IrqTarget(a.csr.mtvec, cause), q.wr, Csr.Take(Csr.Trap(cause, ZERO, q.next)), q.ram, None, false))
  }

  lemma CompletionIsPrecise(a: Arch, io: Io)
    ensures forall next, wr, ram, resv ::
      Precise(a, io, Completes(a, io, next, wr, ram, resv), Completes(a, Unraised(io), next, wr, ram, resv))
  {
    hide Csr.PendingIrq, TrapBase, IrqTarget;
    NoneRaised(a.csr);
  }

  lemma FaultIsPrecise(a: Arch, io: Io)
    ensures forall cause, tval :: Precise(a, io, Faults(a, cause, tval), Faults(a, cause, tval))
  {
    hide Csr.PendingIrq, TrapBase, IrqTarget;
  }

  lemma NoTrapIsPrecise(a: Arch, io: Io, o: Commit, q: Commit)
    requires !o.cmd.Take?
    ensures Precise(a, io, o, q)
  {}

  /** Traps are precise for every instruction. */
  lemma TrapsArePrecise(e: Env, a: Arch, io: Io)
    requires a.csr.Valid()
    ensures Precise(a, io, Outcome(e, a, io), Outcome(e, a, Unraised(io)))
  {
    hide Csr.PendingIrq, TrapBase, F.ParseAt, View, Meaning, Breaks, Denied, Get, Sum, EvenBelow, Compute, Multiply,
      Holds, IsOdd, MayAccess, Isa.Aligned, Extract, StoreRam, AmoResult, F.After, InRam, RamIndex, Csr.Read,
      Completes, Faults, Precise, DataAddress, CsrSource, WriteError, ReadAnswer;
    CompletionIsPrecise(a, io);
    FaultIsPrecise(a, io);
    var m := Meaning(F.ParseAt(View(e, a.csr.pmp, a.csr.priv), a.pc));
    if m.Zicsr? || m.Mret? {
      if !Outcome(e, a, io).cmd.Take? { NoTrapIsPrecise(a, io, Outcome(e, a, io), Outcome(e, a, Unraised(io))); }
    }
  }

  /** Every trap WB enters was steered by EX, to the vector the interpreter goes to. */
  lemma TrapsAreSteered(e: Env, s: Sys, a: Arch, t: Tick)
    requires s.core.csr.Valid() && a.csr.Valid() && Refines(e, s, a) && Allowed(e, s, t)
        && ToWb(e, s.core, Inputs(e, s, t))
    requires WbTraps(Completed(e, s.core, Inputs(e, s, t)))
    ensures Redirect(e, s.core, Inputs(e, s, t))
    ensures ExTarget(e, s.core, Inputs(e, s, t)) == Outcome(e, a, IoOf(e, s, t)).next
  {
    hide Refines, ToWb, Inputs, WbHalf, FetchHalf, ExOk, MemOk, ResvOk, InEx, IoOf, WbTraps, Completed, Redirect,
      ExTarget, Outcome, Allowed, CommitsAs;
    Parts(e, s, a);
    RefineBypass.NeedsEx(e, s.core, Inputs(e, s, t));
    LeavingCommits(e, s, a, t);
    CommitFacts(e, s, t, Inputs(e, s, t), Outcome(e, a, IoOf(e, s, t)));
  }

  // ------------------------------------------------------------------------------------------
  // EX against WB, in any state
  // ------------------------------------------------------------------------------------------

  /** Where WB's command sends control, by the vectors EX sees. */
  function WbVector(k: Csr.State, m: Csr.Command, otherwise: Word): (r: Word) {
    match m
    case Take(t) => if t.cause.bits & 0x8000_0000 != 0 then IrqTarget(k.mtvec, t.cause) else TrapBase(k.mtvec)
    case Mret => k.mepc
    case _ => otherwise
  }

  lemma IrqCauseIsMarked(k: Csr.State, ext: Csr.Ext)
    ensures Csr.PendingIrq(k, ext).Some? ==> Csr.PendingIrq(k, ext).value.bits & 0x8000_0000 != 0
  {
    hide Csr.Mie, Csr.Enabled;
  }

  /** Whenever WB will trap or return, EX redirects; and it steers to where WB goes exactly when
      nothing outranks WB's choice, or the interrupt vector happens to be that place. */
  lemma SteeringAgrees(e: Env, c: Core, i: In)
    requires c.csr.Valid() && ToWb(e, c, i)
    ensures var m := WbCommand(Completed(e, c, i)); m.Take? || m.Mret? ==>
      && Redirect(e, c, i)
      && (ExTarget(e, c, i) == WbVector(c.csr, m, ZERO) <==>
            RanksAgree(c, i) || Exception(e, c, i) || IrqVector(c.csr, i.ext) == WbVector(c.csr, m, ZERO))
  {
    hide TriggerHit, DoneErr, DoneMisaligned, BadTarget, LegalEff, ExResult, AluResult, NextTarget, ExecToWb, MemToWb,
      AmoToWb, ToWb, TrapBase, IrqTarget, Vectored, IsJal, IsJalr, Taken, Csr.PendingIrq, ScSucceeds, Funct3, Rs1,
      CsrAddr, CsrOpOf, IsStore, IsAmo, IsSc, Funct12, IsSystem;
    IrqCauseIsMarked(c.csr, i.ext);
    UnvectoredIrq(c.csr, i.ext);
    JumpsAreNotSystem(c.ex);
  }

  /** EX steers fetch to a trap vector. */
  predicate SteersToTrap(e: Env, c: Core, i: In)
    requires c.csr.Valid() && ToWb(e, c, i)
  {
    Exception(e, c, i) || TakesIrq(c, i) || IsEcall(c.ex.instr) || IsEbreak(c.ex.instr)
  }

  /** In any state, WB will enter a trap exactly if the instruction leaving EX faults, calls or breaks, or is
      interrupted and no MRET; so, unless an MRET is outranked, exactly if EX steers to a trap vector. */
  lemma TrapsIffSteered(e: Env, c: Core, i: In)
    requires c.csr.Valid() && ToWb(e, c, i)
    ensures var m, w := WbCommand(Completed(e, c, i)), c.ex.instr;
      && (m.Take? <==> Exception(e, c, i) || IsEcall(w) || IsEbreak(w) || (TakesIrq(c, i) && !IsMret(w)))
      && (m.Mret? <==> IsMret(w) && !Exception(e, c, i))
      && (RanksAgree(c, i) || Exception(e, c, i) ==> (m.Take? <==> SteersToTrap(e, c, i)))
  {
    hide TriggerHit, DoneErr, DoneMisaligned, BadTarget, LegalEff, ExResult, AluResult, NextTarget, ExecToWb, MemToWb,
      AmoToWb, ToWb, Vectored, Csr.PendingIrq, ScSucceeds, Funct3, Rs1, CsrAddr, CsrOpOf, IsStore, IsAmo, IsSc,
      IsEcall, IsEbreak, IsMret, IsCsrOp;
    SystemKinds(c.ex.instr);
  }

  /** In any state, a trap WB will enter is precise: after a fault, call or break it writes no register and
      saves the instruction's pc; after an interrupt it writes the instruction's result and saves the pc
      EX computed for its successor. */
  lemma TrapsArePreciseAnywhere(e: Env, c: Core, i: In, l: Csr.Ext)
    requires c.csr.Valid() && ToWb(e, c, i) && WbCommand(Next(e, c, i).wb).Take?
    ensures var n, w := Next(e, c, i), c.ex.instr; var t := WbCommand(n.wb).t;
      && !Retires(n.wb)
      && if Exception(e, c, i) || IsEcall(w) || IsEbreak(w) then
           t.epc == c.ex.item.pc && WbWrite(n, l).None?
         else
           && Csr.PendingIrq(c.csr, i.ext) == Some(t.cause) && t.epc == NextTarget(c.ex)
           && (WbWrite(n, l).Some? <==> HasResult(w))
  {
    hide TriggerHit, DoneErr, DoneMisaligned, BadTarget, LegalEff, ExResult, AluResult, NextTarget, ExecToWb, MemToWb,
      AmoToWb, ToWb, Csr.PendingIrq, ScSucceeds, Funct3, Rs1, CsrAddr, CsrOpOf, IsStore, IsAmo, IsSc, IsEcall,
      IsEbreak, IsMret, IsCsrOp, HasResult, WbResult, Rd, NextEx, F.Next, FetchIn, Csr.Execute, Csr.NextCounters,
      NextResvValid, LrAnswered, AmoAnswered, Set;
    SystemKinds(c.ex.instr);
    CallsHaveNoResult(c.ex.instr);
    TrapsIffSteered(e, c, i);
  }

  lemma CallsHaveNoResult(w: Word)
    ensures IsEcall(w) || IsEbreak(w) ==> !HasResult(w)
  {
    hide Opcode, Funct3, Funct12, Funct5;
  }

  /** In any state, an access stopped by a trigger, its alignment or the PMP drives no request, and neither
      does an SC without its reservation. */
  lemma SuppressedNeverRequests(e: Env, c: Core)
    requires c.csr.Valid() && c.ex.st == ExState.Exec
    requires TriggerHit(e, c.ex) || Pipeline.Misaligned(AluResult(c.ex), Funct3(c.ex.instr)) || !DAllow(c.ex, c.csr)
      || (IsSc(c.ex.instr) && !ScSucceeds(c.ex, c.resvValid, c.resvAddr))
    ensures !Requesting(e, c)
  {
    hide TriggerHit, AluResult, DAllow, Pipeline.Misaligned, Funct3, Opcode, Funct5;
  }

  lemma UnvectoredIrq(k: Csr.State, ext: Csr.Ext)
    ensures !Vectored(k.mtvec) ==> IrqVector(k, ext) == TrapBase(k.mtvec)
  {
    hide TrapBase, Vectored, Csr.PendingIrq;
  }

  lemma JumpsAreNotSystem(x: Ex)
    ensures IsSystem(x.instr) ==> !IsJal(x.instr) && !IsJalr(x.instr) && !Taken(x)
  {
    hide Opcode, Funct3;
  }

  // ------------------------------------------------------------------------------------------
  // The retired-instruction counter
  // ------------------------------------------------------------------------------------------

  function PlusMany(c: Csr.Count, n: nat): (r: Csr.Count)
    decreases n
  {
    if n == 0 then c else PlusMany(Csr.PlusOne(c), n - 1)
  }

  function RetiredIn(log: seq<Entry>): (r: nat)
    decreases |log|
  {
    if log == [] then 0 else (if log[0].retired then 1 else 0) + RetiredIn(log[1..])
  }

  /** WB writes neither minstret nor mcountinhibit in the run, and minstret is not inhibited. */
  predicate InstretRuns(e: Env, s: Sys, ts: seq<Tick>)
    requires s.core.csr.Valid()
    decreases |ts|
  {
    ts == [] ||
    (&& (var m := WbCommand(s.core.wb); m.Access? ==> m.a.bits != Csr.MINSTRET && m.a.bits != Csr.MINSTRETH)
     && !Csr.Enabled(s.core.csr.mcountinhibit, 4)
     && InstretRuns(e, NextSys(e, s, ts[0]), ts[1..]))
  }

  lemma InstretStep(e: Env, c: Core, i: In)
    requires c.csr.Valid() && !Csr.Enabled(c.csr.mcountinhibit, 4)
    requires var m := WbCommand(c.wb); m.Access? ==> m.a.bits != Csr.MINSTRET && m.a.bits != Csr.MINSTRETH
    ensures Next(e, c, i).counters.minstret == if Retires(c.wb) then Csr.PlusOne(c.counters.minstret)
        else c.counters.minstret
  {
    hide NextEx, F.Next, FetchIn, Csr.Execute, LrAnswered, AmoAnswered, Set, NextResvValid, NextWb, WbWrite,
      WbCommand, Retires, Csr.Enabled, Csr.PlusOne, Csr.Read, Csr.NewValue, Csr.SetLo, Csr.SetHi;
  }

  lemma RetiredSplit(c: Core, ext: Csr.Ext, rest: seq<Entry>)
    requires c.csr.Valid()
    ensures RetiredIn(WbEntry(c, ext) + rest) == (if Retires(c.wb) then 1 else 0) + RetiredIn(rest)
  {
    hide WbWrite, WbCommand;
    if c.wb.valid { assert (WbEntry(c, ext) + rest)[1..] == rest; } else { assert [] + rest == rest; }
  }

  /** Over every run minstret counts exactly the instructions logged as retired. */
  lemma {:induction false} InstretCountsRetired(e: Env, s: Sys, ts: seq<Tick>)
    requires s.core.csr.Valid() && InstretRuns(e, s, ts)
    ensures SysRun(e, s, ts).core.counters.minstret == PlusMany(s.core.counters.minstret, RetiredIn(WbLog(e, s, ts)))
    decreases |ts|
  {
    hide WbEntry, Retires, Csr.PlusOne, WbCommand, Inputs, Next, Csr.Enabled;
    if ts != [] {
      var n := NextSys(e, s, ts[0]);
      InstretStep(e, s.core, Inputs(e, s, ts[0]));
      RetiredSplit(s.core, ts[0].ext, WbLog(e, n, ts[1..]));
      InstretCountsRetired(e, n, ts[1..]);
    }
  }

  // ------------------------------------------------------------------------------------------
  // What the CSR unit is asked in a run
  // ------------------------------------------------------------------------------------------

  /** A CSR operation retires in the clock that performs it, so both counters tick while it reads them. */
  lemma CsrAccessRetires(b: Wb)
    ensures WbCommand(b).Access? ==> Retires(b)
  {
    hide IsCsrOp, IsEcall, IsEbreak, IsMret, IsStore, IsAmo, IsSc;
    SystemKinds(b.instr);
  }

  lemma SystemKinds(w: Word)
    ensures IsCsrOp(w) || IsMret(w) ==> !IsEcall(w) && !IsEbreak(w)
    ensures !(IsCsrOp(w) && IsMret(w))
  {
    hide Opcode, Funct3, Funct12;
  }

  function CsrInputs(e: Env, s: Sys, ts: seq<Tick>): (xs: seq<Csr.CsrIn>)
    requires s.core.csr.Valid()
    ensures |xs| == |ts|
    decreases |ts|
  {
    if ts == [] then []
    else [CsrInput(s.core, Inputs(e, s, ts[0]))] + CsrInputs(e, NextSys(e, s, ts[0]), ts[1..])
  }

  /** Over every run the CSR unit and its counters see one command a clock, those of WB. */
  lemma {:induction false} CsrUnitOfRun(e: Env, s: Sys, ts: seq<Tick>)
    requires s.core.csr.Valid()
    ensures var r, xs := SysRun(e, s, ts).core, CsrInputs(e, s, ts);
      && r.csr == CounterRead.RunState(s.core.csr, s.core.counters, xs)
      && r.counters == CounterRead.RunCounters(s.core.csr, s.core.counters, xs)
    decreases |ts|
  {
    hide Inputs, Csr.Execute, Csr.NextCounters, WbCommand, Retires, Next;
    if ts != [] {
      var n, xs := NextSys(e, s, ts[0]), CsrInputs(e, s, ts);
      CsrStep(e, s.core, Inputs(e, s, ts[0]));
      assert xs[1..] == CsrInputs(e, n, ts[1..]);
      CsrUnitOfRun(e, n, ts[1..]);
    }
  }

  lemma CsrStep(e: Env, c: Core, i: In)
    requires c.csr.Valid()
    ensures var x := CsrInput(c, i);
      && Next(e, c, i).csr == Csr.Execute(c.csr, c.counters, x.ext, x.cmd)
      && Next(e, c, i).counters == Csr.NextCounters(c.csr, c.counters, x)
  {
    hide NextEx, F.Next, FetchIn, Csr.Execute, LrAnswered, AmoAnswered, Set, NextResvValid, NextWb, WbWrite,
      WbCommand, Retires, Csr.NextCounters;
  }
}
