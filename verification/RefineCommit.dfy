/** What leaves EX commits exactly what the interpreter says its instruction does. */
module RefineCommit {
  import opened Words
  import opened Instr
  import opened Decoder
  import F = Fetch
  import Pmp
  import Csr
  import opened Isa
  import opened Pipeline
  import opened Memory
  import opened DataPath
  import opened System
  import opened Refine
  import opened RefineBase

  /** The reservation after this clock. */
  function ResvAfter(e: Env, c: Core, i: In): (r: Option<Word>)
    requires c.csr.Valid()
  {
    if NextResvValid(e, c, i) then Some(if LrAnswered(c, i) then c.ex.result else c.resvAddr) else None
  }

  /** The instruction leaving EX in this clock has the effects o. */
  predicate CommitsAs(e: Env, s: Sys, i: In, o: Commit)
    requires s.core.csr.Valid()
  {
    var c := s.core;
    var b := Completed(e, c, i);
    && WbCommand(b) == o.cmd
    && WbWrite(Next(e, c, i), NO_EXT) == o.wr
    && Retires(b) == o.retired
    && (if Redirect(e, c, i) then ExTarget(e, c, i) == o.next
        else o.next == F.After(c.ex.item) && !o.cmd.Take? && !o.cmd.Mret?)
    && ResvAfter(e, c, i) == o.resv
    && s.ram == o.ram
  }

  lemma Faulted(e: Env, s: Sys, a: Arch, i: In, cause: bv32, tval: Word)
    requires s.core.csr.Valid() && ToWb(e, s.core, i) && Exception(e, s.core, i)
    requires WbCommand(Completed(e, s.core, i)) == Csr.Take(Csr.Trap(Word(cause), tval, a.pc))
    requires TrapBase(s.core.csr.mtvec) == TrapBase(a.csr.mtvec) && s.ram == a.ram
    ensures CommitsAs(e, s, i, Faults(a, cause, tval))
  {
    hide TrapBase, WbCommand, TriggerHit, DoneErr, DoneMisaligned, BadTarget, LegalEff, ExResult, AluResult,
      NextTarget, MemAccess, IsJal, IsJalr, Taken, IsEcall, IsEbreak, IsMret, HasResult, IsCsrOp, Csr.PendingIrq,
      WbResult, ScSucceeds, Rs1, NextEx, F.Next, FetchIn, Csr.Execute, Csr.NextCounters, LrAnswered, AmoAnswered, Set,
      ToWb, ExecToWb, MemToWb, AmoToWb, Funct3;
  }

  lemma Finished(e: Env, s: Sys, a: Arch, i: In, io: Io, next: Word, wr: Option<Write>, ram: Ram, resv: Option<Word>)
    requires s.core.csr.Valid() && ToWb(e, s.core, i) && !Exception(e, s.core, i) && io.ext == i.ext
    requires Csr.PendingIrq(s.core.csr, i.ext) == Csr.PendingIrq(a.csr, i.ext)
    requires Csr.PendingIrq(a.csr, i.ext).Some? ==> s.core.csr.mtvec == a.csr.mtvec
    requires var w := s.core.ex.instr; !IsEcall(w) && !IsEbreak(w) && !IsMret(w) && !IsCsrOp(w)
    requires next == NextTarget(s.core.ex)
    requires !IsJal(s.core.ex.instr) && !IsJalr(s.core.ex.instr) && !Taken(s.core.ex)
        ==> next == F.After(s.core.ex.item)
    requires wr == WbWrite(Next(e, s.core, i), NO_EXT) && s.ram == ram
    requires Csr.PendingIrq(a.csr, i.ext).None? ==> resv == ResvAfter(e, s.core, i)
    ensures CommitsAs(e, s, i, Completes(a, io, next, wr, ram, resv))
  {
    hide TrapBase, TriggerHit, DoneErr, DoneMisaligned, BadTarget, LegalEff, ExResult, AluResult, NextTarget,
      IrqTarget, MemAccess, IsJal, IsJalr, Taken, IsEcall, IsEbreak, IsMret, HasResult, IsCsrOp, Csr.PendingIrq,
      WbWrite, ScSucceeds, Rs1, Next, LrAnswered, AmoAnswered, ToWb, ExecToWb, MemToWb, AmoToWb, Funct3, IsStore,
      IsAmo, IsSc, CsrAddr, CsrOpOf, F.After;
  }

  // ------------------------------------------------------------------------------------------
  // An instruction in its first EX cycle
  // ------------------------------------------------------------------------------------------

  /** EX holds the architectural state's next instruction and has not started a memory access. */
  ghost predicate InExec(e: Env, s: Sys, a: Arch) {
    var x := s.core.ex;
    && s.core.csr.Valid() && a.csr.Valid()
    && x.valid && x.st == ExState.Exec && a.pc == x.item.pc
    && ExOk(e, s.core, a) && MemOk(e, s, a) && ResvOk(s.core, a)
  }

  lemma NoAccess(e: Env, c: Core, i: In)
    requires c.csr.Valid() && c.ex.valid && c.ex.st == ExState.Exec && !c.ex.err && !c.ex.misaligned
    requires !IsLoad(c.ex.instr) && !IsStore(c.ex.instr) && !IsAtomic(c.ex.instr)
    ensures ToWb(e, c, i) && ExecToWb(e, c) && !MemToWb(c, i) && !AmoToWb(c, i) && !LrAnswered(c, i)
    ensures !DoneErr(e, c, i) && !DoneMisaligned(e, c)
  {
    hide IsLoad, IsStore, IsAtomic, TriggerHit, AluResult, Misaligned, DAllow, Funct5;
  }

  lemma FetchFaultCommits(e: Env, s: Sys, a: Arch, i: In, io: Io)
    requires s.core.csr.Valid() && a.csr.Valid() && InExec(e, s, a)
    requires s.core.ex.item.err
    requires WellEncoded(s.core.ex) && SameForEx(s.core.csr, a.csr)
    ensures ToWb(e, s.core, i) && CommitsAs(e, s, i, Outcome(e, a, io))
  {
    hide TriggerHit, BadTarget, LegalEff, IsLoad, IsStore, IsAtomic, DoneErr, DoneMisaligned, ToWb, ExecToWb, MemToWb,
      AmoToWb, TrapBase, ExResult, AluResult, NextTarget, F.ParseAt, View, Isa.Exec, Meaning, Breaks, Denied,
      FromFetch, CommitsAs;
    NoAccess(e, s.core, i);
    Faulted(e, s, a, i, 1, a.pc);
  }

  lemma IllegalCommits(e: Env, s: Sys, a: Arch, i: In, io: Io)
    requires s.core.csr.Valid() && a.csr.Valid() && InExec(e, s, a)
    requires !s.core.ex.item.err && !DecLegal(s.core.ex) && Meaning(s.core.ex.item) == Illegal
    requires WellEncoded(s.core.ex) && SameForEx(s.core.csr, a.csr)
    ensures ToWb(e, s.core, i) && CommitsAs(e, s, i, Outcome(e, a, io))
  {
    hide Fires, IsLoad, IsStore, IsAtomic, DoneErr, DoneMisaligned, ToWb, ExecToWb, MemToWb, AmoToWb, PrivIllegal,
      DecLegal, TrapBase, ExResult, AluResult, NextTarget, F.ParseAt, View, Isa.Exec, Meaning, Breaks, Denied,
      FromFetch, CommitsAs, IsJal, IsJalr, Taken, IsSc, IsAmo;
    NoAccess(e, s.core, i);
    Faulted(e, s, a, i, 2, s.core.ex.item.raw);
  }

  /** The instruction in EX is the legal instruction m. */
  ghost predicate LegalExec(e: Env, s: Sys, a: Arch, m: Instr) {
    var x := s.core.ex;
    InExec(e, s, a) && !x.item.err && m == Meaning(x.item) && m != Illegal && Holding(x, m) && DecLegal(x)
  }

  /** The operands EX latched are the register values the interpreter reads. */
  lemma SourceValues(x: Ex, regs: Regs, m: Instr)
    requires Holding(x, m) && x.rs1v == Get(regs, Rs1(x.instr)) && x.rs2v == Get(regs, Rs2(x.instr))
    ensures Source1(m).Some? ==> Get(regs, Source1(m).value) == x.rs1v
    ensures Source2(m).Some? ==> Get(regs, Source2(m).value) == x.rs2v
    ensures IsAccess(m) ==> DataAddress(regs, m) == Address(x, m)
  {
    hide Decode, Get, Rs1, Rs2, Sum;
    SourcesAgree(x, m);
  }

  lemma TriggerAgrees(e: Env, s: Sys, a: Arch, m: Instr)
    requires LegalExec(e, s, a, m)
    ensures TriggerHit(e, s.core.ex) <==> Breaks(e, a, m)
  {
    hide Decode, Get, DecLegal, IsLoad, IsStore, IsSc, IsAmo, AluResult, WatchesPriv, WatchesPc, WatchesLoad,
      WatchesStore, FromFetch, F.ParseAt, View, F.After, DataAddress, Address, ExResult;
    MemoryFlags(s.core.ex, m);
    SourceValues(s.core.ex, a.regs, m);
    if IsAccess(m) { AddressAgrees(s.core.ex, m); }
  }
}
