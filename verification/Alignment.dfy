/** With 16-bit instructions on, every pc is even: the misaligned-fetch exception cannot happen. */
module Alignment {
  import opened Words
  import opened Instr
  import opened Decoder
  import DecodeProof
  import F = Fetch
  import Pmp
  import Csr
  import opened Isa
  import opened DataPath
  import opened RefineTheorem

  predicate Even(w: Word) { !IsOdd(w) }

  // ------------------------------------------------------------------------------------------
  // Bits
  // ------------------------------------------------------------------------------------------

  lemma EvenSum(a: Word, b: Word)
    requires Even(a) && Even(b)
    ensures Even(Sum(a, b))
  {}

  lemma EvenSteps(a: Word)
    requires Even(a)
    ensures Even(Plus(a, 2)) && Even(Plus(a, 4))
  {}

  lemma ClearedIsEven(a: Word)
    ensures Even(EvenBelow(a)) && Even(Csr.EvenWord(a)) && Even(TrapBase(a))
  {}

  lemma VectorOffsetIsEven(cause: Word)
    ensures Even(Word((cause.bits & 0x1F) << 2))
  {}

  lemma BranchOffsetIsEven(w: Word)
    ensures Even(ImmB(w))
  {}

  lemma JumpOffsetIsEven(w: Word)
    ensures Even(ImmJ(w))
  {}

  lemma IrqTargetIsEven(mtvec: Word, cause: Word)
    ensures Even(IrqTarget(mtvec, cause))
  {
    hide Even, Sum, TrapBase, Vectored;
    ClearedIsEven(mtvec);
    VectorOffsetIsEven(cause);
    EvenSum(TrapBase(mtvec), Word((cause.bits & 0x1F) << 2));
  }

  /** Where a jump or branch of the instruction set goes is an even distance away. */
  lemma OffsetsAreEven(w: Word)
    ensures Decode(w).Jal? || Decode(w).Branch? ==> Even(Decode(w).off)
  {
    hide Even, Opcode, Funct3, Funct7, Funct5, Funct12, Rd, Rs1, Rs2, ImmI, ImmS, ImmB, ImmJ, ImmU, Shamt, DecodeLoad,
      DecodeStore, DecodeOpImm, DecodeOp, DecodeSystem, DecodeAmo;
    BranchOffsetIsEven(w);
    JumpOffsetIsEven(w);
    OtherGroups(w);
  }

  lemma OtherGroups(w: Word)
    ensures !DecodeLoad(w).Jal? && !DecodeLoad(w).Branch? && !DecodeStore(w).Jal? && !DecodeStore(w).Branch?
    ensures !DecodeOpImm(w).Jal? && !DecodeOpImm(w).Branch? && !DecodeOp(w).Jal? && !DecodeOp(w).Branch?
    ensures !DecodeSystem(w).Jal? && !DecodeSystem(w).Branch? && !DecodeAmo(w).Jal? && !DecodeAmo(w).Branch?
  {
    hide Opcode, Funct3, Funct7, Funct5, Funct12, Rd, Rs1, Rs2, ImmI, ImmS, ImmB, ImmJ, ImmU, Shamt;
  }

  lemma MeaningOffsets(item: F.Item)
    ensures var m := Meaning(item); m.Jal? || m.Branch? ==> Even(m.off)
  {
    hide Even, Decode, Expand, HalfOf, Rvc0, Rvc1, Rvc2, CQuad;
    var c := HalfOf(item.raw, false);
    if !item.isC { OffsetsAreEven(item.raw); }
    else if CQuad(c) != 3 {
      DecodeProof.ExpansionMeans(c);
      if Expand(c).Some? { OffsetsAreEven(Expand(c).value); }
    }
  }

  // ------------------------------------------------------------------------------------------
  // The interpreter
  // ------------------------------------------------------------------------------------------

  predicate EvenState(a: Arch) { Even(a.pc) && Even(a.csr.mepc) }

  /** The outcome goes to an even pc, saves an even one, and is no misaligned fetch. */
  predicate EvenCommit(o: Commit) {
    Even(o.next) && (o.cmd.Take? ==> Even(o.cmd.t.epc) && o.cmd.t.cause != ZERO)
  }

  lemma CompletesEven(a: Arch, io: Io, next: Word)
    requires Even(a.pc) && Even(next)
    ensures forall wr, ram, resv :: EvenCommit(Completes(a, io, next, wr, ram, resv))
  {
    hide Even, IrqTarget, Csr.Mie, Csr.Enabled;
    var p := Csr.PendingIrq(a.csr, io.ext);
    if p.Some? { IrqTargetIsEven(a.csr.mtvec, p.value); }
  }

  lemma FaultsEven(a: Arch)
    requires Even(a.pc)
    ensures forall cause, tval :: cause != 0 ==> EvenCommit(Faults(a, cause, tval))
  {
    hide Even, TrapBase;
    ClearedIsEven(a.csr.mtvec);
  }

  lemma AfterIsEven(item: F.Item)
    requires Even(item.pc)
    ensures Even(F.After(item))
  {
    hide Even, Plus;
    EvenSteps(item.pc);
  }

  lemma JumpsEven(a: Arch, io: Io, target: Word, wr: Option<Write>)
    requires Even(a.pc) && Even(target)
    ensures EvenCommit(Jumps(a, io, target, wr))
  {
    hide Completes, Faults, EvenCommit;
    CompletesEven(a, io, target);
  }

  /** From an even pc every instruction goes to an even pc and none raises a misaligned fetch. */
  lemma OutcomeIsEven(e: Env, a: Arch, io: Io)
    requires a.csr.Valid() && EvenState(a)
    ensures EvenCommit(Outcome(e, a, io))
  {
    hide Even, F.ParseAt, View, Meaning, Breaks, Denied, Get, Sum, EvenBelow, Compute, Multiply, Holds, MayAccess,
      Isa.Aligned, Extract, StoreRam, AmoResult, F.After, InRam, RamIndex, Csr.Read, Completes, Faults, Jumps,
      DataAddress, CsrSource, WriteError, ReadAnswer, Flag, EvenCommit;
    var item := F.ParseAt(View(e, a.csr.pmp, a.csr.priv), a.pc);
    var m := Meaning(item);
    AfterIsEven(item);
    CompletesEven(a, io, F.After(item));
    FaultsEven(a);
    MeaningOffsets(item);
    match m {
      case Jal(rd, off) => EvenSum(a.pc, off); JumpsEven(a, io, Sum(a.pc, off), Some(Write(rd, F.After(item))));
      case Jalr(rd, rs1, imm) =>
        var t := Sum(Get(a.regs, rs1), imm);
        ClearedIsEven(t);
        JumpsEven(a, io, EvenBelow(t), Some(Write(rd, F.After(item))));
      case Branch(_, _, _, off) => EvenSum(a.pc, off); JumpsEven(a, io, Sum(a.pc, off), None);
      case Mret => NoTrapEven(Commit(a.csr.mepc, None, Csr.Mret, a.ram, None, true));
      case Zicsr(op, rd, csr, src) =>
        NoTrapEven(Commit(F.After(item), Some(Write(rd, Csr.Read(a.csr, io.counters, io.ext, csr))),
                          Csr.Access(csr, op, CsrSource(a, src)), a.ram, a.resv, true));
      case _ =>
    }
  }

  lemma NoTrapEven(o: Commit)
    requires Even(o.next) && !o.cmd.Take?
    ensures EvenCommit(o)
  {}

  lemma ExecuteKeepsEven(s: Csr.State, k: Csr.Counters, e: Csr.Ext, c: Csr.Command)
    requires s.Valid() && Even(s.mepc) && (c.Take? ==> Even(c.t.epc))
    ensures Even(Csr.Execute(s, k, e, c).mepc)
  {
    hide Even, Csr.MstatusWarl, Csr.WriteCfg, Csr.WriteAddr, Csr.CfgSlot, Csr.AddrIndex, Csr.NoTimeBit, Csr.EvenWord,
      Csr.NewValue, Csr.Read, Csr.TrapMstatus, Csr.MretMstatus, Csr.Mpp;
    if c.Access? { ClearedIsEven(Csr.NewValue(c.op, Csr.Read(s, k, e, c.a), c.src)); }
  }

  lemma StepKeepsEven(e: Env, a: Arch, io: Io)
    requires a.csr.Valid() && EvenState(a)
    ensures EvenState(Step(e, a, io))
  {
    hide Even, Outcome, Csr.Execute, Set;
    OutcomeIsEven(e, a, io);
    ExecuteKeepsEven(a.csr, io.counters, io.ext, Outcome(e, a, io).cmd);
  }

  /** Over every run from an even pc, no instruction raises the misaligned-fetch exception. */
  lemma {:induction false} NoMisalignedFetch(e: Env, a: Arch, ios: seq<Io>)
    requires a.csr.Valid() && EvenState(a)
    ensures EvenState(IsaRun(e, a, ios))
    ensures |IsaLog(e, a, ios)| == |ios|
    ensures forall k :: 0 <= k < |ios| ==> EvenEntry(IsaLog(e, a, ios)[k])
    decreases |ios|
  {
    hide Even, Step, Outcome, EvenCommit;
    if ios != [] {
      OutcomeIsEven(e, a, ios[0]);
      CommitEntry(e, a, ios[0]);
      StepKeepsEven(e, a, ios[0]);
      NoMisalignedFetch(e, Step(e, a, ios[0]), ios[1..]);
    }
  }

  /** The instruction is at an even pc, and if it traps it saves one and is no misaligned fetch. */
  predicate EvenEntry(n: Entry) { Even(n.pc) && (n.cmd.Take? ==> Even(n.cmd.t.epc) && n.cmd.t.cause != ZERO) }

  lemma CommitEntry(e: Env, a: Arch, io: Io)
    requires a.csr.Valid() && Even(a.pc) && EvenCommit(Outcome(e, a, io))
    ensures EvenEntry(IsaEntry(e, a, io))
  {
    hide Outcome, Even;
  }
}
