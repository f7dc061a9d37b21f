/** LR and SC over whole runs of the interpreter, and so, by refinement, of the pipeline. */
module Reservation {
  import opened Words
  import opened Instr
  import F = Fetch
  import Csr
  import opened Isa
  import opened RefineTheorem
  import opened Refine

  function MeaningAt(e: Env, a: Arch): (r: Instr)
    requires a.csr.Valid()
  {
    Meaning(F.ParseAt(ArchView(e, a), a.pc))
  }

  predicate Transfers(a: Arch, m: Instr) {
    m.Jal? || m.Jalr? || (m.Branch? && Holds(m.cond, Get(a.regs, m.rs1), Get(a.regs, m.rs2)))
  }

  /** The step is a load-reserved at x that completes. */
  predicate LrAt(e: Env, a: Arch, io: Io, x: Word)
    requires a.csr.Valid()
  {
    var m := MeaningAt(e, a);
    m.Lr? && !Outcome(e, a, io).cmd.Take? && DataAddress(a.regs, m) == x
  }

  /** The step is no trap, return, control transfer, other LR, or SC to the reserved address. */
  predicate Undisturbing(e: Env, a: Arch, io: Io)
    requires a.csr.Valid()
  {
    var m := MeaningAt(e, a);
    var o := Outcome(e, a, io);
    && !o.cmd.Take? && !o.cmd.Mret? && !Transfers(a, m) && !m.Lr?
    && !(m.Sc? && a.resv == Some(DataAddress(a.regs, m)))
  }

  lemma CompletedResv(a: Arch, io: Io)
    ensures forall next, wr, ram, resv ::
      var o := Completes(a, io, next, wr, ram, resv);
      !o.cmd.Mret? && !o.cmd.Access? && o.resv == (if o.cmd.Take? then None else resv)
  {
    hide Csr.PendingIrq, IrqTarget;
  }

  lemma FaultedResv(a: Arch)
    ensures forall cause, tval :: Faults(a, cause, tval).cmd.Take? && Faults(a, cause, tval).resv.None?
  {
    hide TrapBase;
  }

  /** A step leaves x reserved exactly if it is an LR there, or x was reserved and nothing disturbs it. */
  lemma StepReserves(e: Env, a: Arch, io: Io, x: Word)
    requires a.csr.Valid()
    ensures Outcome(e, a, io).resv == Some(x) <==> LrAt(e, a, io, x) || (Undisturbing(e, a, io) && a.resv == Some(x))
  {
    hide F.ParseAt, View, Meaning, Breaks, Denied, Get, Sum, EvenBelow, Compute, Multiply, Holds, IsOdd, MayAccess,
      Isa.Aligned, Extract, StoreRam, AmoResult, F.After, InRam, RamIndex, Csr.Read, Completes, Faults, DataAddress,
      CsrSource, WriteError, ReadAnswer, Flag;
    CompletedResv(a, io);
    FaultedResv(a);
  }

  /** No step of the run disturbs a reservation. */
  predicate Calm(e: Env, a: Arch, ios: seq<Io>)
    requires a.csr.Valid()
    decreases |ios|
  {
    ios == [] || (Undisturbing(e, a, ios[0]) && Calm(e, Step(e, a, ios[0]), ios[1..]))
  }

  /** Some step of the run is an LR at x after which nothing disturbs. */
  predicate ReservedSince(e: Env, a: Arch, ios: seq<Io>, x: Word)
    requires a.csr.Valid()
    decreases |ios|
  {
    ios != [] &&
    ((LrAt(e, a, ios[0], x) && Calm(e, Step(e, a, ios[0]), ios[1..]))
        || ReservedSince(e, Step(e, a, ios[0]), ios[1..], x))
  }

  lemma StepResv(e: Env, a: Arch, io: Io)
    requires a.csr.Valid()
    ensures Step(e, a, io).resv == Outcome(e, a, io).resv
  {
    hide Outcome, Csr.Execute, Set;
  }

  lemma {:induction false} ReservationHistory(e: Env, a: Arch, ios: seq<Io>, x: Word)
    requires a.csr.Valid()
    ensures IsaRun(e, a, ios).resv == Some(x) <==> (a.resv == Some(x) && Calm(e, a, ios)) || ReservedSince(e, a, ios, x)
    decreases |ios|
  {
    hide Step, Outcome, LrAt, Undisturbing;
    if ios != [] {
      StepReserves(e, a, ios[0], x);
      StepResv(e, a, ios[0]);
      ReservationHistory(e, Step(e, a, ios[0]), ios[1..], x);
    }
  }

  lemma CompletedWrite(a: Arch, io: Io)
    ensures forall next, wr, ram, resv ::
      Completes(a, io, next, wr, ram, resv).wr == wr && Completes(a, io, next, wr, ram, resv).ram == ram
    ensures forall cause, tval :: Faults(a, cause, tval).wr.None? && Faults(a, cause, tval).ram == a.ram
  {
    hide Csr.PendingIrq, IrqTarget, TrapBase;
  }

  lemma Flags()
    ensures Flag(false) == ZERO && Flag(true) != ZERO
  {}

  /** An SC that completes returns zero exactly if its address is reserved, and writes memory exactly
      then: it stores its operand there, and otherwise memory is unchanged. */
  lemma ScWritesIffZero(e: Env, a: Arch, io: Io)
    requires a.csr.Valid() && MeaningAt(e, a).Sc? && Outcome(e, a, io).wr.Some?
    ensures var m, o := MeaningAt(e, a), Outcome(e, a, io); var addr := DataAddress(a.regs, m);
      && (o.wr.value.v == ZERO <==> a.resv == Some(addr))
      && o.ram == if o.wr.value.v == ZERO then StoreRam(a.ram, W, addr, Get(a.regs, m.rs2)) else a.ram
  {
    hide F.ParseAt, View, Meaning, Breaks, Denied, Get, MayAccess, Isa.Aligned, StoreRam, F.After, Completes, Faults,
      DataAddress, WriteError, Flag;
    CompletedWrite(a, io);
    Flags();
  }

  /** Over every run: an SC succeeds exactly if an LR to the same address precedes it with no trap,
      return, control transfer, other LR or successful SC in between. */
  lemma ScSucceedsAfterLr(e: Env, a: Arch, ios: seq<Io>, io: Io)
    requires a.csr.Valid() && a.resv.None?
    requires var b := IsaRun(e, a, ios); MeaningAt(e, b).Sc? && Outcome(e, b, io).wr.Some?
    ensures var b := IsaRun(e, a, ios); var addr := DataAddress(b.regs, MeaningAt(e, b));
      Outcome(e, b, io).wr.value.v == ZERO <==> ReservedSince(e, a, ios, addr)
  {
    hide Outcome, MeaningAt, DataAddress, IsaRun, ReservedSince, Calm;
    var b := IsaRun(e, a, ios);
    ScWritesIffZero(e, b, io);
    ReservationHistory(e, a, ios, DataAddress(b.regs, MeaningAt(e, b)));
  }
}
