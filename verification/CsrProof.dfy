/** What every sequence of CSR writes, traps and returns keeps: the shape of mstatus, the trap
    stack, and locked PMP entries. */
module CsrProof {
  import opened Words
  import opened Pmp
  import opened Csr

  // ------------------------------------------------------------------------------------------
  // Shape of mstatus
  // ------------------------------------------------------------------------------------------

  predicate InMask(m: Word) { m.bits & !WMASK == 0 }

  predicate KnownPriv(p: Priv) { p == MACHINE || p == USER }

  /** mstatus has only its five fields, and every privilege level is machine or user. */
  predicate StatusOk(s: State) { InMask(s.mstatus) && KnownPriv(Mpp(s.mstatus)) && KnownPriv(s.priv) }

  lemma WarlInMask(m: Word, v: Word)
    requires InMask(m)
    ensures InMask(MstatusWarl(m, v))
  {}

  lemma WarlMpp(m: Word, v: Word)
    ensures KnownPriv(Mpp(MstatusWarl(m, v)))
  {
    var mpp := (((m.bits & !WMASK) | (v.bits & WMASK)) >> 11) & 3;
    if mpp == 1 || mpp == 2 {} else {}
  }

  lemma TrapInMask(m: Word, p: Priv)
    requires InMask(m)
    ensures InMask(TrapMstatus(m, p))
  {}

  lemma TrapStacks(m: Word, p: Priv)
    ensures Mpp(TrapMstatus(m, p)) == p && !Mie(TrapMstatus(m, p))
    ensures Mpie(TrapMstatus(m, p)) <==> Mie(m)
    ensures Mprv(TrapMstatus(m, p)) <==> Mprv(m)
  {
    if Mie(m) {} else {}
  }

  lemma MretInMask(m: Word)
    requires InMask(m)
    ensures InMask(MretMstatus(m))
  {}

  lemma MretUnstacks(m: Word)
    ensures Mpp(MretMstatus(m)) == USER && Mpie(MretMstatus(m))
    ensures Mie(MretMstatus(m)) <==> Mpie(m)
    ensures Mprv(MretMstatus(m)) <==> Mprv(m) && Mpp(m) == MACHINE
  {
    if Mpie(m) {} else {}
    if Mpp(m) == MACHINE {} else {}
  }

  lemma ExecuteKeepsStatus(s: State, k: Counters, e: Ext, c: Command)
    requires s.Valid() && StatusOk(s)
    ensures StatusOk(Execute(s, k, e, c))
  {
    hide InMask, Mpp, MstatusWarl, TrapMstatus, MretMstatus, WriteCfg, WriteAddr, NoTimeBit, EvenWord, NewValue, Read,
      CfgSlot, AddrIndex;
    match c {
      case Idle =>
      case Take(t) => TrapInMask(s.mstatus, s.priv); TrapStacks(s.mstatus, s.priv);
      case Mret => MretInMask(s.mstatus); MretUnstacks(s.mstatus);
      case Access(a, op, src) =>
        var v := NewValue(op, Read(s, k, e, a), src);
        WarlInMask(s.mstatus, v);
        WarlMpp(s.mstatus, v);
    }
  }

  lemma WarlRestores(m: Word, v: Word)
    requires InMask(m) && InMask(v) && KnownPriv(Mpp(v))
    ensures MstatusWarl(m, v) == v
  {
    KeepsLegal(m, v);
  }

  lemma KeepsLegal(m: Word, v: Word)
    requires InMask(m) && InMask(v)
    ensures (m.bits & !WMASK) | (v.bits & WMASK) == v.bits
  {}

  /** A trap changes MIE, MPIE and MPP only, and a return MPRV as well. */
  lemma StackFrame(m: Word, p: Priv)
    ensures (TrapMstatus(m, p).bits ^ m.bits) & !0x1888 == 0
    ensures (MretMstatus(m).bits ^ m.bits) & !0x2_1888 == 0
  {
    TrapFrame(m, p);
    MretFrame(m);
  }

  lemma TrapFrame(m: Word, p: Priv)
    ensures (TrapMstatus(m, p).bits ^ m.bits) & !0x1888 == 0
  {}

  lemma MretFrame(m: Word)
    ensures (MretMstatus(m).bits ^ m.bits) & !0x2_1888 == 0
  {}

  // ------------------------------------------------------------------------------------------
  // Runs
  // ------------------------------------------------------------------------------------------

  /** One clock of the CSR unit: a command, with the counters and lines it may read. */
  datatype Clock = Clock(c: Command, k: Counters, e: Ext)

  function RunAll(s: State, cs: seq<Clock>): (r: State)
    requires s.Valid()
    ensures r.Valid()
    decreases |cs|
  {
    if cs == [] then s else RunAll(Execute(s, cs[0].k, cs[0].e, cs[0].c), cs[1..])
  }

  predicate IsReset(s: State) {
    s.mstatus == ZERO && s.priv == MACHINE
  }

  lemma ResetStatusOk(s: State)
    requires IsReset(s)
    ensures StatusOk(s)
  {}

  /** The invariant is kept by every run. */
  lemma {:induction false} StatusOverRuns(s: State, cs: seq<Clock>)
    requires s.Valid() && StatusOk(s)
    ensures StatusOk(RunAll(s, cs))
    decreases |cs|
  {
    hide StatusOk, Execute;
    if cs != [] {
      ExecuteKeepsStatus(s, cs[0].k, cs[0].e, cs[0].c);
      StatusOverRuns(Execute(s, cs[0].k, cs[0].e, cs[0].c), cs[1..]);
    }
  }

  /** In every state of every run from reset, mstatus has no bits outside its mask, and MPP and the
      privilege are machine or user. */
  lemma StatusFromReset(s: State, cs: seq<Clock>)
    requires s.Valid() && IsReset(s)
    ensures StatusOk(RunAll(s, cs))
  {
    hide StatusOk;
    ResetStatusOk(s);
    StatusOverRuns(s, cs);
  }

  // ------------------------------------------------------------------------------------------
  // Handlers
  // ------------------------------------------------------------------------------------------

  /** A trap handler: CSR operations anywhere, and traps taken anywhere in it, each with a handler of its
      own and a return. */
  datatype Handler =
    | Done
    | Operate(clock: Clock, rest: Handler)
    | Nested(t: Trap, inner: Handler, rest: Handler)

  function RunHandler(s: State, h: Handler): (r: State)
    requires s.Valid()
    ensures r.Valid()
    decreases h
  {
    match h
    case Done => s
    case Operate(y, rest) => RunHandler(Execute(s, y.k, y.e, y.c), rest)
    case Nested(t, inner, rest) => RunHandler(Return(RunHandler(EnterTrap(s, t), inner)), rest)
  }

  predicate SameStack(m: Word, n: Word) { Mpp(m) == Mpp(n) && (Mpie(m) <==> Mpie(n)) }

  /** At its return the handler entered in state s leaves MPP and MPIE as it found them. */
  predicate LeavesStack(s: State, h: Handler)
    requires s.Valid()
  {
    SameStack(RunHandler(s, h).mstatus, s.mstatus)
  }

  /** Its own operations are no traps and no returns, and every trap taken in it is handled by a well-nested
      handler that leaves the stack as found. In between it may do what it likes to mstatus. */
  predicate WellNested(s: State, h: Handler)
    requires s.Valid()
    decreases h
  {
    match h
    case Done => true
    case Operate(y, rest) => (y.c.Idle? || y.c.Access?) && WellNested(Execute(s, y.k, y.e, y.c), rest)
    case Nested(t, inner, rest) =>
      var entered := EnterTrap(s, t);
      && WellNested(entered, inner) && LeavesStack(entered, inner)
      && WellNested(Return(RunHandler(entered, inner)), rest)
  }

  lemma AccessKeepsPriv(s: State, y: Clock)
    requires s.Valid() && (y.c.Idle? || y.c.Access?)
    ensures Execute(s, y.k, y.e, y.c).priv == s.priv
  {
    hide Read, NewValue, MstatusWarl, WriteCfg, WriteAddr, CfgSlot, AddrIndex, NoTimeBit, EvenWord;
  }

  /** A trap, a handler that leaves the stack as found, and a return lead back to the privilege of before. */
  lemma ReturnsToPriv(s: State, t: Trap, h: Handler)
    requires s.Valid() && StatusOk(s) && LeavesStack(EnterTrap(s, t), h) && StatusOk(RunHandler(EnterTrap(s, t), h))
    ensures var r := Return(RunHandler(EnterTrap(s, t), h));
      && r.priv == s.priv && (Mie(r.mstatus) <==> Mie(s.mstatus)) && Mpie(r.mstatus) && Mpp(r.mstatus) == USER
      && (s.priv != MACHINE ==> !Mprv(r.mstatus)) && StatusOk(r)
  {
    hide InMask, Mpp, Mpie, Mprv, Mie, MretMstatus, TrapMstatus;
    var ran := RunHandler(EnterTrap(s, t), h);
    TrapStacks(s.mstatus, s.priv);
    MretInMask(ran.mstatus);
    MretUnstacks(ran.mstatus);
  }

  /** A well-nested handler stays in machine mode, however its own traps nest. */
  lemma {:induction false} HandlerStaysMachine(s: State, h: Handler)
    requires s.Valid() && StatusOk(s) && s.priv == MACHINE && WellNested(s, h)
    ensures StatusOk(RunHandler(s, h)) && RunHandler(s, h).priv == MACHINE
    decreases h
  {
    hide StatusOk, Execute, LeavesStack, EnterTrap, Return;
    match h {
      case Done =>
      case Operate(y, rest) =>
        ExecuteKeepsStatus(s, y.k, y.e, y.c);
        AccessKeepsPriv(s, y);
        HandlerStaysMachine(Execute(s, y.k, y.e, y.c), rest);
      case Nested(t, inner, rest) =>
        EntersMachine(s, t);
        KeepsEntries(RunHandler(EnterTrap(s, t), inner));
        HandlerStaysMachine(EnterTrap(s, t), inner);
        ReturnsToPriv(s, t, inner);
        HandlerStaysMachine(Return(RunHandler(EnterTrap(s, t), inner)), rest);
    }
  }

  lemma KeepsEntries(s: State)
    requires s.Valid()
    ensures Return(s).Valid()
  {
    hide Mpp, MretMstatus;
  }

  lemma EntersMachine(s: State, t: Trap)
    requires s.Valid() && StatusOk(s)
    ensures EnterTrap(s, t).Valid() && StatusOk(EnterTrap(s, t)) && EnterTrap(s, t).priv == MACHINE
  {
    hide InMask, Mpp, TrapMstatus;
    TrapInMask(s.mstatus, s.priv);
    TrapStacks(s.mstatus, s.priv);
  }

  /** A trap, any well-nested handler that leaves MPP and MPIE as found, then a return restore the
      interrupted privilege and MIE, and MPRV survives only into machine mode. */
  lemma TrapRoundTrip(s: State, t: Trap, h: Handler)
    requires s.Valid() && StatusOk(s) && WellNested(EnterTrap(s, t), h) && LeavesStack(EnterTrap(s, t), h)
    ensures var r := Return(RunHandler(EnterTrap(s, t), h));
      && r.priv == s.priv && (Mie(r.mstatus) <==> Mie(s.mstatus)) && Mpie(r.mstatus) && Mpp(r.mstatus) == USER
      && (s.priv != MACHINE ==> !Mprv(r.mstatus)) && StatusOk(r)
  {
    hide StatusOk, Mpp, Mpie, Mprv, Mie, EnterTrap, Return, WellNested, LeavesStack;
    EntersMachine(s, t);
    HandlerStaysMachine(EnterTrap(s, t), h);
    ReturnsToPriv(s, t, h);
  }

  /** Handlers that save mstatus on entry and write it back before their return qualify, whatever they and
      the traps in them do in between: mstatus is exactly as found. */
  lemma RestoringLeavesStack(s: State, body: Handler)
    requires s.Valid() && StatusOk(s) && s.priv == MACHINE && WellNested(s, body)
    ensures WriteState(RunHandler(s, body), Addr(MSTATUS), s.mstatus).mstatus == s.mstatus
  {
    hide InMask, Mpp, MstatusWarl, WellNested;
    HandlerStaysMachine(s, body);
    WarlRestores(RunHandler(s, body).mstatus, s.mstatus);
  }
}
