/** Reading a 64-bit counter through its two 32-bit halves. */
module CounterRead {
  import opened Words
  import opened Csr
  import opened Digits

  // ------------------------------------------------------------------------------------------
  // What a counter does in a clock
  // ------------------------------------------------------------------------------------------

  predicate AllOnes(w: Word) { w.bits == 0xFFFF_FFFF }

  function Carried(hi: Word, lo: Word): (r: Word) { if AllOnes(lo) then Plus(hi, 1) else hi }

  lemma TickHalves(c: Count)
    ensures Lo(PlusOne(c)) == Plus(Lo(c), 1) && Hi(PlusOne(c)) == Carried(Hi(c), Lo(c))
  {
    TickLow(c);
    if AllOnes(Lo(c)) { TickCarry(c); } else { TickNoCarry(c); }
  }

  lemma TickLow(c: Count)
    ensures Lo(PlusOne(c)) == Plus(Lo(c), 1)
  {}

  lemma TickCarry(c: Count)
    requires AllOnes(Lo(c))
    ensures Hi(PlusOne(c)) == Plus(Hi(c), 1)
  {}

  lemma TickNoCarry(c: Count)
    requires !AllOnes(Lo(c))
    ensures Hi(PlusOne(c)) == Hi(c)
  {}

  lemma SetHalves(c: Count, w: Word)
    ensures Lo(SetLo(c, w)) == w && Hi(SetLo(c, w)) == Hi(c)
    ensures Hi(SetHi(c, w)) == w && Lo(SetHi(c, w)) == Lo(c)
  {
    SetLoLo(c, w);
    SetLoHi(c, w);
    SetHiHi(c, w);
    SetHiLo(c, w);
  }

  lemma SetLoLo(c: Count, w: Word)
    ensures Lo(SetLo(c, w)) == w
  {}

  lemma SetLoHi(c: Count, w: Word)
    ensures Hi(SetLo(c, w)) == Hi(c)
  {}

  lemma SetHiHi(c: Count, w: Word)
    ensures Hi(SetHi(c, w)) == w
  {}

  lemma SetHiLo(c: Count, w: Word)
    ensures Lo(SetHi(c, w)) == Lo(c)
  {}

  // ------------------------------------------------------------------------------------------
  // The two counters in a clock
  // ------------------------------------------------------------------------------------------

  datatype Which = Cycle | Instret

  function Of(k: Counters, w: Which): (c: Count) { if w.Cycle? then k.mcycle else k.minstret }

  function LowNumber(w: Which): (n: bv12) { if w.Cycle? then MCYCLE else MINSTRET }

  function HighNumber(w: Which): (n: bv12) { if w.Cycle? then MCYCLEH else MINSTRETH }

  predicate Running(s: State, w: Which) { !Enabled(s.mcountinhibit, if w.Cycle? then 1 else 4) }

  predicate Ticks(s: State, i: CsrIn, w: Which) { Running(s, w) && (w.Cycle? || i.retire) }

  /** The counter after a clock that does not address it. */
  function Undisturbed(s: State, k: Counters, i: CsrIn, w: Which): (c: Count) {
    if Ticks(s, i, w) then PlusOne(Of(k, w)) else Of(k, w)
  }

  predicate Leaves(c: Command, w: Which) {
    c.Access? ==> c.a.bits != LowNumber(w) && c.a.bits != HighNumber(w)
  }

  /** CSRR: set no bits. */
  function ReadOnly(n: bv12): (c: Command) { Access(Addr(n), SetBits, ZERO) }

  predicate ReadsLow(i: CsrIn, w: Which) { i.cmd == ReadOnly(LowNumber(w)) }

  predicate ReadsHigh(i: CsrIn, w: Which) { i.cmd == ReadOnly(HighNumber(w)) }

  lemma SetNoBits(w: Word)
    ensures NewValue(SetBits, w, ZERO) == w
  {}

  lemma CounterAfter(s: State, k: Counters, i: CsrIn, w: Which)
    requires s.Valid()
    ensures Leaves(i.cmd, w) ==> Of(NextCounters(s, k, i), w) == Undisturbed(s, k, i, w)
    ensures ReadsLow(i, w) ==> Of(NextCounters(s, k, i), w) == SetLo(Undisturbed(s, k, i, w), Lo(Of(k, w)))
    ensures ReadsHigh(i, w) ==> Of(NextCounters(s, k, i), w) == SetHi(Undisturbed(s, k, i, w), Hi(Of(k, w)))
    ensures Read(s, k, i.ext, Addr(LowNumber(w))) == Lo(Of(k, w))
    ensures Read(s, k, i.ext, Addr(HighNumber(w))) == Hi(Of(k, w))
  {
    hide Lo, Hi, SetLo, SetHi, PlusOne, Plus, Enabled, PackBytes, MipValue, CfgSlot, AddrIndex, NewValue;
    SetNoBits(Lo(Of(k, w)));
    SetNoBits(Hi(Of(k, w)));
  }

  /** Every CSR operation writes: a CSRR of one half of a counter puts that half back as it was read,
      while the other half takes the carry of this clock. */
  lemma ReadWritesBack(s: State, k: Counters, i: CsrIn, w: Which)
    requires s.Valid()
    ensures var b, c := Of(k, w), Of(NextCounters(s, k, i), w); var t := Ticks(s, i, w);
      && (ReadsLow(i, w) ==> Lo(c) == Lo(b) && Hi(c) == if t then Carried(Hi(b), Lo(b)) else Hi(b))
      && (ReadsHigh(i, w) ==> Hi(c) == Hi(b) && Lo(c) == if t then Plus(Lo(b), 1) else Lo(b))
  {
    hide Lo, Hi, SetLo, SetHi, PlusOne, Plus, Ticks, AllOnes, NextCounters;
    CounterAfter(s, k, i, w);
    TickHalves(Of(k, w));
    SetHalves(Undisturbed(s, k, i, w), Lo(Of(k, w)));
    SetHalves(Undisturbed(s, k, i, w), Hi(Of(k, w)));
  }

  /** So a read of the low half spoils the count exactly if it ticks in that clock, losing one or
      gaining 2^32, and a read of the high half exactly if the low half carries then. */
  lemma ReadingDisturbs(s: State, k: Counters, i: CsrIn, w: Which)
    requires s.Valid()
    ensures var c, d := Of(NextCounters(s, k, i), w), Undisturbed(s, k, i, w); var t := Ticks(s, i, w);
      && (ReadsLow(i, w) ==> (c == d <==> !t))
      && (ReadsHigh(i, w) ==> (c == d <==> !(t && AllOnes(Lo(Of(k, w))))))
  {
    hide Lo, Hi, PlusOne, Plus, NextCounters, Ticks, AllOnes;
    ReadWritesBack(s, k, i, w);
    TickHalves(Of(k, w));
    NoFixpoint(Lo(Of(k, w)));
    NoFixpoint(Hi(Of(k, w)));
    var c, d := Of(NextCounters(s, k, i), w), Undisturbed(s, k, i, w);
    if Lo(c) == Lo(d) && Hi(c) == Hi(d) { SameHalves(c, d); }
  }

  lemma NoFixpoint(w: Word)
    ensures Plus(w, 1) != w
  {}

  lemma SameHalves(c: Count, d: Count)
    requires Lo(c) == Lo(d) && Hi(c) == Hi(d)
    ensures c == d
  {}

  // ------------------------------------------------------------------------------------------
  // The number a counter holds
  // ------------------------------------------------------------------------------------------

  const LAST := 0xFFFF_FFFF

  lemma AllOnesIsLast(w: Word)
    ensures Number(w) == LAST <==> AllOnes(w)
  {
    hide Number;
    LastNumber();
    if Number(w) == LAST { SameNumber(w, Word(0xFFFF_FFFF)); }
  }

  /** A running 64-bit counter by the numbers of its halves. */
  datatype Halves = Halves(hi: nat, lo: nat)
  {
    predicate Valid() { hi < TWO32 && lo < TWO32 }

    function Value(): (v: nat) { hi * TWO32 + lo }

    /** After n ticks without a read. */
    function Later(n: nat): (r: Halves)
      requires Valid() && n < TWO32
      ensures r.Valid()
    {
      if lo + n < TWO32 then Halves(hi, lo + n) else Halves((hi + 1) % TWO32, lo + n - TWO32)
    }

    /** After a tick that reads the low half, and one that reads the high half. */
    function AfterLow(): (r: Halves)
      requires Valid()
      ensures r.Valid()
    {
      if lo == LAST then Halves((hi + 1) % TWO32, lo) else this
    }

    function AfterHigh(): (r: Halves)
      requires Valid()
      ensures r.Valid()
    {
      if lo == LAST then Halves(hi, 0) else Halves(hi, lo + 1)
    }
  }

  function HalvesOf(c: Count): (h: Halves) { Halves(Number(Hi(c)), Number(Lo(c))) }

  lemma HalvesAreValid(c: Count)
    ensures HalvesOf(c).Valid()
  {
    hide Number, Hi, Lo;
    AllOnesIsLast(Hi(c));
    AllOnesIsLast(Lo(c));
  }

  /** One clock of the 64-bit registers, in numbers: a tick, a read of the low half and a read of the
      high half. */
  lemma ClockInNumbers(s: State, k: Counters, i: CsrIn, w: Which)
    requires s.Valid()
    ensures HalvesOf(Of(k, w)).Valid()
    ensures var b, c := HalvesOf(Of(k, w)), HalvesOf(Of(NextCounters(s, k, i), w));
      && (Leaves(i.cmd, w) ==> c == b.Later(if Ticks(s, i, w) then 1 else 0))
      && (ReadsLow(i, w) && Ticks(s, i, w) ==>
           c == b.AfterLow() && b.lo == Number(Read(s, k, i.ext, i.cmd.a)))
      && (ReadsHigh(i, w) && Ticks(s, i, w) ==>
           c == b.AfterHigh() && b.hi == Number(Read(s, k, i.ext, i.cmd.a)))
  {
    hide Number, Hi, Lo, Plus, NextCounters, Ticks, AllOnes, PlusOne, SetLo, SetHi, Read, Leaves;
    var b := Of(k, w);
    HalvesAreValid(b);
    CounterAfter(s, k, i, w);
    ReadWritesBack(s, k, i, w);
    TickHalves(b);
    AllOnesIsLast(Lo(b));
    AllOnesIsLast(Hi(b));
    NextNumber(Lo(b));
    NextNumber(Hi(b));
  }

  // ------------------------------------------------------------------------------------------
  // Stretches of clocks
  // ------------------------------------------------------------------------------------------

  function RunState(s: State, k: Counters, xs: seq<CsrIn>): (r: State)
    requires s.Valid()
    ensures r.Valid()
    decreases |xs|
  {
    if xs == [] then s
    else RunState(Execute(s, k, xs[0].ext, xs[0].cmd), NextCounters(s, k, xs[0]), xs[1..])
  }

  function RunCounters(s: State, k: Counters, xs: seq<CsrIn>): (r: Counters)
    requires s.Valid()
    decreases |xs|
  {
    if xs == [] then k
    else RunCounters(Execute(s, k, xs[0].ext, xs[0].cmd), NextCounters(s, k, xs[0]), xs[1..])
  }

  /** The clocks of a stretch in which a running counter ticks. */
  function TicksIn(xs: seq<CsrIn>, w: Which): (n: nat)
    ensures n <= |xs|
    decreases |xs|
  {
    if xs == [] then 0 else (if w.Cycle? || xs[0].retire then 1 else 0) + TicksIn(xs[1..], w)
  }

  predicate KeepsRunning(c: Command) { c.Access? ==> c.a.bits != MCOUNTINHIBIT }

  /** Nothing in the stretch addresses the counter or stops it. */
  predicate Quiet(xs: seq<CsrIn>, w: Which) {
    forall j :: 0 <= j < |xs| ==> Leaves(xs[j].cmd, w) && KeepsRunning(xs[j].cmd)
  }

  lemma StillRunning(s: State, k: Counters, i: CsrIn, w: Which)
    requires s.Valid() && Running(s, w) && KeepsRunning(i.cmd)
    ensures Running(Execute(s, k, i.ext, i.cmd), w)
  {
    hide Enabled, Read, NewValue, MstatusWarl, WriteCfg, WriteAddr, CfgSlot, AddrIndex, NoTimeBit, EvenWord,
      TrapMstatus, MretMstatus, Mpp;
  }

  lemma LaterAdds(h: Halves, m: nat, n: nat)
    requires h.Valid() && m + n < TWO32
    ensures h.Later(m).Later(n) == h.Later(m + n)
  {}

  /** Over any stretch of clocks that leaves it alone, a counter advances by its ticks. */
  lemma {:induction false} WaitIsLater(s: State, k: Counters, xs: seq<CsrIn>, w: Which)
    requires s.Valid() && Running(s, w) && Quiet(xs, w) && TicksIn(xs, w) < TWO32
    ensures Running(RunState(s, k, xs), w) && HalvesOf(Of(k, w)).Valid()
    ensures HalvesOf(Of(RunCounters(s, k, xs), w)) == HalvesOf(Of(k, w)).Later(TicksIn(xs, w))
    decreases |xs|
  {
    hide Execute, NextCounters, HalvesOf, Running, Leaves, KeepsRunning, Halves.Later;
    HalvesAreValid(Of(k, w));
    var b := HalvesOf(Of(k, w));
    if xs == [] {
      LaterNone(b);
    } else {
      var x, s1, k1 := xs[0], Execute(s, k, xs[0].ext, xs[0].cmd), NextCounters(s, k, xs[0]);
      StillRunning(s, k, x, w);
      ClockInNumbers(s, k, x, w);
      WaitIsLater(s1, k1, xs[1..], w);
      LaterAdds(b, if Ticks(s, x, w) then 1 else 0, TicksIn(xs[1..], w));
    }
  }

  lemma LaterNone(h: Halves)
    requires h.Valid()
    ensures h.Later(0) == h
  {}

  // ------------------------------------------------------------------------------------------
  // The software loop
  // ------------------------------------------------------------------------------------------

  /** The counter as software sees it: it ticks, and ticks in the clock of each read. */
  class Counter {
    var now: Halves

    constructor (start: Halves)
      requires start.Valid()
      ensures now == start
    {
      now := start;
    }

    method Wait(n: nat)
      requires now.Valid() && n < TWO32
      modifies this
      ensures now == old(now).Later(n)
    {
      now := now.Later(n);
    }

    method ReadLow() returns (v: nat)
      requires now.Valid()
      modifies this
      ensures v == old(now).lo && now == old(now).AfterLow()
    {
      v, now := now.lo, now.AfterLow();
    }

    method ReadHigh() returns (v: nat)
      requires now.Valid()
      modifies this
      ensures v == old(now).hi && now == old(now).AfterHigh()
    {
      v, now := now.hi, now.AfterHigh();
    }
  }

  /** Ticks between the three reads of each pass of the loop. */
  datatype Gaps = Gaps(before: nat, middle: nat, after: nat)

  /** One pass takes under 2^31 ticks. */
  predicate Brisk(g: Gaps) { g.before + g.middle + g.after + 3 < TWO32 / 2 }

  /** The three reads of one pass, and the counter after it. */
  datatype Pass = Pass(hi0: nat, low: Halves, hi1: nat, end: Halves)

  function PassFrom(c: Halves, g: Gaps): (r: Pass)
    requires c.Valid() && Brisk(g)
  {
    var c0 := c.Later(g.before);
    var c1 := c0.AfterHigh().Later(g.middle);
    var c2 := c1.AfterLow().Later(g.after);
    Pass(c0.hi, c1, c2.hi, c2.AfterHigh())
  }

  /** The clocks of one pass of the loop: three CSRR and what runs between them. */
  datatype Stretch = Stretch(before: seq<CsrIn>, x0: CsrIn, middle: seq<CsrIn>, x1: CsrIn, after: seq<CsrIn>, x2: CsrIn)
  {
    function Spans(w: Which): (g: Gaps) {
      Gaps(TicksIn(before, w), TicksIn(middle, w), TicksIn(after, w))
    }

    predicate IsPass(w: Which) {
      && Quiet(before, w) && Quiet(middle, w) && Quiet(after, w)
      && ReadsHigh(x0, w) && ReadsLow(x1, w) && ReadsHigh(x2, w) && x0.retire && x1.retire && x2.retire
    }
  }

  /** The CSR unit: state and counters. */
  datatype Unit = Unit(s: State, k: Counters)
  {
    ghost predicate Valid() { s.Valid() }

    function After(xs: seq<CsrIn>): (u: Unit)
      requires s.Valid()
      ensures u.Valid()
    {
      Unit(RunState(s, k, xs), RunCounters(s, k, xs))
    }

    function Reads(x: CsrIn): (n: nat)
      requires s.Valid() && x.cmd.Access?
    {
      Number(Read(s, k, x.ext, x.cmd.a))
    }

    function Counts(w: Which): (h: Halves) { HalvesOf(Of(k, w)) }
  }

  lemma OneClock(s: State, k: Counters, x: CsrIn)
    requires s.Valid()
    ensures RunState(s, k, [x]) == Execute(s, k, x.ext, x.cmd) && RunCounters(s, k, [x]) == NextCounters(s, k, x)
  {
    hide Execute, NextCounters;
    var rest := [x][1..];
    assert rest == [];
    assert RunState(s, k, [x]) == RunState(Execute(s, k, x.ext, x.cmd), NextCounters(s, k, x), rest);
    assert RunCounters(s, k, [x]) == RunCounters(Execute(s, k, x.ext, x.cmd), NextCounters(s, k, x), rest);
  }

  lemma OneRead(u: Unit, x: CsrIn, w: Which)
    requires u.Valid() && Running(u.s, w) && x.retire && (ReadsLow(x, w) || ReadsHigh(x, w))
    ensures var v := u.After([x]);
      && Running(v.s, w) && u.Counts(w).Valid()
      && (ReadsLow(x, w) ==> v.Counts(w) == u.Counts(w).AfterLow() && u.Reads(x) == u.Counts(w).lo)
      && (ReadsHigh(x, w) ==> v.Counts(w) == u.Counts(w).AfterHigh() && u.Reads(x) == u.Counts(w).hi)
  {
    hide Execute, NextCounters, HalvesOf, Running, Read, Number, RunState, RunCounters;
    assert KeepsRunning(x.cmd);
    OneClock(u.s, u.k, x);
    StillRunning(u.s, u.k, x, w);
    ClockInNumbers(u.s, u.k, x, w);
  }

  lemma OneWait(u: Unit, xs: seq<CsrIn>, w: Which)
    requires u.Valid() && Running(u.s, w) && Quiet(xs, w) && TicksIn(xs, w) < TWO32
    ensures var v := u.After(xs);
      Running(v.s, w) && u.Counts(w).Valid() && v.Counts(w) == u.Counts(w).Later(TicksIn(xs, w))
  {
    hide RunState, RunCounters, HalvesOf, Running, Quiet, TicksIn;
    WaitIsLater(u.s, u.k, xs, w);
  }

  /** In the registers, over any clocks between them, the three CSRR of a pass read what a pass over the
      numbers reads. */
  lemma PassInTheRegisters(u: Unit, c: Stretch, w: Which)
    requires u.Valid() && Running(u.s, w) && c.IsPass(w) && Brisk(c.Spans(w))
    ensures u.Counts(w).Valid()
    ensures var p := PassFrom(u.Counts(w), c.Spans(w));
      var u0 := u.After(c.before);
      var u1 := u0.After([c.x0]).After(c.middle);
      var u2 := u1.After([c.x1]).After(c.after);
      && u0.Reads(c.x0) == p.hi0 && u1.Reads(c.x1) == p.low.lo && u2.Reads(c.x2) == p.hi1
      && u1.Counts(w) == p.low && u2.After([c.x2]).Counts(w) == p.end && Running(u2.After([c.x2]).s, w)
  {
    hide Unit.After, Unit.Reads, Unit.Counts, Running, Quiet, TicksIn, Halves.Later, Halves.AfterLow,
      Halves.AfterHigh;
    var u0 := u.After(c.before);
    var u1 := u0.After([c.x0]).After(c.middle);
    var u2 := u1.After([c.x1]).After(c.after);
    OneWait(u, c.before, w);
    OneRead(u0, c.x0, w);
    OneWait(u0.After([c.x0]), c.middle, w);
    OneRead(u1, c.x1, w);
    OneWait(u1.After([c.x1]), c.after, w);
    OneRead(u2, c.x2, w);
  }

  /** If the two high halves agree, they are the high half at the read of the low one: a pass carries at
      most three times, so it cannot come back to the same high half, even over the top of the counter. */
  lemma PassIsConsistent(c: Halves, g: Gaps)
    requires c.Valid() && Brisk(g)
    ensures var p := PassFrom(c, g); p.hi0 == p.hi1 ==> p.low.hi == p.hi1
  {}

  /** If they do not, the counter has just carried, and the next pass cannot meet another carry. */
  lemma RetrySucceeds(c: Halves, g: Gaps, h: Gaps)
    requires c.Valid() && Brisk(g) && Brisk(h)
    requires PassFrom(c, g).hi0 != PassFrom(c, g).hi1
    ensures PassFrom(c, g).end.Valid()
    ensures var p := PassFrom(PassFrom(c, g).end, h); p.hi0 == p.hi1
  {
    CarriedIsLow(c, g);
    LowDoesNotCarry(PassFrom(c, g).end, h);
  }

  /** A pass that met a carry ends with its low half under 2^31. */
  lemma CarriedIsLow(c: Halves, g: Gaps)
    requires c.Valid() && Brisk(g) && PassFrom(c, g).hi0 != PassFrom(c, g).hi1
    ensures PassFrom(c, g).end.Valid() && PassFrom(c, g).end.lo < TWO32 / 2
  {}

  lemma LowDoesNotCarry(c: Halves, g: Gaps)
    requires c.Valid() && Brisk(g) && c.lo < TWO32 / 2
    ensures PassFrom(c, g).hi0 == PassFrom(c, g).hi1
  {}

  /** The CSR unit after a pass, and at its read of the low half. */
  function AtLow(u: Unit, c: Stretch): (v: Unit)
    requires u.Valid()
    ensures v.Valid()
  {
    u.After(c.before).After([c.x0]).After(c.middle)
  }

  function AfterPass(u: Unit, c: Stretch): (v: Unit)
    requires u.Valid()
    ensures v.Valid()
  {
    AtLow(u, c).After([c.x1]).After(c.after).After([c.x2])
  }

  /** What a pass leaves in the three variables of the loop. */
  function PassReads(u: Unit, c: Stretch, w: Which): (r: (nat, nat, nat))
    requires u.Valid() && c.IsPass(w)
  {
    var v := AtLow(u, c);
    (u.After(c.before).Reads(c.x0), v.Reads(c.x1), v.After([c.x1]).After(c.after).Reads(c.x2))
  }

  /** The loop over the CSR unit, with any clocks between the reads: if the high halves of the first pass
      agree its value is the counter at its low-half read, and otherwise those of a second pass agree and
      its value is the counter at that pass's low-half read. */
  lemma LoopInTheRegisters(u: Unit, c: Stretch, d: Stretch, w: Which)
    requires u.Valid() && Running(u.s, w)
    requires c.IsPass(w) && d.IsPass(w) && Brisk(c.Spans(w)) && Brisk(d.Spans(w))
    ensures var (hi0, lo, hi1) := PassReads(u, c, w);
      if hi0 == hi1 then hi1 * TWO32 + lo == AtLow(u, c).Counts(w).Value()
      else
        var v := AfterPass(u, c);
        var (hi2, lo1, hi3) := PassReads(v, d, w);
        hi2 == hi3 && hi3 * TWO32 + lo1 == AtLow(v, d).Counts(w).Value()
  {
    hide Unit.After, Unit.Reads, Unit.Counts, Running, PassFrom, Brisk, Stretch.IsPass, Stretch.Spans;
    PassInTheRegisters(u, c, w);
    PassIsConsistent(u.Counts(w), c.Spans(w));
    if PassReads(u, c, w).0 != PassReads(u, c, w).2 {
      RetrySucceeds(u.Counts(w), c.Spans(w), d.Spans(w));
      PassInTheRegisters(AfterPass(u, c), d, w);
      PassIsConsistent(AfterPass(u, c).Counts(w), d.Spans(w));
    }
  }

  /** The body of the loop. */
  method ReadOnce(c: Counter, g: Gaps) returns (hi0: nat, lo: nat, hi1: nat)
    requires c.now.Valid() && Brisk(g)
    modifies c
    ensures var p := PassFrom(old(c.now), g); hi0 == p.hi0 && lo == p.low.lo && hi1 == p.hi1 && c.now == p.end
  {
    c.Wait(g.before);
    hi0 := c.ReadHigh();
    c.Wait(g.middle);
    lo := c.ReadLow();
    c.Wait(g.after);
    hi1 := c.ReadHigh();
  }

  lemma PassIsValid(c: Halves, g: Gaps)
    requires c.Valid() && Brisk(g)
    ensures PassFrom(c, g).end.Valid()
  {}

  /** The retry loop: it returns exactly the counter at its last read of the low half, and makes at
      most two passes, if a pass takes under 2^31 ticks; the counter may even wrap. */
  method ReadCounter64(c: Counter, gaps: nat -> Gaps) returns (v: nat, passes: nat)
    requires c.now.Valid() && forall k :: Brisk(gaps(k))
    modifies c
    ensures passes == 1 || passes == 2
    ensures var p := PassFrom(old(c.now), gaps(0));
      v == (if passes == 1 then p.low else PassFrom(p.end, gaps(1)).low).Value()
    ensures passes == 1 <==> PassFrom(old(c.now), gaps(0)).hi0 == PassFrom(old(c.now), gaps(0)).hi1
  {
    hide PassFrom, Brisk;
    ghost var start := c.now;
    ghost var first := PassFrom(start, gaps(0));
    PassIsValid(start, gaps(0));
    PassIsConsistent(start, gaps(0));
    ghost var second := PassFrom(first.end, gaps(1));
    if first.hi0 != first.hi1 {
      RetrySucceeds(start, gaps(0), gaps(1));
      PassIsConsistent(first.end, gaps(1));
    }
    passes := 0;
    var hi0, lo, hi1 := 0, 0, 1;
    while hi0 != hi1
      invariant passes <= 2
      invariant passes == 0 ==> c.now == start && hi0 != hi1
      invariant passes == 1 ==> c.now == first.end && hi0 == first.hi0 && hi1 == first.hi1 && lo == first.low.lo
      invariant passes == 2 ==> first.hi0 != first.hi1 && hi0 == second.hi0 && hi1 == second.hi1 && lo == second.low.lo
      decreases 2 - passes
    {
      hi0, lo, hi1 := ReadOnce(c, gaps(passes));
      passes := passes + 1;
    }
    v := hi1 * TWO32 + lo;
  }
}
