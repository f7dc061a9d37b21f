/** The machine-mode CSR unit: trap stack, privilege, PMP registers and the two 64-bit counters. */
module Csr {
  import opened Words
  import opened Pmp

  datatype Count = Count(bits: bv64)

  datatype Addr = Addr(bits: bv12)

  datatype CsrOp = NoOp | Write | SetBits | ClearBits

  /** External interrupt lines: software, timer, external. */
  datatype Ext = Ext(msip: bool, mtip: bool, meip: bool)

  datatype Trap = Trap(cause: Word, tval: Word, epc: Word)

  const ENTRIES := 8

  /** Registers that only CSR instructions, traps and mret change. */
  datatype State = State(mstatus: Word, mie: Word, mtvec: Word, mcounteren: Word, mscratch: Word,
                         mepc: Word, mcause: Word, mtval: Word, mcountinhibit: Word,
                         priv: Priv, pmp: Regions)
  {
    ghost predicate Valid() { pmp.Valid() && |pmp.cfg| == ENTRIES }
  }

  datatype Counters = Counters(mcycle: Count, minstret: Count)

  // CSR numbers
  const MSTATUS: bv12 := 0x300
  const MISA: bv12 := 0x301
  const MIE: bv12 := 0x304
  const MTVEC: bv12 := 0x305
  const MCOUNTEREN: bv12 := 0x306
  const MCOUNTINHIBIT: bv12 := 0x320
  const MSCRATCH: bv12 := 0x340
  const MEPC: bv12 := 0x341
  const MCAUSE: bv12 := 0x342
  const MTVAL: bv12 := 0x343
  const MIP: bv12 := 0x344
  const MCYCLE: bv12 := 0xB00
  const MINSTRET: bv12 := 0xB02
  const MCYCLEH: bv12 := 0xB80
  const MINSTRETH: bv12 := 0xB82
  const CYCLE: bv12 := 0xC00
  const INSTRET: bv12 := 0xC02
  const CYCLEH: bv12 := 0xC80
  const INSTRETH: bv12 := 0xC82

  /** Registers the CSR unit has and this model has not: triggers, and the HPM counters and events. */
  predicate IsUnmodelled(n: bv12) {
    || (0x7A0 <= n && n <= 0x7A4)
    || (0xB03 <= n && n <= 0xB1F) || (0xB83 <= n && n <= 0xB9F)
    || (0xC03 <= n && n <= 0xC1F) || (0xC83 <= n && n <= 0xC9F) || (0x323 <= n && n <= 0x33F)
  }

  // ------------------------------------------------------------------------------------------
  // mstatus
  // ------------------------------------------------------------------------------------------

  /** MIE, MPIE, MPP, MPRV, TW */
  const WMASK: bv32 := 0x0022_1888

  function Mpp(m: Word): (r: Priv) { Priv(((m.bits >> 11) & 3) as bv2) }

  predicate Mie(m: Word) { m.bits & 0x8 != 0 }

  predicate Mpie(m: Word) { m.bits & 0x80 != 0 }

  predicate Mprv(m: Word) { m.bits & 0x2_0000 != 0 }

  predicate Tw(m: Word) { m.bits & 0x20_0000 != 0 }

  function MstatusWarl(old_: Word, new_: Word): (r: Word) {
    var merged := (old_.bits & !WMASK) | (new_.bits & WMASK);
    var mpp := (merged >> 11) & 3;
    if mpp == 1 || mpp == 2 then Word(merged & !0x1800) else Word(merged)
  }

  function TrapMstatus(m: Word, p: Priv): (r: Word) {
    Word((m.bits & !0x1888) | ((p.bits as bv32) << 11) | (if Mie(m) then 0x80 else 0))
  }

  function MretMstatus(m: Word): (r: Word) {
    var keep := if Mpp(m) == MACHINE then m.bits & !0x1888 else m.bits & !0x2_1888;
    Word(keep | 0x80 | (if Mpie(m) then 0x8 else 0))
  }

  // ------------------------------------------------------------------------------------------
  // Interrupts
  // ------------------------------------------------------------------------------------------

  predicate Enabled(w: Word, bit: bv32) { w.bits & bit != 0 }

  /** The highest-priority enabled and raised interrupt, as a cause. */
  function PendingIrq(s: State, e: Ext): (r: Option<Word>) {
    if !Mie(s.mstatus) then None
    else if Enabled(s.mie, 0x800) && e.meip then Some(Word(0x8000_000B))
    else if Enabled(s.mie, 0x80) && e.mtip then Some(Word(0x8000_0007))
    else if Enabled(s.mie, 0x8) && e.msip then Some(Word(0x8000_0003))
    else None
  }

  function MipValue(e: Ext): (r: Word) {
    Word((if e.meip then 0x800 else 0) | (if e.mtip then 0x80 else 0) | (if e.msip then 0x8 else 0))
  }

  // ------------------------------------------------------------------------------------------
  // PMP registers
  // ------------------------------------------------------------------------------------------

  function WarlCfg(v: bv8): (r: Cfg) { Cfg(v & 0x9F) }

  function ByteOf(w: Word, j: nat): (r: bv8)
    requires j < 4
  {
    match j
    case 0 => (w.bits & 0xFF) as bv8
    case 1 => ((w.bits >> 8) & 0xFF) as bv8
    case 2 => ((w.bits >> 16) & 0xFF) as bv8
    case _ => (w.bits >> 24) as bv8
  }

  function PackBytes(b0: bv8, b1: bv8, b2: bv8, b3: bv8): (r: Word) {
    Word((b0 as bv32) | ((b1 as bv32) << 8) | ((b2 as bv32) << 16) | ((b3 as bv32) << 24))
  }

  function CfgSlot(a: Addr): (r: Option<nat>) {
    if a.bits == 0x3A0 then Some(0) else if a.bits == 0x3A1 then Some(1) else None
  }

  function AddrIndex(a: Addr): (r: Option<nat>) {
    match a.bits
    case 0x3B0 => Some(0)
    case 0x3B1 => Some(1)
    case 0x3B2 => Some(2)
    case 0x3B3 => Some(3)
    case 0x3B4 => Some(4)
    case 0x3B5 => Some(5)
    case 0x3B6 => Some(6)
    case 0x3B7 => Some(7)
    case _ => None
  }

  /** pmpaddr i may not change: its entry is locked, or the next one is a locked TOR entry. */
  predicate AddrBlocked(g: Regions, i: nat)
    requires g.Valid()
  {
    i >= |g.cfg| || g.cfg[i].Locked() ||
    (i + 1 < |g.cfg| && g.cfg[i + 1].A() == TOR && g.cfg[i + 1].Locked())
  }

  function CfgAfter(g: Regions, slot: nat, v: Word, i: nat): (r: Cfg)
    requires g.Valid() && i < |g.cfg|
  {
    if i / 4 == slot && !g.cfg[i].Locked() then WarlCfg(ByteOf(v, i % 4)) else g.cfg[i]
  }

  function WriteCfg(g: Regions, slot: nat, v: Word): (r: Regions)
    requires g.Valid()
    ensures r.Valid() && |r.cfg| == |g.cfg| && r.addr == g.addr
  {
    g.(cfg := seq(|g.cfg|, i requires 0 <= i < |g.cfg| => CfgAfter(g, slot, v, i)))
  }

  function WriteAddr(g: Regions, i: nat, v: Word): (r: Regions)
    requires g.Valid()
    ensures r.Valid() && |r.cfg| == |g.cfg| && r.cfg == g.cfg
  {
    if AddrBlocked(g, i) then g else g.(addr := g.addr[i := v])
  }

  // ------------------------------------------------------------------------------------------
  // Reads and writes
  // ------------------------------------------------------------------------------------------

  function Lo(c: Count): (r: Word) { Word((c.bits & 0xFFFF_FFFF) as bv32) }

  function Hi(c: Count): (r: Word) { Word((c.bits >> 32) as bv32) }

  function SetLo(c: Count, w: Word): (r: Count) { Count((c.bits & 0xFFFF_FFFF_0000_0000) | (w.bits as bv64)) }

  function SetHi(c: Count, w: Word): (r: Count) { Count((c.bits & 0xFFFF_FFFF) | ((w.bits as bv64) << 32)) }

  function PlusOne(c: Count): (r: Count) { Count(c.bits + 1) }

  function Read(s: State, k: Counters, e: Ext, a: Addr): (r: Word)
    requires s.Valid()
  {
    var n := a.bits;
    if n == MSTATUS then s.mstatus
    else if n == MISA then Word(0x4010_1105)
    else if n == MIE then s.mie
    else if n == MTVEC then s.mtvec
    else if n == MCOUNTEREN then s.mcounteren
    else if n == MCOUNTINHIBIT then s.mcountinhibit
    else if n == MSCRATCH then s.mscratch
    else if n == MEPC then s.mepc
    else if n == MCAUSE then s.mcause
    else if n == MTVAL then s.mtval
    else if n == MIP then MipValue(e)
    else if n == MCYCLE || n == CYCLE then Lo(k.mcycle)
    else if n == MCYCLEH || n == CYCLEH then Hi(k.mcycle)
    else if n == MINSTRET || n == INSTRET then Lo(k.minstret)
    else if n == MINSTRETH || n == INSTRETH then Hi(k.minstret)
    else if CfgSlot(a).Some? then
      var b := 4 * CfgSlot(a).value;
      var c := s.pmp.cfg;
      PackBytes(c[b].bits, c[b + 1].bits, c[b + 2].bits, c[b + 3].bits)
    else if AddrIndex(a).Some? then s.pmp.addr[AddrIndex(a).value]
    else ZERO
  }

  function NewValue(op: CsrOp, old_: Word, src: Word): (r: Word) {
    match op
    case Write => src
    case SetBits => Word(old_.bits | src.bits)
    case ClearBits => Word(old_.bits & !src.bits)
    case NoOp => old_
  }

  /** mcounteren has no time bit. */
  function NoTimeBit(v: Word): (r: Word) { Word(v.bits & 0xFFFF_FFFD) }

  function EvenWord(v: Word): (r: Word) { Word(v.bits & 0xFFFF_FFFE) }

  function WriteState(s: State, a: Addr, v: Word): (r: State)
    requires s.Valid()
    ensures r.Valid()
  {
    var n := a.bits;
    if n == MSTATUS then s.(mstatus := MstatusWarl(s.mstatus, v))
    else if n == MIE then s.(mie := v)
    else if n == MTVEC then s.(mtvec := v)
    else if n == MCOUNTEREN then s.(mcounteren := NoTimeBit(v))
    else if n == MCOUNTINHIBIT then s.(mcountinhibit := v)
    else if n == MSCRATCH then s.(mscratch := v)
    else if n == MEPC then s.(mepc := EvenWord(v))
    else if n == MCAUSE then s.(mcause := v)
    else if n == MTVAL then s.(mtval := v)
    else if CfgSlot(a).Some? then s.(pmp := WriteCfg(s.pmp, CfgSlot(a).value, v))
    else if AddrIndex(a).Some? then s.(pmp := WriteAddr(s.pmp, AddrIndex(a).value, v))
    else s
  }

  /** Counters after the increment of this clock. */
  function Ticked(s: State, k: Counters, retire: bool): (r: Counters) {
    Counters(if Enabled(s.mcountinhibit, 1) then k.mcycle else PlusOne(k.mcycle),
             if !retire || Enabled(s.mcountinhibit, 4) then k.minstret else PlusOne(k.minstret))
  }

  function WriteCounters(k: Counters, a: Addr, v: Word): (r: Counters) {
    var n := a.bits;
    if n == MCYCLE then k.(mcycle := SetLo(k.mcycle, v))
    else if n == MCYCLEH then k.(mcycle := SetHi(k.mcycle, v))
    else if n == MINSTRET then k.(minstret := SetLo(k.minstret, v))
    else if n == MINSTRETH then k.(minstret := SetHi(k.minstret, v))
    else k
  }

  function EnterTrap(s: State, t: Trap): (r: State) {
    s.(mepc := t.epc, mcause := t.cause, mtval := t.tval, mstatus := TrapMstatus(s.mstatus, s.priv), priv := MACHINE)
  }

  function Return(s: State): (r: State) {
    s.(priv := Mpp(s.mstatus), mstatus := MretMstatus(s.mstatus))
  }

  /** What WB asks of the CSR unit in one clock. */
  datatype Command = Idle | Take(t: Trap) | Mret | Access(a: Addr, op: CsrOp, src: Word)

  datatype CsrIn = CsrIn(cmd: Command, retire: bool, ext: Ext)

  function Execute(s: State, k: Counters, e: Ext, c: Command): (r: State)
    requires s.Valid()
    ensures r.Valid()
  {
    match c
    case Idle => s
    case Take(t) => EnterTrap(s, t)
    case Mret => Return(s)
    case Access(a, op, src) => WriteState(s, a, NewValue(op, Read(s, k, e, a), src))
  }

  function NextCounters(s: State, k: Counters, i: CsrIn): (r: Counters)
    requires s.Valid()
  {
    var t := Ticked(s, k, i.retire);
    match i.cmd
    case Access(a, op, src) => WriteCounters(t, a, NewValue(op, Read(s, k, i.ext, a), src))
    case _ => t
  }
}
