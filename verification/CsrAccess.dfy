/** CSR operations: what is written is read back, in legal form, and nothing else changes. */
module CsrAccess {
  import opened Words
  import opened Pmp
  import opened Csr

  /** The legal value a CSR takes when v is written over it. */
  function Legal(s: State, n: bv12, v: Word): (r: Word) {
    if n == MSTATUS then MstatusWarl(s.mstatus, v)
    else if n == MCOUNTEREN then NoTimeBit(v)
    else if n == MEPC then EvenWord(v)
    else v
  }

  /** The registers of a single word. */
  predicate IsPlainRegister(n: bv12) {
    n == MSTATUS || n == MIE || n == MTVEC || n == MCOUNTEREN || n == MCOUNTINHIBIT || n == MSCRATCH || n == MEPC
        || n == MCAUSE || n == MTVAL
  }

  lemma WrittenIsRead(s: State, k: Counters, e: Ext, a: Addr, v: Word)
    requires s.Valid() && IsPlainRegister(a.bits)
    ensures Read(WriteState(s, a, v), k, e, a) == Legal(s, a.bits, v)
  {
    hide MstatusWarl, WriteCfg, WriteAddr, CfgSlot, AddrIndex, NoTimeBit, EvenWord, PackBytes, MipValue, Lo, Hi;
  }

  /** The register number n selects, as a field of the state. */
  predicate SameRest(s: State, r: State, n: bv12) {
    && (n != MSTATUS ==> r.mstatus == s.mstatus) && (n != MIE ==> r.mie == s.mie) && (n != MTVEC ==> r.mtvec == s.mtvec)
    && (n != MCOUNTEREN ==> r.mcounteren == s.mcounteren) && (n != MCOUNTINHIBIT ==> r.mcountinhibit == s.mcountinhibit)
    && (n != MSCRATCH ==> r.mscratch == s.mscratch) && (n != MEPC ==> r.mepc == s.mepc)
    && (n != MCAUSE ==> r.mcause == s.mcause) && (n != MTVAL ==> r.mtval == s.mtval) && r.priv == s.priv
  }

  lemma OthersKept(s: State, a: Addr, v: Word)
    requires s.Valid()
    ensures SameRest(s, WriteState(s, a, v), a.bits)
  {
    hide MstatusWarl, WriteCfg, WriteAddr, CfgSlot, AddrIndex, NoTimeBit, EvenWord;
  }

  lemma PlainIsNotPmp(a: Addr)
    ensures IsPlainRegister(a.bits) ==> CfgSlot(a).None? && AddrIndex(a).None?
  {}

  lemma OnlyPmpWritesChangePmp(s: State, a: Addr, v: Word)
    requires s.Valid() && CfgSlot(a).None? && AddrIndex(a).None?
    ensures WriteState(s, a, v).pmp == s.pmp
  {
    hide MstatusWarl, WriteCfg, WriteAddr, CfgSlot, AddrIndex, NoTimeBit, EvenWord;
  }

  /** A write to one register leaves every read of another one alone. */
  lemma OtherReadsKept(s: State, k: Counters, e: Ext, a: Addr, v: Word, b: Addr)
    requires s.Valid() && IsPlainRegister(a.bits) && b != a
    ensures Read(WriteState(s, a, v), k, e, b) == Read(s, k, e, b)
  {
    hide MstatusWarl, WriteState, CfgSlot, AddrIndex, PackBytes, MipValue, Lo, Hi, IsPlainRegister;
    OthersKept(s, a, v);
    PlainIsNotPmp(a);
    OnlyPmpWritesChangePmp(s, a, v);
  }

  // ------------------------------------------------------------------------------------------
  // PMP registers
  // ------------------------------------------------------------------------------------------

  /** The numbers of the PMP registers: pmpaddr i is 0x3B0 + i, and pmpcfg0 and pmpcfg1 hold entries
      0 to 3 and 4 to 7. */
  lemma PmpNumbers(a: Addr, i: nat)
    requires i < ENTRIES
    ensures AddrIndex(a) == Some(i) <==> a.bits == 0x3B0 + (i as bv12)
    ensures CfgSlot(a) == Some(i / 4) <==> a.bits == 0x3A0 + ((i / 4) as bv12)
  {
    if i == 0 {} else if i == 1 {} else if i == 2 {} else if i == 3 {}
    else if i == 4 {} else if i == 5 {} else if i == 6 {} else {}
  }

  lemma PmpAddressIsNothingElse(a: Addr)
    requires AddrIndex(a).Some?
    ensures !IsPlainRegister(a.bits) && CfgSlot(a).None? && AddrIndex(a).value < ENTRIES
    ensures a.bits != MISA && a.bits != MIP && a.bits != MCYCLE && a.bits != CYCLE
    ensures a.bits != MCYCLEH && a.bits != CYCLEH
    ensures a.bits != MINSTRET && a.bits != INSTRET && a.bits != MINSTRETH && a.bits != INSTRETH
  {}

  /** A PMP address register reads back what was written, or its old value if a lock blocks the write. */
  lemma PmpAddressReadsBack(s: State, k: Counters, e: Ext, a: Addr, v: Word)
    requires s.Valid() && AddrIndex(a).Some?
    ensures Read(WriteState(s, a, v), k, e, a) == if AddrBlocked(s.pmp, AddrIndex(a).value) then Read(s, k, e, a) else v
  {
    hide MstatusWarl, WriteCfg, CfgSlot, AddrIndex, NoTimeBit, EvenWord, PackBytes, MipValue, Lo, Hi, AddrBlocked;
    PmpAddressIsNothingElse(a);
  }

  lemma PackedByte(b0: bv8, b1: bv8, b2: bv8, b3: bv8)
    ensures var w := PackBytes(b0, b1, b2, b3);
      ByteOf(w, 0) == b0 && ByteOf(w, 1) == b1 && ByteOf(w, 2) == b2 && ByteOf(w, 3) == b3
  {}

  lemma CfgSlotIsNothingElse(a: Addr)
    requires CfgSlot(a).Some?
    ensures !IsPlainRegister(a.bits) && AddrIndex(a).None? && CfgSlot(a).value < 2
    ensures a.bits != MISA && a.bits != MIP && a.bits != MCYCLE && a.bits != CYCLE
    ensures a.bits != MCYCLEH && a.bits != CYCLEH
    ensures a.bits != MINSTRET && a.bits != INSTRET && a.bits != MINSTRETH && a.bits != INSTRETH
  {}

  /** A read of a PMP configuration register shows its four entries. */
  lemma ConfigReads(s: State, k: Counters, e: Ext, a: Addr, j: nat)
    requires s.Valid() && CfgSlot(a).Some? && j < 4
    ensures CfgSlot(a).value < 2 && ByteOf(Read(s, k, e, a), j) == s.pmp.cfg[4 * CfgSlot(a).value + j].bits
  {
    hide PackBytes, ByteOf, MipValue, Lo, Hi, CfgSlot, AddrIndex;
    CfgSlotIsNothingElse(a);
    var b, c := 4 * CfgSlot(a).value, s.pmp.cfg;
    PackedByte(c[b].bits, c[b + 1].bits, c[b + 2].bits, c[b + 3].bits);
  }

  /** Entry i's byte of a pmpcfg register reads back as the legal form of what was written, or as
      before if the entry is locked. */
  lemma PmpConfigReadsBack(s: State, k: Counters, e: Ext, a: Addr, v: Word, j: nat)
    requires s.Valid() && CfgSlot(a).Some? && j < 4
    ensures var b := ByteOf(Read(s, k, e, a), j);
      ByteOf(Read(WriteState(s, a, v), k, e, a), j) == if Cfg(b).Locked() then b else WarlCfg(ByteOf(v, j)).bits
  {
    hide PackBytes, ByteOf, CfgSlot, AddrIndex, Read, Cfg.Locked, WarlCfg, MstatusWarl, WriteAddr, NoTimeBit,
      EvenWord;
    CfgSlotIsNothingElse(a);
    ConfigReads(s, k, e, a, j);
    ConfigReads(WriteState(s, a, v), k, e, a, j);
  }

  /** The registers of entry i. */
  function CfgRegister(i: nat): (a: Addr)
    requires i < ENTRIES
  {
    Addr(0x3A0 + ((i / 4) as bv12))
  }

  function AddrRegister(i: nat): (a: Addr)
    requires i < ENTRIES
  {
    Addr(0x3B0 + (i as bv12))
  }

  lemma RegisterNumbers(i: nat)
    requires i < ENTRIES
    ensures AddrIndex(AddrRegister(i)) == Some(i) && CfgSlot(CfgRegister(i)) == Some(i / 4)
  {
    PmpNumbers(AddrRegister(i), i);
    PmpNumbers(CfgRegister(i), i);
  }

  lemma AddressReads(s: State, k: Counters, e: Ext, a: Addr)
    requires s.Valid() && AddrIndex(a).Some?
    ensures AddrIndex(a).value < ENTRIES && Read(s, k, e, a) == s.pmp.addr[AddrIndex(a).value]
  {
    hide CfgSlot, AddrIndex, PackBytes, MipValue, Lo, Hi;
    PmpAddressIsNothingElse(a);
  }

  /** The addresses an entry matches can be told from what its registers, and the address register
      below, read as. */
  lemma MatchIsReadable(s: State, k: Counters, e: Ext, i: nat, x: Word)
    requires s.Valid() && i < ENTRIES
    ensures EntryMatches(s.pmp, i, x)
        <==> Matches(Cfg(ByteOf(Read(s, k, e, CfgRegister(i)), i % 4)), Read(s, k, e, AddrRegister(i)),
               if i == 0 then ZERO else Read(s, k, e, AddrRegister(i - 1)), x)
  {
    hide Matches, ByteOf, Read, CfgSlot, AddrIndex, CfgRegister, AddrRegister;
    RegisterNumbers(i);
    ConfigReads(s, k, e, CfgRegister(i), i % 4);
    AddressReads(s, k, e, AddrRegister(i));
    if i > 0 {
      RegisterNumbers(i - 1);
      AddressReads(s, k, e, AddrRegister(i - 1));
    }
  }

  /** A write to a goes through to the set of addresses entry i matches: to its configuration or its
      address, unlocked, or for TOR to the address below, if that is open to writes. */
  predicate Reaches(s: State, a: Addr, i: nat)
    requires s.Valid() && i < ENTRIES
  {
    || (CfgSlot(a) == Some(i / 4) && !s.pmp.cfg[i].Locked())
    || (AddrIndex(a) == Some(i) && !AddrBlocked(s.pmp, i))
    || (i > 0 && s.pmp.cfg[i].A() == TOR && AddrIndex(a) == Some(i - 1) && !AddrBlocked(s.pmp, i - 1))
  }

  /** No other write moves the set of addresses an entry matches. */
  lemma OnlyReachingWritesMove(s: State, a: Addr, v: Word, i: nat, x: Word)
    requires s.Valid() && i < ENTRIES && !Reaches(s, a, i)
    ensures EntryMatches(WriteState(s, a, v).pmp, i, x) <==> EntryMatches(s.pmp, i, x)
  {
    hide MstatusWarl, NoTimeBit, EvenWord, CfgSlot, AddrIndex, Cfg.Locked, Cfg.A, WarlCfg, ByteOf, AddrBlocked,
      NapotMatches, WordIndex, Low30;
  }

  /** Programming an entry that no lock protects: after its address and its configuration are written,
      it matches what they say, with the address below as it was. */
  lemma ProgrammedEntryMatches(s: State, i: nat, v: Word, w: Word, x: Word)
    requires s.Valid() && i < ENTRIES && !AddrBlocked(s.pmp, i)
    ensures var r := WriteState(WriteState(s, AddrRegister(i), v), CfgRegister(i), w);
      EntryMatches(r.pmp, i, x) <==>
      Matches(WarlCfg(ByteOf(w, i % 4)), v, if i == 0 then ZERO else s.pmp.addr[i - 1], x)
  {
    hide MstatusWarl, NoTimeBit, EvenWord, CfgSlot, AddrIndex, Cfg.Locked, Cfg.A, WarlCfg, ByteOf, Matches,
      CfgRegister, AddrRegister;
    RegisterNumbers(i);
    PmpAddressIsNothingElse(AddrRegister(i));
    CfgSlotIsNothingElse(CfgRegister(i));
  }

  lemma LegalConfig(b: bv8)
    ensures var c := WarlCfg(b); c.bits & 0x60 == 0
    ensures WarlCfg(WarlCfg(b).bits) == WarlCfg(b)
  {}

  // ------------------------------------------------------------------------------------------
  // Traps and interrupts
  // ------------------------------------------------------------------------------------------

  /** A trap records its cause, value and pc, enters machine mode with interrupts off, and changes
      nothing else. */
  lemma TrapRecords(s: State, k: Counters, e: Ext, t: Trap)
    requires s.Valid()
    ensures var r := Execute(s, k, e, Take(t));
      && Read(r, k, e, Addr(MEPC)) == t.epc && Read(r, k, e, Addr(MCAUSE)) == t.cause
      && Read(r, k, e, Addr(MTVAL)) == t.tval
      && r.priv == MACHINE && r.mie == s.mie && r.mtvec == s.mtvec && r.pmp == s.pmp && r.mscratch == s.mscratch
  {
    hide TrapMstatus, CfgSlot, AddrIndex, PackBytes, MipValue, Lo, Hi;
  }

  /** An interrupt cause and the bit that enables it. */
  datatype Source = Source(cause: Word, bit: bv32, raised: bool)

  /** By falling priority: external, timer, software. */
  function Sources(e: Ext): (xs: seq<Source>) {
    [Source(Word(0x8000_000B), 0x800, e.meip),
     Source(Word(0x8000_0007), 0x80, e.mtip),
     Source(Word(0x8000_0003), 0x8, e.msip)]
  }

  predicate Ready(s: State, x: Source) { Enabled(s.mie, x.bit) && x.raised }

  predicate First(s: State, xs: seq<Source>, j: nat)
    requires j < |xs|
  {
    Ready(s, xs[j]) && forall i :: 0 <= i < j ==> !Ready(s, xs[i])
  }

  /** An interrupt is taken only with MIE set, and it is the enabled and raised one of highest
      priority; if there is one it is not missed. */
  lemma HighestPriorityIsTaken(s: State, e: Ext)
    ensures var p := PendingIrq(s, e); var xs := Sources(e);
      && (p.Some? <==> Mie(s.mstatus) && exists j :: 0 <= j < 3 && Ready(s, xs[j]))
      && (p.Some? ==> exists j :: 0 <= j < 3 && p.value == xs[j].cause && First(s, xs, j))
  {
    hide Enabled, Mie;
    var p, xs := PendingIrq(s, e), Sources(e);
    assert Ready(s, xs[0]) <==> Enabled(s.mie, 0x800) && e.meip;
    assert Ready(s, xs[1]) <==> Enabled(s.mie, 0x80) && e.mtip;
    assert Ready(s, xs[2]) <==> Enabled(s.mie, 0x8) && e.msip;
    if p.Some? {
      var j := if Ready(s, xs[0]) then 0 else if Ready(s, xs[1]) then 1 else 2;
      assert p.value == xs[j].cause && First(s, xs, j);
    }
  }

  /** Section 3.1.9 of the Privileged specification ranks external, software, timer. */
  function SpecifiedIrq(s: State, e: Ext): (p: Option<Word>) {
    var xs := Sources(e);
    if !Mie(s.mstatus) then None
    else if Ready(s, xs[0]) then Some(xs[0].cause)
    else if Ready(s, xs[2]) then Some(xs[2].cause)
    else if Ready(s, xs[1]) then Some(xs[1].cause)
    else None
  }

  /** The unit takes another interrupt than that exactly if timer and software are ready and external is not. */
  lemma TimerOutranksSoftware(s: State, e: Ext)
    ensures var xs := Sources(e);
      PendingIrq(s, e) != SpecifiedIrq(s, e)
      <==> Mie(s.mstatus) && !Ready(s, xs[0]) && Ready(s, xs[1]) && Ready(s, xs[2])
  {
    hide Enabled, Mie;
    var xs := Sources(e);
    assert Ready(s, xs[0]) <==> Enabled(s.mie, 0x800) && e.meip;
    assert Ready(s, xs[1]) <==> Enabled(s.mie, 0x80) && e.mtip;
    assert Ready(s, xs[2]) <==> Enabled(s.mie, 0x8) && e.msip;
  }

  // ------------------------------------------------------------------------------------------
  // Numbers without a register
  // ------------------------------------------------------------------------------------------

  /** No register answers to the number, or one that is always zero. */
  predicate NoRegister(a: Addr) {
    && !IsUnmodelled(a.bits) && !IsPlainRegister(a.bits) && CfgSlot(a).None? && AddrIndex(a).None?
    && a.bits != MISA && a.bits != MIP
    && a.bits != MCYCLE && a.bits != MCYCLEH && a.bits != MINSTRET && a.bits != MINSTRETH
    && a.bits != CYCLE && a.bits != CYCLEH && a.bits != INSTRET && a.bits != INSTRETH
  }

  /** A CSR operation on such a number reads zero and is otherwise the same as none. */
  lemma NoRegisterIsInert(s: State, k: Counters, i: CsrIn)
    requires s.Valid() && i.cmd.Access? && NoRegister(i.cmd.a)
    ensures Read(s, k, i.ext, i.cmd.a) == ZERO
    ensures Execute(s, k, i.ext, i.cmd) == Execute(s, k, i.ext, Idle)
    ensures NextCounters(s, k, i) == NextCounters(s, k, i.(cmd := Idle))
  {
    hide MstatusWarl, WriteCfg, WriteAddr, CfgSlot, AddrIndex, NoTimeBit, EvenWord, PackBytes, MipValue, Lo, Hi,
      NewValue, SetLo, SetHi;
  }
}
