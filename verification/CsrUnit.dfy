/** The clocked process of the CSR unit. */
module CsrUnit {
  import opened Words
  import opened Pmp
  import opened Csr

  class CsrRegs {
    var mstatus: Word
    var mie: Word
    var mtvec: Word
    var mcounteren: Word
    var mscratch: Word
    var mepc: Word
    var mcause: Word
    var mtval: Word
    var mcountinhibit: Word
    var priv: Priv
    var mcycle: Count
    var minstret: Count
    const pmpcfg: array<Cfg>
    const pmpaddr: array<Word>

    ghost predicate Valid()
      reads this
    {
      pmpcfg.Length == ENTRIES && pmpaddr.Length == ENTRIES
    }

    function View(): (r: State)
      requires Valid()
      reads this, pmpcfg, pmpaddr
    {
      State(mstatus, mie, mtvec, mcounteren, mscratch, mepc, mcause, mtval, mcountinhibit, priv,
            Regions(pmpcfg[..], pmpaddr[..]))
    }

    function Counts(): (r: Counters)
      reads this
    {
      Counters(mcycle, minstret)
    }

    constructor ()
      ensures Valid() && fresh(pmpcfg) && fresh(pmpaddr) && View().Valid()
      ensures View().mstatus == ZERO && View().priv == MACHINE && Counts() == Counters(Count(0), Count(0))
    {
      mstatus, mie, mtvec, mcounteren, mscratch := ZERO, ZERO, ZERO, ZERO, ZERO;
      mepc, mcause, mtval, mcountinhibit := ZERO, ZERO, ZERO, ZERO;
      priv := MACHINE;
      mcycle, minstret := Count(0), Count(0);
      pmpcfg := new Cfg[ENTRIES](_ => Cfg(0));
      pmpaddr := new Word[ENTRIES](_ => ZERO);
    }

    /** A write of one pmpcfg register: the four entries it holds, locked ones apart. */
    method WritePmpcfg(slot: nat, v: Word)
      requires Valid() && slot < 2
      modifies pmpcfg
      ensures View() == old(View()).(pmp := WriteCfg(old(View()).pmp, slot, v))
    {
      hide WarlCfg, ByteOf, Cfg.Locked;
      ghost var g := View().pmp;
      for j := 0 to 4
        invariant forall k :: 0 <= k < ENTRIES ==>
          pmpcfg[k] == if k / 4 == slot && k % 4 < j then CfgAfter(g, slot, v, k) else g.cfg[k]
      {
        var entry := slot * 4 + j;
        if !pmpcfg[entry].Locked() { pmpcfg[entry] := WarlCfg(ByteOf(v, j)); }
      }
      assert pmpcfg[..] == WriteCfg(g, slot, v).cfg;
    }

    method WritePmpaddr(i: nat, v: Word)
      requires Valid() && i < ENTRIES
      modifies pmpaddr
      ensures View() == old(View()).(pmp := WriteAddr(old(View()).pmp, i, v))
    {
      hide Cfg.Locked, Cfg.A;
      var blocked := pmpcfg[i].Locked() || (i + 1 < ENTRIES && pmpcfg[i + 1].A() == TOR && pmpcfg[i + 1].Locked());
      if !blocked { pmpaddr[i] := v; }
    }

    method Write(a: Addr, v: Word)
      requires Valid()
      modifies `mstatus, `mie, `mtvec, `mcounteren, `mcountinhibit, `mscratch, `mepc, `mcause, `mtval, pmpcfg, pmpaddr
      ensures View() == WriteState(old(View()), a, v)
    {
      hide MstatusWarl, WriteCfg, WriteAddr, CfgSlot, AddrIndex, NoTimeBit, EvenWord;
      var n := a.bits;
      if n == MSTATUS { mstatus := MstatusWarl(mstatus, v); }
      else if n == MIE { mie := v; }
      else if n == MTVEC { mtvec := v; }
      else if n == MCOUNTEREN { mcounteren := NoTimeBit(v); }
      else if n == MCOUNTINHIBIT { mcountinhibit := v; }
      else if n == MSCRATCH { mscratch := v; }
      else if n == MEPC { mepc := EvenWord(v); }
      else if n == MCAUSE { mcause := v; }
      else if n == MTVAL { mtval := v; }
      else if CfgSlot(a).Some? { SlotInRange(a); WritePmpcfg(CfgSlot(a).value, v); }
      else if AddrIndex(a).Some? { IndexInRange(a); WritePmpaddr(AddrIndex(a).value, v); }
    }

    method WriteCounter(a: Addr, v: Word)
      modifies `mcycle, `minstret
      ensures Counts() == WriteCounters(old(Counts()), a, v)
    {
      hide SetLo, SetHi;
      var n := a.bits;
      if n == MCYCLE { mcycle := SetLo(mcycle, v); }
      else if n == MCYCLEH { mcycle := SetHi(mcycle, v); }
      else if n == MINSTRET { minstret := SetLo(minstret, v); }
      else if n == MINSTRETH { minstret := SetHi(minstret, v); }
    }

    /** One clock; `value` is what the CSR read port shows before it. */
    method Clock(i: CsrIn, value: Word)
      requires Valid()
      requires i.cmd.Access? ==> value == Read(View(), Counts(), i.ext, i.cmd.a)
      modifies this, pmpcfg, pmpaddr
      ensures Valid()
      ensures View() == Execute(old(View()), old(Counts()), i.ext, i.cmd)
      ensures Counts() == NextCounters(old(View()), old(Counts()), i)
    {
      hide Read, WriteState, WriteCounters, NewValue, TrapMstatus, MretMstatus, Mpp, PlusOne, Enabled;
      if !Enabled(mcountinhibit, 1) { mcycle := PlusOne(mcycle); }
      if i.retire && !Enabled(mcountinhibit, 4) { minstret := PlusOne(minstret); }
      match i.cmd {
        case Take(t) =>
          mepc := t.epc;
          mcause := t.cause;
          mtval := t.tval;
          mstatus := TrapMstatus(mstatus, priv);
          priv := MACHINE;
        case Mret =>
          priv := Mpp(mstatus);
          mstatus := MretMstatus(mstatus);
        case Access(a, op, src) =>
          var v := NewValue(op, value, src);
          Write(a, v);
          WriteCounter(a, v);
        case Idle =>
      }
    }
  }

  lemma SlotInRange(a: Addr)
    ensures CfgSlot(a).Some? ==> CfgSlot(a).value < 2
  {}

  lemma IndexInRange(a: Addr)
    ensures AddrIndex(a).Some? ==> AddrIndex(a).value < ENTRIES
  {}
}
