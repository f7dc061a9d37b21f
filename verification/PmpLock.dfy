/** A locked PMP entry never changes again, and neither does what it decides. */
module PmpLock {
  import opened Words
  import opened Pmp
  import opened Csr
  import opened CsrProof

  predicate LockedAt(g: Regions, i: nat)
    requires g.Valid()
  {
    i < |g.cfg| && g.cfg[i].Locked()
  }

  predicate LockedUpTo(g: Regions, i: nat)
    requires g.Valid()
  {
    forall j :: 0 <= j <= i ==> LockedAt(g, j)
  }

  /** Entry i is as before: its configuration, its address, and for TOR its lower bound. */
  predicate SameEntry(g: Regions, h: Regions, i: nat)
    requires g.Valid() && h.Valid() && i < |g.cfg| == |h.cfg|
  {
    h.cfg[i] == g.cfg[i] && h.addr[i] == g.addr[i] && (g.cfg[i].A() == TOR && i > 0 ==> h.addr[i - 1] == g.addr[i - 1])
  }

  lemma WriteCfgKeeps(g: Regions, slot: nat, v: Word, i: nat)
    requires g.Valid() && LockedAt(g, i)
    ensures SameEntry(g, WriteCfg(g, slot, v), i)
  {
    hide WarlCfg, ByteOf, Cfg.A, Cfg.Locked;
  }

  lemma WriteAddrKeeps(g: Regions, j: nat, v: Word, i: nat)
    requires g.Valid() && LockedAt(g, i)
    ensures SameEntry(g, WriteAddr(g, j, v), i)
  {
    hide Cfg.A, Cfg.Locked;
  }

  lemma WriteKeepsRegions(s: State, n: Addr, v: Word)
    requires s.Valid()
    ensures var r := WriteState(s, n, v);
      || r.pmp == s.pmp
      || (CfgSlot(n).Some? && r.pmp == WriteCfg(s.pmp, CfgSlot(n).value, v))
      || (AddrIndex(n).Some? && r.pmp == WriteAddr(s.pmp, AddrIndex(n).value, v))
  {
    hide MstatusWarl, WriteCfg, WriteAddr, CfgSlot, AddrIndex, NoTimeBit, EvenWord;
  }

  lemma ExecuteKeepsLocked(s: State, y: Clock, i: nat)
    requires s.Valid() && LockedAt(s.pmp, i)
    ensures SameEntry(s.pmp, Execute(s, y.k, y.e, y.c).pmp, i)
  {
    hide WriteState, WriteCfg, WriteAddr, CfgSlot, AddrIndex, Read, NewValue, TrapMstatus, MretMstatus, Mpp, Cfg.A,
      Cfg.Locked;
    match y.c {
      case Access(n, op, src) =>
        var v := NewValue(op, Read(s, y.k, y.e, n), src);
        WriteKeepsRegions(s, n, v);
        if CfgSlot(n).Some? { WriteCfgKeeps(s.pmp, CfgSlot(n).value, v, i); }
        if AddrIndex(n).Some? { WriteAddrKeeps(s.pmp, AddrIndex(n).value, v, i); }
      case _ =>
    }
  }

  lemma SameMatches(g: Regions, h: Regions, i: nat, a: Word)
    requires g.Valid() && h.Valid() && i < |g.cfg| == |h.cfg| && SameEntry(g, h, i)
    ensures EntryMatches(h, i, a) <==> EntryMatches(g, i, a)
  {
    hide Low30, NapotMatches, WordIndex, Le, Lt, Cfg.A;
  }

  /** Over every run of CSR operations, traps and returns, a locked entry keeps its configuration and
      address, and matches exactly the same addresses. */
  lemma {:induction false} LockedIsImmutable(s: State, cs: seq<Clock>, i: nat)
    requires s.Valid() && LockedAt(s.pmp, i)
    ensures LockedAt(RunAll(s, cs).pmp, i) && SameEntry(s.pmp, RunAll(s, cs).pmp, i)
    ensures forall a :: EntryMatches(RunAll(s, cs).pmp, i, a) <==> EntryMatches(s.pmp, i, a)
    decreases |cs|
  {
    hide Execute, Cfg.A, Cfg.Locked, EntryMatches;
    if cs != [] {
      ExecuteKeepsLocked(s, cs[0], i);
      LockedIsImmutable(Execute(s, cs[0].k, cs[0].e, cs[0].c), cs[1..], i);
    }
    forall a ensures EntryMatches(RunAll(s, cs).pmp, i, a) <==> EntryMatches(s.pmp, i, a) {
      SameMatches(s.pmp, RunAll(s, cs).pmp, i, a);
    }
  }

  lemma SameDecision(g: Regions, h: Regions, i: nat, a: Word, p: Priv, q: Access)
    requires g.Valid() && h.Valid() && i < |g.cfg| == |h.cfg| && EntryMatches(g, i, a)
    requires forall j :: 0 <= j <= i ==> h.cfg[j] == g.cfg[j] && (EntryMatches(h, j, a) <==> EntryMatches(g, j, a))
    ensures Allow(h, a, p, q) <==> Allow(g, a, p, q)
  {
    hide EntryMatches, Permits, Cfg.Locked;
    var x, y := FirstMatch(g, a, 0), FirstMatch(h, a, 0);
    assert EntryMatches(h, i, a);
    assert x.Some? && x.value <= i;
    assert y.Some? && y.value <= i;
  }

  /** If every entry up to i is locked, the decision on the addresses entry i matches is fixed. */
  lemma LockedDecisionIsFixed(s: State, cs: seq<Clock>, i: nat, a: Word, p: Priv, q: Access)
    requires s.Valid() && i < |s.pmp.cfg| && LockedUpTo(s.pmp, i) && EntryMatches(s.pmp, i, a)
    ensures Allow(RunAll(s, cs).pmp, a, p, q) <==> Allow(s.pmp, a, p, q)
  {
    hide EntryMatches, Allow, RunAll, Cfg.A, Cfg.Locked;
    var r := RunAll(s, cs).pmp;
    forall j: nat | j <= i
      ensures r.cfg[j] == s.pmp.cfg[j] && (EntryMatches(r, j, a) <==> EntryMatches(s.pmp, j, a))
    {
      assert LockedAt(s.pmp, j);
      LockedIsImmutable(s, cs, j);
    }
    assert LockedAt(s.pmp, i);
    SameDecision(s.pmp, r, i, a, p, q);
  }
}
