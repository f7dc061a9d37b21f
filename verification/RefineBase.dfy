/** Facts about the refinement relation that do not concern one kind of instruction. */
module RefineBase {
  import opened Words
  import opened Instr
  import opened Decoder
  import DecodeProof
  import F = Fetch
  import FetchProof
  import Pmp
  import Csr
  import opened Isa
  import opened Pipeline
  import opened DataPath
  import opened System
  import opened Refine

  // ------------------------------------------------------------------------------------------
  // The instruction in WB
  // ------------------------------------------------------------------------------------------

  lemma ReadIgnoresLines(s: Csr.State, k: Csr.Counters, l1: Csr.Ext, l2: Csr.Ext, n: Csr.Addr)
    requires s.Valid() && Covered(n)
    ensures Csr.Read(s, k, l1, n) == Csr.Read(s, k, l2, n)
  {
    hide Csr.Lo, Csr.Hi, Csr.PackBytes, Csr.MipValue, Csr.CfgSlot, Csr.AddrIndex;
  }

  lemma WriteKeepsPriv(s: Csr.State, n: Csr.Addr, v: Word)
    requires s.Valid()
    ensures Csr.WriteState(s, n, v).priv == s.priv
  {
    hide Csr.MstatusWarl, Csr.WriteCfg, Csr.WriteAddr, Csr.CfgSlot, Csr.AddrIndex, Csr.NoTimeBit, Csr.EvenWord;
  }

  lemma WriteKeepsPmp(s: Csr.State, n: Csr.Addr, v: Word)
    requires s.Valid() && Csr.CfgSlot(n).None? && Csr.AddrIndex(n).None?
    ensures Csr.WriteState(s, n, v).pmp == s.pmp
  {
    hide Csr.MstatusWarl, Csr.WriteCfg, Csr.WriteAddr, Csr.CfgSlot, Csr.AddrIndex, Csr.NoTimeBit, Csr.EvenWord;
  }

  lemma CoveredWriteKeeps(s: Csr.State, n: Csr.Addr, v: Word)
    requires s.Valid() && Covered(n)
    ensures Csr.WriteState(s, n, v).priv == s.priv && Csr.WriteState(s, n, v).pmp == s.pmp
  {
    hide Csr.WriteState, Csr.CfgSlot, Csr.AddrIndex, Csr.IsUnmodelled;
    WriteKeepsPriv(s, n, v);
    WriteKeepsPmp(s, n, v);
  }

  lemma ExecuteIgnoresLines(s: Csr.State, k: Csr.Counters, l1: Csr.Ext, l2: Csr.Ext, m: Csr.Command)
    requires s.Valid() && (m.Access? ==> Covered(m.a))
    ensures Csr.Execute(s, k, l1, m) == Csr.Execute(s, k, l2, m)
  {
    hide Csr.Read, Csr.EnterTrap, Csr.Return, Csr.WriteState, Csr.NewValue, Covered;
    if m.Access? { ReadIgnoresLines(s, k, l1, l2, m.a); }
  }

  /** Unless WB traps, the privilege and the PMP registers EX and fetch see are settled. */
  lemma SettledKeeps(c: Core)
    requires c.csr.Valid() && WbCovered(c.wb) && !WbTraps(c.wb)
    ensures Settled(c).priv == c.csr.priv && Settled(c).pmp == c.csr.pmp
  {
    hide Csr.Read, Csr.EnterTrap, Csr.Return, Csr.WriteState, Csr.NewValue, Covered, WbCommand;
    match WbCommand(c.wb) {
      case Access(n, op, src) =>
        CoveredWriteKeeps(c.csr, n, Csr.NewValue(op, Csr.Read(c.csr, c.counters, NO_EXT, n), src));
      case _ =>
    }
  }

  lemma WbWriteIgnoresLines(c: Core, ext: Csr.Ext)
    requires c.csr.Valid() && WbCovered(c.wb)
    ensures WbWrite(c, ext) == WbWrite(c, NO_EXT)
  {
    hide Csr.Read, LoadResult, Covered, Rd, IsCsrOp, IsLoad, IsLr, IsSc, IsAmo, HasResult, CsrAddr, CsrOpOf, IsStore,
      IsEcall, IsEbreak, IsMret;
    if WritesRd(c.wb) && IsCsrOp(c.wb.instr) { ReadIgnoresLines(c.csr, c.counters, ext, NO_EXT, CsrAddr(c.wb.instr)); }
  }

  /** After a clock the CSR state and the registers are the settled ones of before. */
  lemma Committed(e: Env, c: Core, i: In)
    requires c.csr.Valid() && WbCovered(c.wb)
    ensures Next(e, c, i).csr == Settled(c)
    ensures Next(e, c, i).regs == Set(c.regs, WbWrite(c, NO_EXT))
  {
    hide Csr.Execute, WbCommand, WbWrite, NextEx, NextWb, NextResvValid, LrAnswered, AmoAnswered, F.Next, FetchIn,
      Csr.NextCounters, Covered;
    ExecuteIgnoresLines(c.csr, c.counters, i.ext, NO_EXT, WbCommand(c.wb));
    WbWriteIgnoresLines(c, i.ext);
  }

  // ------------------------------------------------------------------------------------------
  // The instruction in EX
  // ------------------------------------------------------------------------------------------

  /** What EX holds decodes to what the fetched item means. */
  lemma HoldsMeaning(x: Ex)
    requires FromFetch(x)
    requires x.item.isC ==> F.IsShort(HalfOf(x.item.raw, false))
    ensures DecLegal(x) <==> Meaning(x.item) != Illegal
    ensures DecLegal(x) ==> Holding(x, Meaning(x.item))
  {
    hide Decode, IsLegal, Expand, HalfOf, Rvc, F.IsShort, CQuad;
    var h := HalfOf(x.item.raw, false);
    DecodeProof.LegalIffDecodes(x.instr);
    if x.item.isC { ShortQuadrant(h); DecodeProof.ExpansionMeans(h); }
  }

  lemma ShortQuadrant(h: Half)
    ensures F.IsShort(h) <==> CQuad(h) != 3
  {}

  lemma ZextHalf(h: Half)
    ensures HalfOf(Zext(h), false) == h
  {}

  /** A parsed 16-bit instruction has a 16-bit encoding. */
  lemma ParsedShort(m: F.IMem, pc: Word)
    ensures var r := F.ParseAt(m, pc); r.isC ==> F.IsShort(HalfOf(r.raw, false)) && !r.err
  {
    hide HalfOf, Zext, Join, F.IsShort, WordOf, IsUpper, Plus;
    ZextHalf(F.HalfAt(m, pc).half);
  }

  // ------------------------------------------------------------------------------------------
  // The fetch side
  // ------------------------------------------------------------------------------------------

  /** The instruction bus keeps the fetch stage's contract, each word checked at the privilege of
      its consumer. */
  lemma FetchObeys(e: Env, s: Sys, a: Arch, t: Tick)
    requires s.core.csr.Valid() && a.csr.Valid()
    requires WbCovered(s.core.wb) && a.csr == Settled(s.core)
    requires FetchProof.Inv(ArchView(e, a), s.core.fe, s.ibus)
    requires WbTraps(s.core.wb) ==> FetchProof.Quiet(s.core.fe)
    ensures FetchProof.Obeys(ArchView(e, a), s.core.fe, s.ibus, FetchIn(e, s.core, Inputs(e, s, t)))
  {
    hide Csr.Execute, WbCommand, WbWrite, Pmp.Allow, ByteAddress, Redirect, ExTarget, IdFire, F.ParseAt, F.After,
      WordOf, NextWord, Plus, IsUpper, HalfOf, F.IsShort, Settled, WbTraps, WbCovered;
    if !WbTraps(s.core.wb) { SettledKeeps(s.core); }
  }
}
