/** What the bits of the control registers do, by their positions: interrupts and where they go, the privilege
    of data accesses, the CSR operations, the trap stack, denials and triggers. */
module ControlBits {
  import opened Words
  import opened Digits
  import Instr
  import opened Decoder
  import Isa
  import F = Fetch
  import Pmp
  import Csr
  import Arithmetic
  import Transfers
  import CsrAccess
  import PmpDecision
  import opened Pipeline

  // ------------------------------------------------------------------------------------------
  // Interrupts
  // ------------------------------------------------------------------------------------------

  /** Enabled in mie and raised, each alone. */
  predicate External(k: Csr.State, e: Csr.Ext) { Digit(k.mie, 11) && e.meip }

  predicate Timer(k: Csr.State, e: Csr.Ext) { Digit(k.mie, 7) && e.mtip }

  predicate Software(k: Csr.State, e: Csr.Ext) { Digit(k.mie, 3) && e.msip }

  /** MIE, bit 3 of mstatus, is set and one of them is ready. */
  predicate Interrupted(k: Csr.State, e: Csr.Ext) {
    Digit(k.mstatus, 3) && (External(k, e) || Timer(k, e) || Software(k, e))
  }

  /** The exception code of the interrupt taken. */
  function Cause(k: Csr.State, e: Csr.Ext): (n: nat) {
    if External(k, e) then 11 else if Timer(k, e) then 7 else 3
  }

  lemma CauseNumbers()
    ensures Number(Word(0x8000_000B)) == TWO31 + 11 && Number(Word(0x8000_0007)) == TWO31 + 7
    ensures Number(Word(0x8000_0003)) == TWO31 + 3
  {}

  /** An interrupt is pending exactly with MIE and its enable bit set and its line raised; its cause is
      2^31 plus its code. */
  lemma PendingByBits(k: Csr.State, e: Csr.Ext)
    ensures Csr.PendingIrq(k, e).Some? <==> Interrupted(k, e)
    ensures Interrupted(k, e) ==> Number(Csr.PendingIrq(k, e).value) == TWO31 + Cause(k, e)
  {
    hide Number, Digit;
    MaskIsDigit(k.mstatus, 0x8, 3);
    MaskIsDigit(k.mie, 0x800, 11);
    MaskIsDigit(k.mie, 0x80, 7);
    MaskIsDigit(k.mie, 0x8, 3);
    CauseNumbers();
  }

  lemma BaseApart(m: bv32)
    ensures (m & 0xFFFF_FFFC) + (m & 3) == m
  {}

  lemma BaseSum(m: Word)
    ensures Isa.Sum(Isa.TrapBase(m), Masked(m, 2)) == m && Isa.TrapBase(m).bits & 3 == 0
  {
    BaseApart(m.bits);
  }

  lemma BaseNumber(m: Word)
    ensures Number(Isa.TrapBase(m)) == Number(m) - Number(m) % 4
  {
    hide Number, Isa.TrapBase, Isa.Sum, Masked, Power;
    BaseSum(m);
    SumNumber(Isa.TrapBase(m), Masked(m, 2));
    MaskedNumber(m, 2);
    Transfers.LaneNumber(Isa.TrapBase(m));
    assert (2 as bv6) as int == 2;
    Powers0();
  }

  lemma Offsets(m: Word)
    ensures Isa.IrqTarget(m, Word(0x8000_000B))
         == if m.bits & 1 != 0 then Isa.Sum(Isa.TrapBase(m), Word(44)) else Isa.TrapBase(m)
    ensures Isa.IrqTarget(m, Word(0x8000_0007))
         == if m.bits & 1 != 0 then Isa.Sum(Isa.TrapBase(m), Word(28)) else Isa.TrapBase(m)
    ensures Isa.IrqTarget(m, Word(0x8000_0003))
         == if m.bits & 1 != 0 then Isa.Sum(Isa.TrapBase(m), Word(12)) else Isa.TrapBase(m)
  {
    hide Isa.TrapBase, Isa.Sum;
  }

  lemma OffsetNumbers()
    ensures Number(Word(44)) == 44 && Number(Word(28)) == 28 && Number(Word(12)) == 12
  {}

  /** mtvec without its two low bits. */
  function Base(k: Csr.State): (n: nat) { Number(k.mtvec) - Number(k.mtvec) % 4 }

  lemma VectorNumber(k: Csr.State, e: Csr.Ext)
    requires Interrupted(k, e)
    ensures Number(IrqVector(k, e)) == if Digit(k.mtvec, 0) then (Base(k) + 4 * Cause(k, e)) % TWO32 else Base(k)
  {
    hide Number, Digit, Isa.TrapBase, Isa.IrqTarget, Isa.Sum;
    MaskIsDigit(k.mstatus, 0x8, 3);
    MaskIsDigit(k.mie, 0x800, 11);
    MaskIsDigit(k.mie, 0x80, 7);
    MaskIsDigit(k.mie, 0x8, 3);
    MaskIsDigit(k.mtvec, 1, 0);
    Offsets(k.mtvec);
    OffsetNumbers();
    BaseNumber(k.mtvec);
    SumNumber(Isa.TrapBase(k.mtvec), Word(44));
    SumNumber(Isa.TrapBase(k.mtvec), Word(28));
    SumNumber(Isa.TrapBase(k.mtvec), Word(12));
  }

  /** The instruction in EX is a CSR operation: opcode SYSTEM with a funct3. */
  predicate IsCsrCode(w: Word) { w.bits & 0x7F == 0x73 && w.bits & 0x7000 != 0 }

  lemma CsrCode(w: Word)
    ensures IsCsrOp(w) <==> IsCsrCode(w)
  {
    if IsCsrCode(w) {} else {}
  }

  /** Where EX steers fetch when an instruction leaves with an exception, and when it leaves without one and
      is interrupted: to the base, and with bit 0 of mtvec set to 44, 28 or 12 above it for an external, a
      timer or a software interrupt. CSR operations are not interrupted. */
  lemma TrapTargets(e: Isa.Env, c: Core, i: In)
    requires c.csr.Valid() && ToWb(e, c, i)
    ensures Exception(e, c, i) ==> Redirect(e, c, i) && Number(ExTarget(e, c, i)) == Base(c.csr)
    ensures !Exception(e, c, i) && Interrupted(c.csr, i.ext) && !IsCsrCode(c.ex.instr) ==>
      Redirect(e, c, i) &&
      var offset := if External(c.csr, i.ext) then 44 else if Timer(c.csr, i.ext) then 28 else 12;
      Number(ExTarget(e, c, i)) == if Digit(c.csr.mtvec, 0) then (Base(c.csr) + offset) % TWO32 else Base(c.csr)
  {
    hide Number, Digit, ToWb, Exception, IrqVector, Isa.TrapBase, IsCsrCode, IsCsrOp, Taken, NextTarget, SeqPc,
      Csr.PendingIrq;
    CsrCode(c.ex.instr);
    BaseNumber(c.csr.mtvec);
    PendingByBits(c.csr, i.ext);
    if Interrupted(c.csr, i.ext) { VectorNumber(c.csr, i.ext); }
  }

  // ------------------------------------------------------------------------------------------
  // The privilege of data accesses
  // ------------------------------------------------------------------------------------------

  /** The level in bits 12 and 11 of mstatus. */
  function PreviousLevel(m: Word): (n: nat) { Number(m) / 0x800 % 4 }

  lemma LevelBits(m: Word)
    ensures Csr.Mpp(m).bits as int == Place(Bit(m, 11), 1) + Place(Bit(m, 12), 2)
  {}

  lemma LevelDigits(m: Word)
    ensures PreviousLevel(m) == Place(Digit(m, 11), 1) + Place(Digit(m, 12), 2)
  {
    hide Number, Power;
    Powers1();
    assert (11 as bv6) as int == 11 && (12 as bv6) as int == 12;
    assert Digit(m, 11) == Odd(Number(m) / 0x800) && Digit(m, 12) == Odd(Number(m) / 0x1000);
    TwoDigits(Number(m));
    assert PreviousLevel(m) == Number(m) / 0x800 % 2 + 2 * (Number(m) / 0x1000 % 2);
    assert Place(Digit(m, 11), 1) == Number(m) / 0x800 % 2;
    assert Place(Digit(m, 12), 2) == 2 * (Number(m) / 0x1000 % 2);
  }

  lemma TwoDigits(n: nat)
    ensures n / 0x800 % 4 == n / 0x800 % 2 + 2 * (n / 0x1000 % 2)
  {}

  lemma LevelNumber(m: Word)
    ensures Csr.Mpp(m).bits as int == PreviousLevel(m)
  {
    hide Digit, Bit, Csr.Mpp, PreviousLevel, Number, Power;
    LevelBits(m);
    LevelDigits(m);
    BitIsDigit(m, 11);
    BitIsDigit(m, 12);
  }

  /** A load, LR or AMO, and a store, SC or AMO, by opcode and funct5. */
  predicate Reads(w: Word) { w.bits & 0x7F == 0x03 || (w.bits & 0x7F == 0x2F && w.bits & 0xF800_0000 != 0x1800_0000) }

  predicate Writes(w: Word) { w.bits & 0x7F == 0x23 || (w.bits & 0x7F == 0x2F && w.bits & 0xF800_0000 != 0x1000_0000) }

  lemma AccessCode(w: Word)
    ensures IsLoad(w) || IsLr(w) || IsAmo(w) <==> Reads(w)
    ensures IsStore(w) || IsSc(w) || IsAmo(w) <==> Writes(w)
  {}

  /** Loads, stores and atomics are checked at the level in force, but in machine mode with bit 17 of
      mstatus, MPRV, set, at the level in its bits 12 and 11. */
  lemma DataLevel(x: Ex, k: Csr.State, p: Pmp.Priv)
    requires k.Valid()
    requires var mprv := k.priv.bits == 3 && Digit(k.mstatus, 17);
      p.bits as int == if mprv then PreviousLevel(k.mstatus) else k.priv.bits as int
    ensures DAllow(x, k) <==> Pmp.Allow(k.pmp, AluResult(x), p, Pmp.Access(Reads(x.instr), Writes(x.instr), false))
  {
    hide Digit, Csr.Mpp, PreviousLevel, IsLoad, IsStore, IsLr, IsSc, IsAmo, Reads, Writes, AluResult, Pmp.Allow;
    MaskIsDigit(k.mstatus, 0x2_0000, 17);
    LevelNumber(k.mstatus);
    AccessCode(x.instr);
    SameLevel(p, Isa.DataPriv(k));
  }

  lemma SameLevel(p: Pmp.Priv, q: Pmp.Priv)
    ensures p == q <==> p.bits as int == q.bits as int
  {}

  // ------------------------------------------------------------------------------------------
  // CSR operations
  // ------------------------------------------------------------------------------------------

  /** CSRRW and CSRRWI, CSRRS and CSRRSI, CSRRC and CSRRCI, by opcode and funct3. */
  predicate IsWrite(w: Word) { w.bits & 0x707F == 0x1073 || w.bits & 0x707F == 0x5073 }

  predicate IsSet(w: Word) { w.bits & 0x707F == 0x2073 || w.bits & 0x707F == 0x6073 }

  predicate IsClear(w: Word) { w.bits & 0x707F == 0x3073 || w.bits & 0x707F == 0x7073 }

  /** The number in bits 31 to 20. */
  function NumberField(w: Word): (n: bv12) { (w.bits >> 20) as bv12 }

  /** WB holds a CSR operation that does not trap. */
  predicate Operates(b: Wb) {
    && b.valid && !b.item.err && !b.trigger && !b.misaligned && !b.err && !b.badTarget && b.legal
    && (IsWrite(b.instr) || IsSet(b.instr) || IsClear(b.instr))
  }

  lemma OperationCode(w: Word)
    ensures IsWrite(w) ==> CsrOpOf(w) == Csr.Write && IsCsrOp(w)
    ensures IsSet(w) ==> CsrOpOf(w) == Csr.SetBits && IsCsrOp(w)
    ensures IsClear(w) ==> CsrOpOf(w) == Csr.ClearBits && IsCsrOp(w)
    ensures IsWrite(w) ==> !IsSet(w) && !IsClear(w)
    ensures IsSet(w) ==> !IsClear(w)
    ensures CsrAddr(w) == Csr.Addr(NumberField(w))
  {}

  /** A digit after the operation, from the digit before and that of the source. */
  predicate Wanted(w: Word, old_: bool, src: bool) {
    if IsWrite(w) then src else if IsSet(w) then old_ || src else old_ && !src
  }

  lemma OredBit(a: Word, b: Word, k: bv6)
    requires k < 32
    ensures Bit(Csr.NewValue(Csr.SetBits, a, b), k) == (Bit(a, k) || Bit(b, k))
  {}

  lemma AndNotBit(a: Word, b: Word, k: bv6)
    requires k < 32
    ensures Bit(Csr.NewValue(Csr.ClearBits, a, b), k) == (Bit(a, k) && !Bit(b, k))
  {}

  lemma OperationDigit(w: Word, old_: Word, src: Word, k: bv6)
    requires k < 32 && (IsWrite(w) || IsSet(w) || IsClear(w))
    ensures Digit(Csr.NewValue(CsrOpOf(w), old_, src), k) == Wanted(w, Digit(old_, k), Digit(src, k))
  {
    hide Bit, Number, Power, IsWrite, IsSet, IsClear, CsrOpOf, IsCsrOp, CsrAddr, NumberField;
    OperationCode(w);
    OredBit(old_, src, k);
    AndNotBit(old_, src, k);
    BitIsDigit(old_, k);
    BitIsDigit(src, k);
    BitIsDigit(Csr.NewValue(CsrOpOf(w), old_, src), k);
  }

  /** The value a CSR operation of WB leaves in a register, digit by digit: mie, mtvec, mcountinhibit,
      mscratch, mcause and mtval hold every digit; mcounteren has no digit 1 and mepc no digit 0. */
  lemma RegisterOperations(b: Wb, s: Csr.State, c: Csr.Counters, e: Csr.Ext, k: bv6)
    requires s.Valid() && Operates(b) && k < 32
    ensures var a := Csr.Addr(NumberField(b.instr));
      var n, old_, r := a.bits, Csr.Read(s, c, e, a), Csr.Read(Csr.Execute(s, c, e, WbCommand(b)), c, e, a);
      var v := Wanted(b.instr, Digit(old_, k), Digit(b.src, k));
      && (n == 0x304 || n == 0x305 || n == 0x320 || n == 0x340 || n == 0x342 || n == 0x343 ==> Digit(r, k) == v)
      && (n == 0x306 ==> Digit(r, k) == (v && k != 1))
      && (n == 0x341 ==> Digit(r, k) == (v && k != 0))
  {
    hide Digit, IsWrite, IsSet, IsClear, CsrOpOf, IsCsrOp, CsrAddr, NumberField, Csr.NewValue, Csr.NoTimeBit,
      Csr.EvenWord, Csr.MstatusWarl, Csr.WriteCfg, Csr.WriteAddr, Csr.CfgSlot, Csr.AddrIndex, Csr.PackBytes,
      Csr.MipValue, Csr.Lo, Csr.Hi;
    OperationCode(b.instr);
    var a := Csr.Addr(NumberField(b.instr));
    var old_ := Csr.Read(s, c, e, a);
    OperationDigit(b.instr, old_, b.src, k);
    var v := Csr.NewValue(CsrOpOf(b.instr), old_, b.src);
    ClearedDigits(v, k);
    assert Csr.Execute(s, c, e, WbCommand(b)) == Csr.WriteState(s, a, v);
  }

  /** The registers that hold all 32 bits. */
  predicate HoldsEveryBit(a: Csr.Addr) {
    a.bits == 0x304 || a.bits == 0x305 || a.bits == 0x320 || a.bits == 0x340 || a.bits == 0x342 || a.bits == 0x343
  }

  predicate Includes(r: Word, o: Word) { r.bits & o.bits == o.bits }

  predicate Excludes(r: Word, v: Word) { r.bits & v.bits == 0 }

  predicate AddsNothing(r: Word, o: Word) { r.bits & !o.bits == 0 }

  predicate WithinBoth(r: Word, o: Word, v: Word) { r.bits & !(o.bits | v.bits) == 0 }

  predicate SameBeside(r: Word, o: Word, v: Word) { r.bits | v.bits == o.bits | v.bits }

  lemma SetMasks(o: Word, v: Word)
    ensures var r := Csr.NewValue(Csr.SetBits, o, v); Includes(r, o) && Includes(r, v) && WithinBoth(r, o, v)
  {
    hide Includes, WithinBoth;
    SetIncludesOld(o, v);
    SetIncludesSource(o, v);
    SetStaysWithin(o, v);
  }

  lemma SetIncludesOld(o: Word, v: Word)
    ensures Includes(Csr.NewValue(Csr.SetBits, o, v), o)
  {}

  lemma SetIncludesSource(o: Word, v: Word)
    ensures Includes(Csr.NewValue(Csr.SetBits, o, v), v)
  {}

  lemma SetStaysWithin(o: Word, v: Word)
    ensures WithinBoth(Csr.NewValue(Csr.SetBits, o, v), o, v)
  {}

  lemma ClearMasks(o: Word, v: Word)
    ensures var r := Csr.NewValue(Csr.ClearBits, o, v); Excludes(r, v) && AddsNothing(r, o) && SameBeside(r, o, v)
  {
    hide Excludes, AddsNothing, SameBeside;
    ClearExcludesSource(o, v);
    ClearAddsNothing(o, v);
    ClearKeepsRest(o, v);
  }

  lemma ClearExcludesSource(o: Word, v: Word)
    ensures Excludes(Csr.NewValue(Csr.ClearBits, o, v), v)
  {}

  lemma ClearAddsNothing(o: Word, v: Word)
    ensures AddsNothing(Csr.NewValue(Csr.ClearBits, o, v), o)
  {}

  lemma ClearKeepsRest(o: Word, v: Word)
    ensures SameBeside(Csr.NewValue(Csr.ClearBits, o, v), o, v)
  {}

  /** The same over the CSR unit, with masks: a write leaves the source; a set has the bits of the old value
      and of the source and no others; a clear has those of the old value that are not in the source. */
  lemma WriteSetAndClear(s: Csr.State, c: Csr.Counters, e: Csr.Ext, a: Csr.Addr, src: Word)
    requires s.Valid() && HoldsEveryBit(a)
    ensures Csr.Read(Csr.Execute(s, c, e, Csr.Access(a, Csr.Write, src)), c, e, a) == src
    ensures var o := Csr.Read(s, c, e, a);
      var r := Csr.Read(Csr.Execute(s, c, e, Csr.Access(a, Csr.SetBits, src)), c, e, a);
      Includes(r, o) && Includes(r, src) && WithinBoth(r, o, src)
    ensures var o := Csr.Read(s, c, e, a);
      var r := Csr.Read(Csr.Execute(s, c, e, Csr.Access(a, Csr.ClearBits, src)), c, e, a);
      Excludes(r, src) && AddsNothing(r, o) && SameBeside(r, o, src)
  {
    hide Csr.Read, Csr.Execute, HoldsEveryBit, Includes, Excludes, AddsNothing, WithinBoth, SameBeside;
    var o := Csr.Read(s, c, e, a);
    SetMasks(o, src);
    ClearMasks(o, src);
    Stored(s, c, e, a, Csr.Write, src);
    Stored(s, c, e, a, Csr.SetBits, src);
    Stored(s, c, e, a, Csr.ClearBits, src);
  }

  lemma Stored(s: Csr.State, c: Csr.Counters, e: Csr.Ext, a: Csr.Addr, op: Csr.CsrOp, src: Word)
    requires s.Valid() && HoldsEveryBit(a)
    ensures Csr.Read(Csr.Execute(s, c, e, Csr.Access(a, op, src)), c, e, a)
         == Csr.NewValue(op, Csr.Read(s, c, e, a), src)
  {
    hide Csr.CfgSlot, Csr.AddrIndex, Csr.MstatusWarl, Csr.WriteCfg, Csr.WriteAddr, Csr.PackBytes, Csr.MipValue,
      Csr.Lo, Csr.Hi, Csr.NewValue, Csr.NoTimeBit, Csr.EvenWord;
  }

  lemma ClearedDigits(v: Word, k: bv6)
    requires k < 32
    ensures Digit(Csr.NoTimeBit(v), k) == (Digit(v, k) && k != 1)
    ensures Digit(Csr.EvenWord(v), k) == (Digit(v, k) && k != 0)
  {
    hide Bit, Digit, Csr.NoTimeBit, Csr.EvenWord;
    if k == 1 { TimeBitCleared(v); } else { OtherThanTimeKept(v, k); }
    if k == 0 { LowBitCleared(v); } else { OtherThanLowKept(v, k); }
    BitIsDigit(v, k);
    BitIsDigit(Csr.NoTimeBit(v), k);
    BitIsDigit(Csr.EvenWord(v), k);
  }

  lemma TimeBitCleared(v: Word)
    ensures !Bit(Csr.NoTimeBit(v), 1)
  {}

  lemma OtherThanTimeKept(v: Word, k: bv6)
    requires k < 32 && k != 1
    ensures Bit(Csr.NoTimeBit(v), k) == Bit(v, k)
  {}

  lemma LowBitCleared(v: Word)
    ensures !Bit(Csr.EvenWord(v), 0)
  {}

  lemma OtherThanLowKept(v: Word, k: bv6)
    requires k < 32 && k != 0
    ensures Bit(Csr.EvenWord(v), k) == Bit(v, k)
  {}

  // ------------------------------------------------------------------------------------------
  // mstatus
  // ------------------------------------------------------------------------------------------

  /** MIE, MPIE, MPRV and TW; MPP is the pair of bits 11 and 12. */
  predicate IsFlag(k: bv6) { k == 3 || k == 7 || k == 17 || k == 21 }

  predicate InLevel(k: bv6) { k == 11 || k == 12 }

  lemma FlagWritten(old_: Word, v: Word, k: bv6)
    requires IsFlag(k)
    ensures Bit(Csr.MstatusWarl(old_, v), k) == Bit(v, k)
  {
    if k == 3 {} else if k == 7 {} else if k == 17 {} else {}
  }

  lemma OtherNotWritten(old_: Word, v: Word, k: bv6)
    requires k < 32 && !IsFlag(k) && !InLevel(k)
    ensures Bit(Csr.MstatusWarl(old_, v), k) == Bit(old_, k)
  {
    hide Csr.MstatusWarl;
    SameOutside(old_, v);
    SameUnderMask(old_, Csr.MstatusWarl(old_, v), 0xFFDD_E777, k);
  }

  lemma SameOutside(old_: Word, v: Word)
    ensures Csr.MstatusWarl(old_, v).bits & 0xFFDD_E777 == old_.bits & 0xFFDD_E777
  {}

  lemma SameUnderMask(a: Word, b: Word, mask: bv32, k: bv6)
    requires k < 32 && a.bits & mask == b.bits & mask && Bit(Word(mask), k)
    ensures Bit(a, k) == Bit(b, k)
  {
    if Bit(a, k) {} else {}
  }

  lemma LevelWritten(old_: Word, v: Word, k: bv6)
    requires InLevel(k)
    ensures Bit(Csr.MstatusWarl(old_, v), k) == (Bit(v, 11) && Bit(v, 12))
  {}

  /** A CSR operation on mstatus: the flags take the operation's digits, MPP takes level 3 or else level 0,
      and nothing else changes. */
  lemma StatusOperations(b: Wb, s: Csr.State, c: Csr.Counters, e: Csr.Ext, k: bv6)
    requires s.Valid() && Operates(b) && NumberField(b.instr) == 0x300 && k < 32
    ensures var a := Csr.Addr(0x300);
      var old_, r := Csr.Read(s, c, e, a), Csr.Read(Csr.Execute(s, c, e, WbCommand(b)), c, e, a);
      Digit(r, k) ==
        if IsFlag(k) then Wanted(b.instr, Digit(old_, k), Digit(b.src, k))
        else if InLevel(k) then
          Wanted(b.instr, Digit(old_, 11), Digit(b.src, 11)) && Wanted(b.instr, Digit(old_, 12), Digit(b.src, 12))
        else Digit(old_, k)
  {
    hide Bit, Digit, IsWrite, IsSet, IsClear, CsrOpOf, IsCsrOp, CsrAddr, NumberField, Csr.NewValue, Csr.MstatusWarl;
    OperationCode(b.instr);
    var old_ := s.mstatus;
    var v := Csr.NewValue(CsrOpOf(b.instr), old_, b.src);
    var r := Csr.MstatusWarl(old_, v);
    OperationDigit(b.instr, old_, b.src, k);
    OperationDigit(b.instr, old_, b.src, 11);
    OperationDigit(b.instr, old_, b.src, 12);
    BitIsDigit(old_, k);
    BitIsDigit(v, k);
    BitIsDigit(v, 11);
    BitIsDigit(v, 12);
    BitIsDigit(r, k);
    if IsFlag(k) { FlagWritten(old_, v, k); }
    else if InLevel(k) { LevelWritten(old_, v, k); }
    else { OtherNotWritten(old_, v, k); }
  }

  lemma TrapKeeps(m: Word, p: Pmp.Priv, k: bv6)
    requires k < 32 && k != 3 && k != 7 && !InLevel(k)
    ensures Bit(Csr.TrapMstatus(m, p), k) == Bit(m, k)
  {}

  lemma TrapStacks(m: Word, p: Pmp.Priv)
    ensures var r := Csr.TrapMstatus(m, p);
      !Bit(r, 3) && Bit(r, 7) == Bit(m, 3) && Bit(r, 11) == (p.bits & 1 != 0) && Bit(r, 12) == (p.bits & 2 != 0)
  {}

  lemma LevelOfBits(p: Pmp.Priv)
    ensures p.bits as int == Place(p.bits & 1 != 0, 1) + Place(p.bits & 2 != 0, 2)
  {}

  /** A trap: mepc, mcause and mtval (0x341 to 0x343) read as it says; in mstatus (0x300) MIE is cleared,
      MPIE is the old MIE, MPP is the level the trap came from, and nothing else changes; the level is 3. */
  lemma TrapByBits(s: Csr.State, c: Csr.Counters, e: Csr.Ext, t: Csr.Trap, k: bv6)
    requires s.Valid() && k < 32
    ensures var r := Csr.Execute(s, c, e, Csr.Take(t));
      var m := Csr.Read(r, c, e, Csr.Addr(0x300));
      && Csr.Read(r, c, e, Csr.Addr(0x341)) == t.epc && Csr.Read(r, c, e, Csr.Addr(0x342)) == t.cause
      && Csr.Read(r, c, e, Csr.Addr(0x343)) == t.tval && r.priv.bits == 3
      && !Digit(m, 3) && Digit(m, 7) == Digit(s.mstatus, 3) && PreviousLevel(m) == s.priv.bits as int
      && (k != 3 && k != 7 && !InLevel(k) ==> Digit(m, k) == Digit(s.mstatus, k))
  {
    hide Bit, Digit, Csr.TrapMstatus, PreviousLevel, InLevel;
    var m := Csr.TrapMstatus(s.mstatus, s.priv);
    TrapStacks(s.mstatus, s.priv);
    LevelOfBits(s.priv);
    LevelDigits(m);
    BitIsDigit(m, 3);
    BitIsDigit(m, 7);
    BitIsDigit(m, 11);
    BitIsDigit(m, 12);
    BitIsDigit(m, k);
    BitIsDigit(s.mstatus, 3);
    BitIsDigit(s.mstatus, k);
    if k != 3 && k != 7 && !InLevel(k) { TrapKeeps(s.mstatus, s.priv, k); }
  }

  lemma ReturnKeeps(m: Word, k: bv6)
    requires k < 32 && k != 3 && k != 7 && !InLevel(k) && k != 17
    ensures Bit(Csr.MretMstatus(m), k) == Bit(m, k)
  {
    hide Csr.MretMstatus;
    SameAfterReturn(m);
    SameUnderMask(m, Csr.MretMstatus(m), 0xFFFD_E777, k);
  }

  lemma SameAfterReturn(m: Word)
    ensures Csr.MretMstatus(m).bits & 0xFFFD_E777 == m.bits & 0xFFFD_E777
  {
    if Csr.Mpp(m) == Pmp.MACHINE {} else {}
  }

  lemma ReturnUnstacks(m: Word)
    ensures var r := Csr.MretMstatus(m);
      Bit(r, 3) == Bit(m, 7) && Bit(r, 7) && !Bit(r, 11) && !Bit(r, 12)
      && Bit(r, 17) == (Bit(m, 17) && Csr.Mpp(m).bits == 3)
  {}

  /** A return: the level is the one in MPP; MIE is the old MPIE, MPIE is set, MPP is level 0, MPRV is
      cleared unless the level is 3, and nothing else changes. */
  lemma ReturnByBits(s: Csr.State, c: Csr.Counters, e: Csr.Ext, k: bv6)
    requires s.Valid() && k < 32
    ensures var r := Csr.Execute(s, c, e, Csr.Mret);
      var m := Csr.Read(r, c, e, Csr.Addr(0x300));
      && r.priv.bits as int == PreviousLevel(s.mstatus)
      && Digit(m, 3) == Digit(s.mstatus, 7) && Digit(m, 7) && PreviousLevel(m) == 0
      && Digit(m, 17) == (Digit(s.mstatus, 17) && PreviousLevel(s.mstatus) == 3)
      && (k != 3 && k != 7 && !InLevel(k) && k != 17 ==> Digit(m, k) == Digit(s.mstatus, k))
  {
    hide Bit, Digit, Csr.MretMstatus, PreviousLevel, InLevel, Csr.Mpp;
    var m := Csr.MretMstatus(s.mstatus);
    ReturnUnstacks(s.mstatus);
    LevelNumber(s.mstatus);
    SameLevel(Csr.Mpp(s.mstatus), Pmp.Priv(3));
    LevelDigits(m);
    BitIsDigit(m, 3);
    BitIsDigit(m, 7);
    BitIsDigit(m, 11);
    BitIsDigit(m, 12);
    BitIsDigit(m, 17);
    BitIsDigit(m, k);
    BitIsDigit(s.mstatus, 7);
    BitIsDigit(s.mstatus, 17);
    BitIsDigit(s.mstatus, k);
    if k != 3 && k != 7 && !InLevel(k) && k != 17 { ReturnKeeps(s.mstatus, k); }
  }

  // ------------------------------------------------------------------------------------------
  // Registers by number
  // ------------------------------------------------------------------------------------------

  /** The low and the high half of a count. */
  predicate Halves(c: Csr.Count, lo: Word, hi: Word) {
    && (lo.bits as bv64) == c.bits & 0xFFFF_FFFF
    && (hi.bits as bv64) << 32 == c.bits & 0xFFFF_FFFF_0000_0000
  }

  lemma LowHalf(c: Csr.Count)
    ensures (Csr.Lo(c).bits as bv64) == c.bits & 0xFFFF_FFFF
  {}

  lemma HighHalf(c: Csr.Count)
    ensures (Csr.Hi(c).bits as bv64) << 32 == c.bits & 0xFFFF_FFFF_0000_0000
  {}

  lemma HalvesOfCount(c: Csr.Count)
    ensures Halves(c, Csr.Lo(c), Csr.Hi(c))
  {
    hide Csr.Lo, Csr.Hi;
    LowHalf(c);
    HighHalf(c);
  }

  /** mip, 0x344, shows the lines at bits 11, 7 and 3. */
  lemma LinesRead(s: Csr.State, c: Csr.Counters, e: Csr.Ext, k: bv6)
    requires s.Valid() && k < 32
    ensures Digit(Csr.Read(s, c, e, Csr.Addr(0x344)), k)
        <==> (k == 11 && e.meip) || (k == 7 && e.mtip) || (k == 3 && e.msip)
  {
    hide Bit, Digit, Csr.MipValue;
    BitIsDigit(Csr.MipValue(e), k);
    LineBits(e, k);
  }

  lemma LineBits(e: Csr.Ext, k: bv6)
    requires k < 32
    ensures Bit(Csr.MipValue(e), k) == ((k == 11 && e.meip) || (k == 7 && e.mtip) || (k == 3 && e.msip))
  {
    if k == 11 {} else if k == 7 {} else if k == 3 {} else { OtherLines(e, k); }
  }

  lemma OtherLines(e: Csr.Ext, k: bv6)
    requires k < 32 && k != 11 && k != 7 && k != 3
    ensures !Bit(Csr.MipValue(e), k)
  {}

  /** Which register each number reads. */
  lemma NumbersOfRegisters(s: Csr.State, c: Csr.Counters, e: Csr.Ext)
    requires s.Valid()
    ensures Csr.Read(s, c, e, Csr.Addr(0x300)) == s.mstatus && Csr.Read(s, c, e, Csr.Addr(0x304)) == s.mie
    ensures Csr.Read(s, c, e, Csr.Addr(0x305)) == s.mtvec && Csr.Read(s, c, e, Csr.Addr(0x306)) == s.mcounteren
    ensures Csr.Read(s, c, e, Csr.Addr(0x320)) == s.mcountinhibit && Csr.Read(s, c, e, Csr.Addr(0x340)) == s.mscratch
    ensures Csr.Read(s, c, e, Csr.Addr(0x341)) == s.mepc && Csr.Read(s, c, e, Csr.Addr(0x342)) == s.mcause
    ensures Csr.Read(s, c, e, Csr.Addr(0x343)) == s.mtval && Csr.Read(s, c, e, Csr.Addr(0x301)) == Word(0x4010_1105)
  {
    hide Csr.PackBytes, Csr.MipValue, Csr.Lo, Csr.Hi;
  }

  /** The counters are read in halves, at machine and at user numbers. */
  lemma NumbersOfCounters(s: Csr.State, c: Csr.Counters, e: Csr.Ext)
    requires s.Valid()
    ensures Halves(c.mcycle, Csr.Read(s, c, e, Csr.Addr(0xB00)), Csr.Read(s, c, e, Csr.Addr(0xB80)))
    ensures Halves(c.minstret, Csr.Read(s, c, e, Csr.Addr(0xB02)), Csr.Read(s, c, e, Csr.Addr(0xB82)))
    ensures Csr.Read(s, c, e, Csr.Addr(0xC00)) == Csr.Read(s, c, e, Csr.Addr(0xB00))
    ensures Csr.Read(s, c, e, Csr.Addr(0xC80)) == Csr.Read(s, c, e, Csr.Addr(0xB80))
    ensures Csr.Read(s, c, e, Csr.Addr(0xC02)) == Csr.Read(s, c, e, Csr.Addr(0xB02))
    ensures Csr.Read(s, c, e, Csr.Addr(0xC82)) == Csr.Read(s, c, e, Csr.Addr(0xB82))
  {
    hide Halves, Csr.PackBytes, Csr.MipValue, Csr.Lo, Csr.Hi;
    HalvesOfCount(c.mcycle);
    HalvesOfCount(c.minstret);
  }

  lemma OneMore(c: Csr.Count)
    ensures Csr.PlusOne(c) == Csr.Count(c.bits + 1)
  {}

  /** They count, the cycles or the retirements, unless inhibited by bit 0 or 2 of mcountinhibit. */
  lemma CountingByBits(s: Csr.State, c: Csr.Counters, e: Csr.Ext, retire: bool)
    requires s.Valid()
    ensures var r := Csr.NextCounters(s, c, Csr.CsrIn(Csr.Idle, retire, e));
      && r.mcycle == (if Digit(s.mcountinhibit, 0) then c.mcycle else Csr.Count(c.mcycle.bits + 1))
      && r.minstret == (if !retire || Digit(s.mcountinhibit, 2) then c.minstret else Csr.Count(c.minstret.bits + 1))
  {
    hide Digit, Csr.PlusOne;
    OneMore(c.mcycle);
    OneMore(c.minstret);
    MaskIsDigit(s.mcountinhibit, 1, 0);
    MaskIsDigit(s.mcountinhibit, 4, 2);
  }

  // ------------------------------------------------------------------------------------------
  // Denials
  // ------------------------------------------------------------------------------------------

  /** A user-level counter number whose bit of mcounteren is clear: 0 for cycle, 2 for instret, and n for
      the n-th of the others. */
  predicate CounterClosed(k: Csr.State, n: bv12) {
    || ((n == 0xC00 || n == 0xC80) && !Digit(k.mcounteren, 0))
    || ((n == 0xC02 || n == 0xC82) && !Digit(k.mcounteren, 2))
    || ((0xC03 <= n <= 0xC1F || 0xC83 <= n <= 0xC9F) && !Digit(k.mcounteren, (n & 0x1F) as bv6))
  }

  lemma LowFive(n: bv12)
    ensures (n & 0x1F) as bv6 < 32
  {}

  lemma CountersByBits(k: Csr.State, n: bv12)
    ensures Isa.CounterDenied(k.mcounteren, n) <==> CounterClosed(k, n)
  {
    hide Digit;
    LowFive(n);
    MaskIsDigit(k.mcounteren, 1, 0);
    MaskIsDigit(k.mcounteren, 4, 2);
    BitIsDigit(k.mcounteren, (n & 0x1F) as bv6);
    OneBit(k.mcounteren, (n & 0x1F) as bv6);
  }

  lemma OneBit(w: Word, j: bv6)
    requires j < 32
    ensures (w.bits >> j) & 1 == 0 <==> !Bit(w, j)
  {}

  lemma SystemCodes(w: Word)
    ensures IsMret(w) <==> w.bits & 0xFFF0_707F == 0x3020_0073
    ensures IsWfi(w) <==> w.bits & 0xFFF0_707F == 0x1050_0073
  {}

  lemma CsrLevels(w: Word)
    ensures (Instr.Funct12(w) >> 8) & 3 == 3 <==> w.bits & 0x3000_0000 == 0x3000_0000
    ensures (Instr.Funct12(w) >> 8) & 3 == 1 <==> w.bits & 0x3000_0000 == 0x1000_0000
    ensures (Instr.Funct12(w) >> 8) & 3 == 2 <==> w.bits & 0x3000_0000 == 0x2000_0000
    ensures Instr.Funct12(w) >> 10 == 3 <==> w.bits & 0xC000_0000 == 0xC000_0000
    ensures Instr.Rs1(w) != Instr.X0 <==> w.bits & 0x000F_8000 != 0
    ensures Instr.Funct12(w) == NumberField(w)
  {}

  /** What EX rejects at a level: MRET below level 3; WFI there with TW, bit 21 of mstatus, set; and a CSR
      operation on a number of level 3 below it, of level 1 or 2, read-only with a source field, or a
      counter closed to level 0. */
  lemma DenialsByBits(x: Ex, k: Csr.State)
    ensures var w := x.instr.bits;
      PrivIllegal(x, k) <==>
        || (w & 0xFFF0_707F == 0x3020_0073 && x.priv.bits != 3)
        || (w & 0xFFF0_707F == 0x1050_0073 && x.priv.bits != 3 && Digit(k.mstatus, 21))
        || (IsCsrCode(x.instr) &&
             (|| (w & 0x3000_0000 == 0x3000_0000 && x.priv.bits != 3)
              || w & 0x3000_0000 == 0x1000_0000 || w & 0x3000_0000 == 0x2000_0000
              || (w & 0xC000_0000 == 0xC000_0000 && w & 0x000F_8000 != 0)
              || (x.priv.bits == 0 && CounterClosed(k, NumberField(x.instr)))))
  {
    hide Digit, Instr.Funct12, Instr.Rs1, IsMret, IsWfi, IsCsrOp, IsCsrCode, Isa.CounterDenied, CounterClosed,
      NumberField;
    SystemCodes(x.instr);
    CsrCode(x.instr);
    CsrLevels(x.instr);
    CountersByBits(k, NumberField(x.instr));
    MaskIsDigit(k.mstatus, 0x20_0000, 21);
  }

  // ------------------------------------------------------------------------------------------
  // Triggers
  // ------------------------------------------------------------------------------------------

  /** Bits 6 and 3 of tdata1 choose machine and user mode, bits 2, 1 and 0 execution, stores and loads;
      tdata2 is the address. */
  predicate Matched(t: Isa.Trigger, x: Ex) {
    && ((x.priv.bits == 3 && Digit(t.tdata1, 6)) || (x.priv.bits == 0 && Digit(t.tdata1, 3)))
    && (|| (Digit(t.tdata1, 2) && x.item.pc == t.tdata2)
        || (Digit(t.tdata1, 1) && Writes(x.instr) && AluResult(x) == t.tdata2)
        || (Digit(t.tdata1, 0) && x.instr.bits & 0x7F == 0x03 && AluResult(x) == t.tdata2))
  }

  lemma LoadCode(w: Word)
    ensures IsLoad(w) <==> w.bits & 0x7F == 0x03
  {
    if IsLoad(w) {} else {}
  }

  lemma FiresByBits(t: Isa.Trigger, x: Ex)
    ensures Isa.Fires(t, x.priv, x.item.pc, IsLoad(x.instr), IsStore(x.instr) || IsSc(x.instr) || IsAmo(x.instr),
                      AluResult(x))
        <==> Matched(t, x)
  {
    hide Digit, IsLoad, IsStore, IsSc, IsAmo, IsLr, Reads, Writes, AluResult;
    AccessCode(x.instr);
    LoadCode(x.instr);
    MaskIsDigit(t.tdata1, 0x40, 6);
    MaskIsDigit(t.tdata1, 0x8, 3);
    MaskIsDigit(t.tdata1, 4, 2);
    MaskIsDigit(t.tdata1, 2, 1);
    MaskIsDigit(t.tdata1, 1, 0);
  }

  /** A legal instruction entering execution hits a trigger exactly if one of the two matches it. */
  lemma TriggersByBits(e: Isa.Env, x: Ex)
    requires x.valid && x.st == Exec && DecLegal(x)
    ensures TriggerHit(e, x) <==> Matched(e.trig0, x) || Matched(e.trig1, x)
  {
    hide Digit, IsLoad, IsStore, IsSc, IsAmo, Writes, AluResult, Isa.Fires, Matched, DecLegal;
    FiresByBits(e.trig0, x);
    FiresByBits(e.trig1, x);
  }

  // ------------------------------------------------------------------------------------------
  // PMP registers
  // ------------------------------------------------------------------------------------------

  /** Fetched words are checked for execution alone, at the level in force. */
  lemma FetchLevel(e: Isa.Env, c: Core, i: In, a: Word)
    requires c.csr.Valid() && i.iRsp.Some? && a == Isa.ByteAddress(c.fe.PmpWord())
    ensures FetchIn(e, c, i).rsp.err
        <==> i.iRsp.value.err || !Pmp.Allow(c.csr.pmp, a, c.csr.priv, Pmp.Access(false, false, true))
  {
    hide Redirect, ExTarget, IdFire, Pmp.Allow;
  }

  /** A write of pmpaddr i, number 0x3B0 + i: it stays as it is if its entry is locked, or if the next one is
      a locked TOR entry. */
  lemma PmpAddressWrites(s: Csr.State, c: Csr.Counters, e: Csr.Ext, i: nat, v: Word)
    requires s.Valid() && i < 8
    ensures var a := Csr.Addr(0x3B0 + (i as bv12));
      var b, n := PmpDecision.Byte(s.pmp.cfg[i]), if i < 7 then PmpDecision.Byte(s.pmp.cfg[i + 1]) else 0;
      Csr.Read(Csr.Execute(s, c, e, Csr.Access(a, Csr.Write, v)), c, e, a)
      == if b >= 0x80 || (n >= 0x80 && n / 8 % 4 == 1) then Csr.Read(s, c, e, a) else v
  {
    hide Csr.Read, Csr.WriteState, Csr.AddrIndex, Csr.CfgSlot, PmpDecision.Byte, Pmp.Cfg.Locked, Pmp.Cfg.A;
    var a := Csr.Addr(0x3B0 + (i as bv12));
    CsrAccess.PmpNumbers(a, i);
    CsrAccess.PmpAddressReadsBack(s, c, e, a, v);
    PmpDecision.LockBit(s.pmp.cfg[i]);
    if i < 7 {
      PmpDecision.LockBit(s.pmp.cfg[i + 1]);
      PmpDecision.Modes(s.pmp.cfg[i + 1]);
    }
  }

  predicate BitOf8(x: bv8, k: bv6)
    requires k < 8
  {
    (x >> k) & 1 == 1
  }

  lemma ByteBit(w: Word, j: nat, k: bv6)
    requires j < 4 && k < 8
    ensures BitOf8(Csr.ByteOf(w, j), k) == Bit(w, (8 * j) as bv6 + k)
  {
    if j == 0 {} else if j == 1 {} else if j == 2 {} else {}
  }

  lemma LegalBit(b: bv8, k: bv6)
    requires k < 8
    ensures BitOf8(Csr.WarlCfg(b).bits, k) == (BitOf8(b, k) && k != 5 && k != 6)
  {
    if k == 5 {} else if k == 6 {} else {}
  }

  lemma LockedBit(b: bv8)
    ensures Pmp.Cfg(b).Locked() <==> BitOf8(b, 7)
  {
    if BitOf8(b, 7) {} else {}
  }

  /** A write of pmpcfg 0 or 1, numbers 0x3A0 and 0x3A1: byte j stays as it is if its bit 7 is set, and takes
      the written bits but 5 and 6 otherwise. */
  lemma PmpConfigWrites(s: Csr.State, c: Csr.Counters, e: Csr.Ext, a: Csr.Addr, v: Word, j: nat, k: bv6)
    requires s.Valid() && (a.bits == 0x3A0 || a.bits == 0x3A1) && j < 4 && k < 8
    ensures var old_, r := Csr.Read(s, c, e, a), Csr.Read(Csr.Execute(s, c, e, Csr.Access(a, Csr.Write, v)), c, e, a);
      var lane := (8 * j) as bv6;
      Digit(r, lane + k) ==
        if Digit(old_, lane + 7) then Digit(old_, lane + k) else Digit(v, lane + k) && k != 5 && k != 6
  {
    hide Bit, Digit, BitOf8, Csr.Read, Csr.WriteState, Csr.ByteOf, Csr.WarlCfg, Pmp.Cfg.Locked;
    var old_, r := Csr.Read(s, c, e, a), Csr.Read(Csr.WriteState(s, a, v), c, e, a);
    var lane := (8 * j) as bv6;
    Lanes(j, k);
    CsrAccess.PmpConfigReadsBack(s, c, e, a, v, j);
    LockedBit(Csr.ByteOf(old_, j));
    LegalBit(Csr.ByteOf(v, j), k);
    ByteBit(old_, j, 7);
    ByteBit(old_, j, k);
    ByteBit(v, j, k);
    ByteBit(r, j, k);
    BitIsDigit(old_, lane + 7);
    BitIsDigit(old_, lane + k);
    BitIsDigit(v, lane + k);
    BitIsDigit(r, lane + k);
  }

  lemma Lanes(j: nat, k: bv6)
    requires j < 4 && k < 8
    ensures (8 * j) as bv6 + k < 32
  {
    if j == 0 {} else if j == 1 {} else if j == 2 {} else {}
  }
}
