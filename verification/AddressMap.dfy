/** Addresses in numbers: the regions of the two memory systems, the RAM words, and what the halfword parser
    reads at a pc. */
module AddressMap {
  import opened Words
  import opened Digits
  import Isa
  import Fabric
  import AxiPath
  import Transfers
  import F = Fetch

  // ------------------------------------------------------------------------------------------
  // Regions
  // ------------------------------------------------------------------------------------------

  /** Between two words, both included. */
  predicate Within(a: Word, first: Word, last: Word) { !Lt(a.bits, first.bits) && !Lt(last.bits, a.bits) }

  lemma WithinNumbers(a: Word, first: Word, last: Word)
    ensures Within(a, first, last) <==> Number(first) <= Number(a) <= Number(last)
  {
    hide Number, Lt;
    LessNumber(a, first);
    LessNumber(last, a);
  }

  lemma RomBits(a: Word)
    ensures Fabric.SelRom(a) <==> Within(a, ZERO, Word(0x001F_FFFF))
  {
    if Fabric.SelRom(a) {} else {}
  }

  lemma RamBits(a: Word)
    ensures Isa.InRam(a) <==> Within(a, Word(0x8000_0000), Word(0x8003_FFFF))
  {
    if Isa.InRam(a) {} else {}
  }

  lemma MmioBits(a: Word)
    ensures Fabric.SelMmio(a) <==> Within(a, Word(0x1000_0000), Word(0x1000_FFFF))
  {
    if Fabric.SelMmio(a) {} else {}
  }

  lemma ClintBits(a: Word)
    ensures Fabric.SelClint(a) <==> Within(a, Word(0x0200_0000), Word(0x0200_FFFF))
  {
    if Fabric.SelClint(a) {} else {}
  }

  lemma PlicBits(a: Word)
    ensures Fabric.SelPlic(a) <==> Within(a, Word(0x0C00_0000), Word(0x0C3F_FFFF))
  {
    if Fabric.SelPlic(a) {} else {}
  }

  lemma BoundNumbers()
    ensures Number(ZERO) == 0 && Number(Word(0x001F_FFFF)) == 0x001F_FFFF
    ensures Number(Word(0x8000_0000)) == 0x8000_0000 && Number(Word(0x8003_FFFF)) == 0x8003_FFFF
    ensures Number(Word(0x1000_0000)) == 0x1000_0000 && Number(Word(0x1000_FFFF)) == 0x1000_FFFF
    ensures Number(Word(0x0200_0000)) == 0x0200_0000 && Number(Word(0x0200_FFFF)) == 0x0200_FFFF
    ensures Number(Word(0x0C00_0000)) == 0x0C00_0000 && Number(Word(0x0C3F_FFFF)) == 0x0C3F_FFFF
  {}

  /** Which addresses each slave of the data fabric is selected for. */
  lemma RegionNumbers(a: Word)
    ensures Fabric.SelRom(a) <==> Number(a) < 0x0020_0000
    ensures Isa.InRam(a) <==> 0x8000_0000 <= Number(a) < 0x8004_0000
    ensures Fabric.SelMmio(a) <==> 0x1000_0000 <= Number(a) < 0x1001_0000
    ensures Fabric.SelClint(a) <==> 0x0200_0000 <= Number(a) < 0x0201_0000
    ensures Fabric.SelPlic(a) <==> 0x0C00_0000 <= Number(a) < 0x0C40_0000
  {
    hide Number, Within, Fabric.SelRom, Fabric.SelMmio, Fabric.SelClint, Fabric.SelPlic, Isa.InRam;
    BoundNumbers();
    RomBits(a);
    RamBits(a);
    MmioBits(a);
    ClintBits(a);
    PlicBits(a);
    WithinNumbers(a, ZERO, Word(0x001F_FFFF));
    WithinNumbers(a, Word(0x8000_0000), Word(0x8003_FFFF));
    WithinNumbers(a, Word(0x1000_0000), Word(0x1000_FFFF));
    WithinNumbers(a, Word(0x0200_0000), Word(0x0200_FFFF));
    WithinNumbers(a, Word(0x0C00_0000), Word(0x0C3F_FFFF));
  }

  lemma SlaveRomBits(a: Word)
    ensures AxiPath.InRom(a) <==> Within(a, ZERO, Word(0xFFFF))
  {
    if AxiPath.InRom(a) {} else {}
  }

  lemma SlaveRomEnd()
    ensures Number(ZERO) == 0 && Number(Word(0xFFFF)) == 0xFFFF
  {}

  lemma DevicesOfFabric(a: Word)
    ensures AxiPath.InDevice(a) <==> Fabric.SelClint(a) || Fabric.SelMmio(a) || Fabric.SelPlic(a)
  {}

  /** Which addresses the AXI slave maps. */
  lemma SlaveRegionNumbers(a: Word)
    ensures AxiPath.InRom(a) <==> Number(a) < 0x1_0000
    ensures AxiPath.InDevice(a) <==>
      || 0x0200_0000 <= Number(a) < 0x0201_0000 || 0x0C00_0000 <= Number(a) < 0x0C40_0000
      || 0x1000_0000 <= Number(a) < 0x1001_0000
  {
    hide Number, Within, Fabric.SelRom, Fabric.SelMmio, Fabric.SelClint, Fabric.SelPlic, Isa.InRam, AxiPath.InRom,
      AxiPath.InDevice;
    DevicesOfFabric(a);
    RegionNumbers(a);
    SlaveRomBits(a);
    SlaveRomEnd();
    WithinNumbers(a, ZERO, Word(0xFFFF));
  }

  // ------------------------------------------------------------------------------------------
  // RAM words
  // ------------------------------------------------------------------------------------------

  lemma LowDigit16(n: nat, k: bv6)
    requires n < 0x1_0000 && k < 8
    ensures Odd(n / Power(k as int)) <==> ((n as bv16) >> k) & 1 == 1
  {
    hide Power;
    Powers0();
    if k == 0 {} else if k == 1 {} else if k == 2 {} else if k == 3 {}
    else if k == 4 {} else if k == 5 {} else if k == 6 {} else if k == 7 {}
  }

  lemma HighDigit16(n: nat, k: bv6)
    requires n < 0x1_0000 && 8 <= k < 16
    ensures Odd(n / Power(k as int)) <==> ((n as bv16) >> k) & 1 == 1
  {
    hide Power;
    Powers1();
    if k == 8 {} else if k == 9 {} else if k == 10 {} else if k == 11 {}
    else if k == 12 {} else if k == 13 {} else if k == 14 {} else if k == 15 {}
  }

  lemma IndexBit(a: Word, k: bv6)
    requires k < 16
    ensures (IndexBits(a) >> k) & 1 == 1 <==> Bit(Isa.ShiftRight(a, 2), k)
  {}

  lemma Pattern16(t: bv16)
    ensures (t as int) as bv16 == t
  {}

  function IndexBits(a: Word): (t: bv16) { ((a.bits >> 2) & 0xFFFF) as bv16 }

  lemma IndexOfBits(a: Word)
    ensures Isa.RamIndex(a) == IndexBits(a) as int
  {}

  lemma IndexPattern(a: Word)
    ensures Isa.RamIndex(a) as bv16 == IndexBits(a)
  {
    hide Isa.RamIndex, IndexBits;
    IndexOfBits(a);
    Pattern16(IndexBits(a));
  }

  lemma IndexDigit(a: Word, k: bv6)
    requires k < 16
    ensures Odd(Isa.RamIndex(a) / Power(k as int)) <==> Bit(Isa.ShiftRight(a, 2), k)
  {
    hide Isa.RamIndex, IndexBits, Power, Bit, Isa.ShiftRight;
    IndexPattern(a);
    IndexBit(a, k);
    if k < 8 { LowDigit16(Isa.RamIndex(a), k); } else { HighDigit16(Isa.RamIndex(a), k); }
  }

  lemma {:induction false} IndexDigits(a: Word, k: bv6)
    requires k <= 16
    ensures Isa.RamIndex(a) % Power(k as int) == LowPart(Isa.ShiftRight(a, 2), k)
    decreases k
  {
    hide Isa.RamIndex, Power, Bit, Isa.ShiftRight, LowPart;
    if k == 0 {
      FirstPower();
      NoLowPart(Isa.ShiftRight(a, 2));
    } else {
      var j := k - 1;
      assert k == j + 1;
      IndexDigits(a, j);
      IndexDigit(a, j);
      NextPower(j);
      Remainder(Isa.RamIndex(a), Power(j as int));
      NextLowPart(Isa.ShiftRight(a, 2), j);
    }
  }

  lemma FourthOf(n: nat)
    requires 0x8000_0000 <= n < 0x8004_0000
    ensures n / 4 % 0x1_0000 == (n - 0x8000_0000) / 4
  {}

  /** The word of RAM an address selects: a quarter of its distance from the first. */
  lemma RamWordNumber(a: Word)
    requires Isa.InRam(a)
    ensures Isa.RamIndex(a) == (Number(a) - 0x8000_0000) / 4
  {
    hide Isa.RamIndex, Isa.InRam, Isa.ShiftRight, Number, Power, Fabric.SelRom, Fabric.SelMmio, Fabric.SelClint,
      Fabric.SelPlic;
    RegionNumbers(a);
    IndexDigits(a, 16);
    ShiftRightNumber(a, 2);
    assert (16 as bv6) as int == 16 && (2 as bv6) as int == 2;
    Powers0();
    Powers2();
    FourthOf(Number(a));
  }

  // ------------------------------------------------------------------------------------------
  // Parsing
  // ------------------------------------------------------------------------------------------

  /** The halfword of a little-endian word that holds address pc. */
  function HalfwordOf(d: Word, pc: Word): (n: nat) { Transfers.BytesOf(d, 2 * (Number(pc) / 2 % 2), 2) }

  lemma UpperNumber(pc: Word)
    ensures IsUpper(pc) <==> Number(pc) / 2 % 2 == 1
  {
    hide Number, Power;
    MaskIsDigit(pc, 2, 1);
    assert (1 as bv6) as int == 1;
    Powers0();
  }

  lemma SmallHalf(h: Half)
    ensures Number(Zext(h)) < 0x1_0000
  {
    hide Number, Lt;
    assert Number(Word(0x1_0000)) == 0x1_0000 by { Transfers.SizeNumbers(); }
    assert Lt(Zext(h).bits, 0x1_0000) by { HalfIsSmall(h); }
    LessNumber(Zext(h), Word(0x1_0000));
  }

  lemma HalfIsSmall(h: Half)
    ensures Lt(Zext(h).bits, 0x1_0000)
  {}

  lemma LowHalfIsField(d: Word)
    ensures Zext(HalfOf(d, false)) == Masked(d, 16)
  {}

  lemma HighHalfIsShift(d: Word)
    ensures Zext(HalfOf(d, true)) == Isa.ShiftRight(d, 16)
  {}

  lemma HalfwordNumber(d: Word, pc: Word)
    ensures Number(Zext(HalfOf(d, IsUpper(pc)))) == HalfwordOf(d, pc)
  {
    hide Number, Power, IsUpper, HalfOf, Zext, Masked, Isa.ShiftRight;
    UpperNumber(pc);
    LowHalfIsField(d);
    HighHalfIsShift(d);
    SmallHalf(HalfOf(d, true));
    MaskedNumber(d, 16);
    ShiftRightNumber(d, 16);
    assert (16 as bv6) as int == 16;
    Powers0();
    Powers2();
    SmallRest(Number(d));
  }

  lemma SmallRest(n: nat)
    requires n < TWO32
    ensures n / 0x1_0000 % 0x1_0000 == n / 0x1_0000 && n / 1 == n
  {}

  lemma ShortNumber(h: Half)
    ensures F.IsShort(h) <==> Number(Zext(h)) % 4 != 3
  {
    hide Number;
    Transfers.LaneNumber(Zext(h));
    ShortBits(h);
  }

  lemma ShortBits(h: Half)
    ensures F.IsShort(h) <==> Zext(h).bits & 3 != 3
  {
    if F.IsShort(h) {} else {}
  }

  lemma JoinApart(hi: Half, lo: Half)
    ensures Join(hi, lo) == Isa.Sum(Isa.ShiftLeft(Zext(hi), 16), Zext(lo))
  {}

  lemma JoinNumber(hi: Half, lo: Half)
    ensures Number(Join(hi, lo)) == Number(Zext(hi)) * 0x1_0000 + Number(Zext(lo))
  {
    hide Number, Power, Join, Zext, Isa.Sum, Isa.ShiftLeft;
    JoinApart(hi, lo);
    SumNumber(Isa.ShiftLeft(Zext(hi), 16), Zext(lo));
    ShiftLeftNumber(Zext(hi), 16);
    assert (16 as bv6) as int == 16;
    Powers2();
    SmallHalf(hi);
    SmallHalf(lo);
    WholeWord(Number(Zext(hi)) * 0x1_0000);
    WholeWord(Number(Zext(hi)) * 0x1_0000 + Number(Zext(lo)));
  }

  lemma AddressBits(pc: Word)
    ensures Isa.Sum(Isa.ByteAddress(WordOf(pc)), Masked(pc, 2)) == pc
    ensures Isa.ByteAddress(WordOf(pc)).bits & 3 == 0
  {}

  lemma NextAddress(a: WordAddr)
    ensures Isa.ByteAddress(NextWord(a)) == Plus(Isa.ByteAddress(a), 4)
  {}

  lemma PlusNumber(a: Word)
    ensures Number(Plus(a, 2)) == (Number(a) + 2) % TWO32 && Number(Plus(a, 4)) == (Number(a) + 4) % TWO32
  {
    hide Number, Plus, Isa.Sum;
    SmallSums(a);
    SumNumber(a, Word(2));
    SumNumber(a, Word(4));
    Four();
  }

  lemma SmallSums(a: Word)
    ensures Plus(a, 2) == Isa.Sum(a, Word(2)) && Plus(a, 4) == Isa.Sum(a, Word(4))
  {}

  /** The word address of a pc is that of its four-byte block, and word addresses count in fours. */
  lemma WordAddressNumber(pc: Word)
    ensures Number(Isa.ByteAddress(WordOf(pc))) == Number(pc) - Number(pc) % 4
    ensures Number(Isa.ByteAddress(NextWord(WordOf(pc)))) == (Number(pc) - Number(pc) % 4 + 4) % TWO32
  {
    hide Number, Power, Isa.ByteAddress, WordOf, NextWord, Plus, Isa.Sum, Masked;
    var a := Isa.ByteAddress(WordOf(pc));
    AddressBits(pc);
    SumNumber(a, Masked(pc, 2));
    MaskedNumber(pc, 2);
    Transfers.LaneNumber(a);
    assert (2 as bv6) as int == 2;
    Powers0();
    NextAddress(WordOf(pc));
    PlusNumber(a);
  }

  lemma Four()
    ensures Number(Word(4)) == 4 && Number(Word(2)) == 2 && Number(NOP) == 0x13
  {}

  /** An instruction is the halfword at its pc, unless the two low bits are both set; then the next halfword
      is its upper half. What cannot be fetched is an ADDI x0, x0, 0 with an error. */
  lemma ParsedNumbers(m: F.IMem, pc: Word)
    ensures var first, second := m(WordOf(pc)), m(WordOf(Plus(pc, 2)));
      var i, lo, hi := F.ParseAt(m, pc), HalfwordOf(first.data, pc), HalfwordOf(second.data, Plus(pc, 2));
      if first.err then i.err && !i.isC && Number(i.raw) == 0x13
      else if lo % 4 != 3 then
        i.isC && !i.err && Number(i.raw) == lo && Number(F.After(i)) == (Number(pc) + 2) % TWO32
      else
        !i.isC && i.err == second.err && Number(i.raw) == hi * 0x1_0000 + lo
        && Number(F.After(i)) == (Number(pc) + 4) % TWO32
  {
    hide Number, HalfwordOf, Plus, WordOf, IsUpper, HalfOf, Zext, Join, F.IsShort;
    var first, second := m(WordOf(pc)), m(WordOf(Plus(pc, 2)));
    HalfwordNumber(first.data, pc);
    HalfwordNumber(second.data, Plus(pc, 2));
    ShortNumber(HalfOf(first.data, IsUpper(pc)));
    JoinNumber(HalfOf(second.data, IsUpper(Plus(pc, 2))), HalfOf(first.data, IsUpper(pc)));
    PlusNumber(pc);
    Four();
  }
}
