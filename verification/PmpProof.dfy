/** NAPOT arithmetic: the trailing-ones loop with a base/size range test against the mask rule. */
module PmpProof {
  import opened Words
  import opened Pmp

  // The bit facts below are single-step lemmas about these named functions; the proofs that
  // combine them hide the definitions.

  function LowOnes(r: bv6): (x: bv32)
    requires r <= 32
  {
    ((1 as bv32) << r) - 1
  }

  predicate OnesBelow(x: bv32, r: bv6)
    requires r <= 32
  {
    x & LowOnes(r) == LowOnes(r)
  }

  /** Size in bytes of a region with r trailing ones. */
  function Region(r: bv6): (x: bv32)
    requires r <= 32
  {
    (8 as bv32) << r
  }

  /** Size minus one of a region with r trailing ones. */
  function SizeMask(r: bv6): (x: bv32)
    requires r <= 32
  {
    Region(r) - 1
  }

  predicate IsLowMask(m: bv32) { m & (m + 1) == 0 }

  predicate CoversWord(m: bv32) { m & 7 == 7 }

  /** m is 2^k - 1 for some k >= 3. */
  predicate IsSizeMask(m: bv32) { IsLowMask(m) && CoversWord(m) }

  function Block(a: bv32, m: bv32): (r: bv32) { a & !m }

  function PastEnd(base: bv32, m: bv32): (r: bv32) { base + (m + 1) }

  predicate Aligned(base: bv32, m: bv32) { base & m == 0 }

  function Shl2(x: bv32): (r: bv32) { x << 2 }

  /** The bits an increment flips: the trailing ones and the zero above them. */
  function Flips(pa: Word): (r: bv32) { pa.bits ^ (pa.bits + 1) }

  predicate SameIndex(x: bv32, low: bv32, w: bv32) { (w ^ x) & !low == 0 }

  predicate SameAbove(x: bv32, low: bv32, a: bv32) { SameIndex(x, low, a >> 2) }

  /** The rule of the design documents: the address bits above the encoded size are equal. */
  predicate MaskRule(pa: Word, a: Word) { SameIndex(pa.bits, Flips(pa), WordIndex(a)) }

  predicate InRange(pa: Word) { pa.bits & 0xC000_0000 == 0 }

  /** What a caller can check before programming a NAPOT entry: the region ends below 2^32. */
  predicate EndsBelowTop(pa: Word) { pa.bits | (pa.bits + 1) < 0x3FFF_FFFF }

  lemma SetBitExtends(x: bv32, t: bv6)
    requires t < 32 && (x >> t) & 1 == 1 && OnesBelow(x, t)
    ensures OnesBelow(x, t + 1)
  {}

  lemma {:induction false} OnesAreSet(pa: Word, t: bv6)
    requires t <= 32 && OnesBelow(pa.bits, t)
    ensures OnesBelow(pa.bits, OnesFrom(pa, t))
    decreases 32 - t
  {
    hide OnesBelow;
    if t < 32 && BitSet(pa, t) {
      SetBitExtends(pa.bits, t);
      OnesAreSet(pa, t + 1);
    }
  }

  lemma {:induction false} FirstZero(pa: Word, t: bv6)
    requires t <= 32 && OnesFrom(pa, t) < 32
    ensures !BitSet(pa, OnesFrom(pa, t))
    decreases 32 - t
  {
    if BitSet(pa, t) { FirstZero(pa, t + 1); }
  }

  lemma NoOnesBelowZero(x: bv32)
    ensures OnesBelow(x, 0)
  {}

  lemma TrailingOnes(pa: Word)
    ensures OnesBelow(pa.bits, OnesFrom(pa, 0))
    ensures OnesFrom(pa, 0) < 32 ==> !BitSet(pa, OnesFrom(pa, 0))
  {
    hide OnesBelow, BitSet, OnesFrom;
    NoOnesBelowZero(pa.bits);
    OnesAreSet(pa, 0);
    if OnesFrom(pa, 0) < 32 { FirstZero(pa, 0); }
  }

  function Halve2(m: bv32): (r: bv32) { m >> 2 }

  lemma FlippedBits(pa: Word, r: bv6)
    requires r < 29 && OnesBelow(pa.bits, r) && !BitSet(pa, r)
    ensures Flips(pa) == Halve2(SizeMask(r))
  {}

  lemma SizeMaskShape(r: bv6)
    requires r < 29
    ensures IsSizeMask(SizeMask(r))
  {}

  lemma ManyOnes(pa: Word, r: bv6)
    requires 29 <= r <= 32 && OnesBelow(pa.bits, r) && InRange(pa)
    ensures !EndsBelowTop(pa)
  {}

  lemma NoSize(r: bv6)
    requires 29 <= r <= 32
    ensures SizeMask(r) + 1 == 0
  {}

  lemma MaskIsMonotone(x: bv32, y: bv32, m: bv32)
    requires IsSizeMask(m) && Le(x, y)
    ensures Le(Block(x, m), Block(y, m))
  {}

  lemma BlockOfBase(base: bv32, m: bv32)
    requires Aligned(base, m)
    ensures Block(base, m) == base
  {}

  lemma BlocksAreAligned(a: bv32, m: bv32)
    ensures Aligned(Block(a, m), m)
  {}

  lemma BlockStart(a: bv32, m: bv32)
    ensures Le(Block(a, m), a)
  {}

  lemma BlockEnd(a: bv32, m: bv32)
    requires IsSizeMask(m) && PastEnd(Block(a, m), m) != 0
    ensures Lt(a, PastEnd(Block(a, m), m))
  {}

  lemma NotPastBlock(base: bv32, m: bv32, a: bv32)
    requires IsSizeMask(m) && Aligned(base, m) && Le(base, a) && Lt(a, PastEnd(base, m))
    ensures Le(Block(a, m), base)
  {}

  /** An aligned range of addresses that does not wrap is one block of the mask. */
  lemma AlignedRange(base: bv32, m: bv32, a: bv32)
    requires IsSizeMask(m) && Aligned(base, m) && PastEnd(base, m) != 0
    ensures Le(base, a) && Lt(a, PastEnd(base, m)) <==> Block(a, m) == base
  {
    hide *;
    BlockStart(a, m);
    if Le(base, a) && Lt(a, PastEnd(base, m)) {
      MaskIsMonotone(base, a, m);
      BlockOfBase(base, m);
      NotPastBlock(base, m, a);
      Antisymmetric(Block(a, m), base);
    }
    if Block(a, m) == base { BlockEnd(a, m); }
  }

  lemma BlockToRule(pa: Word, m: bv32, a: bv32)
    requires CoversWord(m) && InRange(pa) && Block(a, m) == Block(Shl2(pa.bits), m)
    ensures SameAbove(pa.bits, Halve2(m), a)
  {}

  lemma RuleToBlock(x: bv32, m: bv32, a: bv32)
    requires CoversWord(m) && SameAbove(x, Halve2(m), a)
    ensures Block(a, m) == Block(Shl2(x), m)
  {}

  lemma EndStaysBelow(pa: Word, m: bv32)
    requires IsSizeMask(m) && InRange(pa) && EndsBelowTop(pa) && Flips(pa) == Halve2(m)
    ensures PastEnd(Block(Shl2(pa.bits), m), m) != 0
  {}

  lemma EndWraps(pa: Word, m: bv32)
    requires IsSizeMask(m) && InRange(pa) && !EndsBelowTop(pa) && Flips(pa) == Halve2(m)
    ensures PastEnd(Block(Shl2(pa.bits), m), m) == 0
  {}

  lemma NotAllOnes(pa: Word)
    requires InRange(pa)
    ensures pa.bits != 0xFFFF_FFFF
  {}

  /** The region test in terms of the size mask. */
  predicate InRegion(pa: Word, m: bv32, a: Word) {
    var base := Block(Shl2(pa.bits), m);
    Le(base, a.bits) && Lt(a.bits, PastEnd(base, m))
  }

  lemma SizeOfRegion(pa: Word)
    requires pa.bits != 0xFFFF_FFFF
    ensures NapotSize(pa).bits == Region(OnesFrom(pa, 0))
  {
    hide OnesFrom;
  }

  lemma BaseOfRegion(x: bv32, r: bv6)
    requires r <= 32
    ensures AlignDown(Shl2(x), Region(r)) == Block(Shl2(x), SizeMask(r))
  {
    hide Region, Shl2;
  }

  lemma EndOfRegion(base: bv32, r: bv6)
    requires r <= 32
    ensures RegionEnd(base, Region(r)) == PastEnd(base, SizeMask(r))
  {
    assert Region(r) - 1 + 1 == Region(r);
    hide *;
  }

  lemma RegionTest(pa: Word, a: Word)
    requires InRange(pa)
    ensures NapotMatches(pa, a) <==> InRegion(pa, SizeMask(OnesFrom(pa, 0)), a)
  {
    hide OnesFrom, NapotSize, SizeMask, Region, InRange, Le, Lt, AlignDown, RegionEnd, PastEnd, Block;
    var r := OnesFrom(pa, 0);
    NotAllOnes(pa);
    SizeOfRegion(pa);
    BaseOfRegion(pa.bits, r);
    EndOfRegion(Block(Shl2(pa.bits), SizeMask(r)), r);
  }

  lemma RuleToSameAbove(pa: Word, a: Word)
    requires MaskRule(pa, a)
    ensures SameAbove(pa.bits, Flips(pa), a.bits)
  {}

  lemma SameAboveToRule(pa: Word, a: Word)
    requires SameAbove(pa.bits, Flips(pa), a.bits)
    ensures MaskRule(pa, a)
  {}

  /** In range and ending below 2^32, the range test is the mask rule. */
  lemma NapotInRange(pa: Word, a: Word)
    requires InRange(pa) && EndsBelowTop(pa)
    ensures NapotMatches(pa, a) <==> MaskRule(pa, a)
  {
    hide OnesBelow, IsLowMask, CoversWord, SizeMask, Block, PastEnd, Aligned, Shl2, Flips, SameAbove, MaskRule,
      InRange, EndsBelowTop, Halve2, Lt, Le, NapotMatches, BitSet, OnesFrom;
    TrailingOnes(pa);
    var r := OnesFrom(pa, 0);
    if 29 <= r { ManyOnes(pa, r); assert false; }
    var m := SizeMask(r);
    var base := Block(Shl2(pa.bits), m);
    SizeMaskShape(r);
    FlippedBits(pa, r);
    EndStaysBelow(pa, m);
    BlocksAreAligned(Shl2(pa.bits), m);
    RegionTest(pa, a);
    AlignedRange(base, m, a.bits);
    if MaskRule(pa, a) { RuleToSameAbove(pa, a); }
    if SameAbove(pa.bits, Flips(pa), a.bits) { SameAboveToRule(pa, a); }
    if SameAbove(pa.bits, Halve2(m), a.bits) { RuleToBlock(pa.bits, m, a.bits); }
    if Block(a.bits, m) == base { BlockToRule(pa, m, a.bits); }
  }

  lemma RuleHoldsAtEncoding(pa: Word)
    requires InRange(pa)
    ensures SameAbove(pa.bits, Flips(pa), Shl2(pa.bits))
  {
    assert (Shl2(pa.bits) >> 2) ^ pa.bits == 0;
  }

  lemma NothingBelowZero(a: bv32)
    ensures !Lt(a, 0)
  {}

  lemma EmptySize(base: bv32, r: bv6)
    requires r <= 32 && SizeMask(r) + 1 == 0
    ensures PastEnd(base, SizeMask(r)) == base
  {}

  lemma NothingBelowItself(base: bv32, a: bv32)
    ensures !(Le(base, a) && Lt(a, base))
  {}

  /** A region that reaches 2^32 matches no address at all, though its rule holds for some. */
  lemma NapotAtTop(pa: Word, a: Word)
    requires InRange(pa) && !EndsBelowTop(pa)
    ensures !NapotMatches(pa, a) && MaskRule(pa, Word(Shl2(pa.bits)))
  {
    hide OnesBelow, IsLowMask, CoversWord, SizeMask, Block, PastEnd, Aligned, Shl2, Flips, SameAbove, InRange,
      EndsBelowTop, Halve2, Lt, Le, NapotMatches, BitSet, OnesFrom;
    TrailingOnes(pa);
    RuleHoldsAtEncoding(pa);
    RegionTest(pa, a);
    var r := OnesFrom(pa, 0);
    var m := SizeMask(r);
    var base := Block(Shl2(pa.bits), m);
    if r < 29 {
      SizeMaskShape(r);
      FlippedBits(pa, r);
      EndWraps(pa, m);
      NothingBelowZero(a.bits);
    } else {
      NoSize(r);
      EmptySize(base, r);
      NothingBelowItself(base, a.bits);
    }
  }

  /** The range test implements the mask rule exactly when the region ends below 2^32. */
  lemma NapotExact(pa: Word)
    requires InRange(pa)
    ensures (forall a :: NapotMatches(pa, a) <==> MaskRule(pa, a)) <==> EndsBelowTop(pa)
  {
    hide *;
    if EndsBelowTop(pa) {
      forall a ensures NapotMatches(pa, a) <==> MaskRule(pa, a) { NapotInRange(pa, a); }
    } else {
      NapotAtTop(pa, Word(Shl2(pa.bits)));
    }
  }

  // ------------------------------------------------------------------------------------------
  // One decision for all bytes of a word
  // ------------------------------------------------------------------------------------------

  predicate WordAligned(x: bv32) { x & 3 == 0 }

  lemma RegionIsAligned(r: bv6)
    requires r <= 32
    ensures WordAligned(Region(r))
  {}

  lemma BaseIsAligned(x: bv32, size: bv32)
    ensures WordAligned(AlignDown(Shl2(x), size))
  {}

  lemma EndIsAligned(base: bv32, size: bv32)
    requires WordAligned(base) && WordAligned(size)
    ensures WordAligned(RegionEnd(base, size))
  {}

  lemma StartsPerWord(base: bv32, a: Word, b: Word)
    requires WordAligned(base) && WordIndex(a) == WordIndex(b) && Le(base, a.bits)
    ensures Le(base, b.bits)
  {}

  lemma EndsPerWord(end: bv32, a: Word, b: Word)
    requires WordAligned(end) && WordIndex(a) == WordIndex(b) && Lt(a.bits, end)
    ensures Lt(b.bits, end)
  {}

  /** A region test between word-aligned bounds sees words, wrapping or not. */
  lemma NapotWordByWord(pa: Word, a: Word, b: Word)
    requires pa.bits != 0xFFFF_FFFF && WordIndex(a) == WordIndex(b) && NapotMatches(pa, a)
    ensures NapotMatches(pa, b)
  {
    hide OnesFrom, NapotSize, Region, Le, Lt, AlignDown, RegionEnd, WordIndex, WordAligned;
    SizeOfRegion(pa);
    RegionIsAligned(OnesFrom(pa, 0));
    BaseIsAligned(pa.bits, NapotSize(pa).bits);
    EndIsAligned(NapotBase(pa).bits, NapotSize(pa).bits);
    StartsPerWord(NapotBase(pa).bits, a, b);
    EndsPerWord(RegionEnd(NapotBase(pa).bits, NapotSize(pa).bits), a, b);
  }

  lemma LastByteIsMissed(pa: Word)
    requires pa.bits == 0xFFFF_FFFF
    ensures NapotMatches(pa, Word(0xFFFF_FFFE)) && !NapotMatches(pa, Word(0xFFFF_FFFF))
    ensures WordIndex(Word(0xFFFF_FFFE)) == WordIndex(Word(0xFFFF_FFFF))
  {
    assert NapotSize(pa) == Word(0xFFFF_FFFF);
  }

  /** A NAPOT entry decides word by word exactly if its register is not all ones. */
  lemma NapotIsPerWord(pa: Word)
    ensures (forall a, b :: WordIndex(a) == WordIndex(b) ==> (NapotMatches(pa, a) <==> NapotMatches(pa, b)))
       <==> pa.bits != 0xFFFF_FFFF
  {
    hide NapotMatches, WordIndex;
    if pa.bits == 0xFFFF_FFFF {
      LastByteIsMissed(pa);
    } else {
      forall a, b | WordIndex(a) == WordIndex(b) ensures NapotMatches(pa, a) <==> NapotMatches(pa, b) {
        if NapotMatches(pa, a) { NapotWordByWord(pa, a, b); }
        if NapotMatches(pa, b) { NapotWordByWord(pa, b, a); }
      }
    }
  }

  predicate IsNapot(c: Cfg) { c.A() != OFF && c.A() != TOR && c.A() != NA4 }

  /** No NAPOT entry has the all-ones register. */
  predicate NoAllOnes(g: Regions)
    requires g.Valid()
  {
    forall i :: 0 <= i < |g.cfg| ==> IsNapot(g.cfg[i]) ==> g.addr[i].bits != 0xFFFF_FFFF
  }

  lemma EntryOfWord(g: Regions, i: nat, a: Word, b: Word)
    requires g.Valid() && i < |g.cfg| && WordIndex(a) == WordIndex(b) && NoAllOnes(g)
    ensures EntryMatches(g, i, a) <==> EntryMatches(g, i, b)
  {
    hide Low30, Le, Lt, Cfg.A, NapotMatches, WordIndex;
    if IsNapot(g.cfg[i]) { NapotIsPerWord(g.addr[i]); }
  }

  /** The decision is the same for all four bytes of a word, whatever the ranges and privilege. */
  lemma DecisionIsPerWord(g: Regions, a: Word, b: Word, p: Priv, q: Access)
    requires g.Valid() && NoAllOnes(g) && WordIndex(a) == WordIndex(b)
    ensures Allow(g, a, p, q) <==> Allow(g, b, p, q)
  {
    hide EntryMatches, Permits, NoAllOnes, WordIndex;
    forall k | 0 <= k < |g.cfg| ensures EntryMatches(g, k, a) <==> EntryMatches(g, k, b) {
      EntryOfWord(g, k, a, b);
    }
  }
}
