/** The matcher's decision against the specification's, with addresses and configuration bytes as numbers. */
module PmpDecision {
  import opened Words
  import opened Pmp
  import opened PmpProof
  import opened Digits
  import Isa

  /** A configuration byte as a number. */
  function Byte(c: Cfg): (n: nat) { c.bits as int }

  /** Address matching of section 3.7.1 of the RISC-V Privileged specification, version 20211203, on
      full-width pmpaddr registers: field A is bits 4 and 3. */
  predicate SpecMatches(c: Cfg, this_: Word, prev: Word, a: Word) {
    var mode, x := Byte(c) / 8 % 4, Number(a);
    if mode == 0 then false
    else if mode == 1 then 4 * Number(prev) <= x < 4 * Number(this_)
    else if mode == 2 then 4 * Number(this_) <= x < 4 * Number(this_) + 4
    else MaskRule(this_, a)
  }

  predicate SpecEntry(g: Regions, i: nat, a: Word)
    requires g.Valid() && i < |g.cfg|
  {
    SpecMatches(g.cfg[i], g.addr[i], if i == 0 then ZERO else g.addr[i - 1], a)
  }

  /** Bits 0, 1 and 2 grant reads, writes and fetches. */
  predicate SpecPermits(b: nat, q: Access) {
    (q.r ==> b % 2 == 1) && (q.w ==> b / 2 % 2 == 1) && (q.x ==> b / 4 % 2 == 1)
  }

  /** Entry j is the lowest-numbered one that matches. */
  ghost predicate Rules(g: Regions, j: nat, a: Word)
    requires g.Valid() && j < |g.cfg|
  {
    SpecEntry(g, j, a) && forall k :: 0 <= k < j ==> !SpecEntry(g, k, a)
  }

  /** Machine mode, level 3, is bound only by entries with bit 7 set, and needs no entry; level 0 needs one. */
  ghost predicate SpecAllow(g: Regions, a: Word, p: Priv, q: Access)
    requires g.Valid()
  {
    || (exists j :: 0 <= j < |g.cfg| && Rules(g, j, a) &&
          ((p.bits == 3 && Byte(g.cfg[j]) < 0x80) || SpecPermits(Byte(g.cfg[j]), q)))
    || (p.bits == 3 && forall k :: 0 <= k < |g.cfg| ==> !SpecEntry(g, k, a))
  }

  lemma ReadBit(c: Cfg)
    ensures c.R() <==> Byte(c) % 2 == 1
  {}

  lemma WriteBit(c: Cfg)
    ensures c.W() <==> Byte(c) / 2 % 2 == 1
  {}

  lemma FetchBit(c: Cfg)
    ensures c.X() <==> Byte(c) / 4 % 2 == 1
  {}

  lemma LockBit(c: Cfg)
    ensures c.Locked() <==> Byte(c) >= 0x80
  {}

  lemma ModeBits(c: Cfg)
    ensures c.A() as int == Byte(c) / 8 % 4
  {}

  lemma Modes(c: Cfg)
    ensures c.A() == OFF <==> Byte(c) / 8 % 4 == 0
    ensures c.A() == TOR <==> Byte(c) / 8 % 4 == 1
    ensures c.A() == NA4 <==> Byte(c) / 8 % 4 == 2
  {
    hide Byte, Cfg.A;
    ModeBits(c);
    SmallModes(c.A());
  }

  lemma SmallModes(m: bv8)
    ensures m == OFF <==> m as int == 0
    ensures m == TOR <==> m as int == 1
    ensures m == NA4 <==> m as int == 2
  {}

  lemma PermitsByBits(c: Cfg, q: Access)
    ensures Permits(c, q) <==> SpecPermits(Byte(c), q)
  {
    hide Byte, Cfg.R, Cfg.W, Cfg.X;
    ReadBit(c);
    WriteBit(c);
    FetchBit(c);
  }

  /** The first matching entry decides by the bits of its byte: 0, 1 and 2 for reads, writes and fetches,
      and 7, without which it binds only user mode. A request of several kinds needs each bit. */
  lemma FirstMatchDecides(g: Regions, a: Word, p: Priv, q: Access, j: nat)
    requires g.Valid() && j < |g.cfg|
    requires EntryMatches(g, j, a) && forall k :: 0 <= k < j ==> !EntryMatches(g, k, a)
    ensures var b := g.cfg[j].bits as int;
      Allow(g, a, p, q) <==>
        (p.bits != 0 && b < 0x80) || ((q.r ==> b % 2 == 1) && (q.w ==> b / 2 % 2 == 1) && (q.x ==> b / 4 % 2 == 1))
  {
    hide EntryMatches, Permits, Cfg.Locked;
    PermitsByBits(g.cfg[j], q);
    LockBit(g.cfg[j]);
    assert FirstMatch(g, a, 0) == Some(j);
  }

  lemma NoMatchDecides(g: Regions, a: Word, p: Priv, q: Access)
    requires g.Valid() && |g.cfg| > 0 && forall k :: 0 <= k < |g.cfg| ==> !EntryMatches(g, k, a)
    ensures Allow(g, a, p, q) <==> p.bits == 3
  {
    hide EntryMatches, Permits;
    assert FirstMatch(g, a, 0) == None;
  }

  /** Every pmpaddr is in range, and no NAPOT region reaches 2^32. */
  ghost predicate Programmed(g: Regions) {
    && g.Valid() && |g.cfg| > 0
    && forall i :: 0 <= i < |g.cfg| ==> InRange(g.addr[i]) && (IsNapot(g.cfg[i]) ==> EndsBelowTop(g.addr[i]))
  }

  lemma InRangeLow30(pa: Word)
    requires InRange(pa)
    ensures Low30(pa) == pa.bits
  {}

  lemma ZeroInRange()
    ensures InRange(ZERO)
  {}

  lemma IndexNumber(a: Word)
    ensures Number(Word(WordIndex(a))) == Number(a) / 4
  {
    hide Number, Power;
    assert Word(WordIndex(a)) == Isa.ShiftRight(a, 2);
    ShiftRightNumber(a, 2);
    assert (2 as bv6) as int == 2;
    Powers0();
  }

  lemma AtMostNumber(x: bv32, y: bv32)
    ensures Le(x, y) <==> Number(Word(x)) <= Number(Word(y))
  {
    hide Number, Le, Lt;
    LessNumber(Word(x), Word(y));
    LessNumber(Word(y), Word(x));
    if Lt(y, x) { LessIsNotAtMost(y, x); }
    else if Lt(x, y) { LessIsAtMost(x, y); }
    else { SameNumber(Word(x), Word(y)); AtMostItself(x); }
  }

  /** The matcher's word comparisons are the specification's address ranges. */
  lemma RangeNumbers(this_: Word, prev: Word, a: Word)
    ensures Le(prev.bits, WordIndex(a)) && Lt(WordIndex(a), this_.bits)
        <==> 4 * Number(prev) <= Number(a) < 4 * Number(this_)
    ensures WordIndex(a) == this_.bits <==> 4 * Number(this_) <= Number(a) < 4 * Number(this_) + 4
  {
    hide Number, WordIndex, Le, Lt;
    IndexNumber(a);
    AtMostNumber(prev.bits, WordIndex(a));
    LessNumber(Word(WordIndex(a)), this_);
    if Number(Word(WordIndex(a))) == Number(this_) { SameNumber(Word(WordIndex(a)), this_); }
  }

  lemma EntryAgrees(g: Regions, i: nat, a: Word)
    requires Programmed(g) && i < |g.cfg|
    ensures EntryMatches(g, i, a) <==> SpecEntry(g, i, a)
  {
    hide InRange, EndsBelowTop, Low30, MaskRule, NapotMatches, WordIndex, Le, Lt, Cfg.A, Number, Byte;
    InRangeLow30(g.addr[i]);
    var prev := if i == 0 then ZERO else g.addr[i - 1];
    ZeroInRange();
    InRangeLow30(prev);
    Modes(g.cfg[i]);
    RangeNumbers(g.addr[i], prev, a);
    if IsNapot(g.cfg[i]) { NapotInRange(g.addr[i], a); }
  }

  /** The matcher decides as the specification says, for both privilege levels. */
  lemma DecisionIsTheSpecification(g: Regions, a: Word, p: Priv, q: Access)
    requires Programmed(g) && (p == MACHINE || p == USER)
    ensures Allow(g, a, p, q) <==> SpecAllow(g, a, p, q)
  {
    hide InRange, EndsBelowTop, SpecEntry, EntryMatches, Permits, SpecPermits, Byte, Cfg.Locked;
    forall k | 0 <= k < |g.cfg| ensures EntryMatches(g, k, a) <==> SpecEntry(g, k, a) {
      EntryAgrees(g, k, a);
    }
    match FirstMatch(g, a, 0) {
      case None =>
      case Some(j) =>
        PermitsByBits(g.cfg[j], q);
        LockBit(g.cfg[j]);
        assert forall k :: 0 <= k < j ==> !SpecEntry(g, k, a);
        assert Rules(g, j, a);
        forall k | 0 <= k < |g.cfg| && Rules(g, k, a) ensures k == j {}
    }
  }
}
