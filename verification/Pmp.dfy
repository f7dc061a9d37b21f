/** Physical memory protection: the region matcher, its NAPOT arithmetic and the decision rule. */
module Pmp {
  import opened Words

  /** A two-bit privilege level. */
  datatype Priv = Priv(bits: bv2)

  const MACHINE := Priv(3)
  const USER := Priv(0)

  /** A pmpcfg byte: L 0 0 A A X W R. */
  datatype Cfg = Cfg(bits: bv8)
  {
    predicate R() { bits & 1 != 0 }
    predicate W() { bits & 2 != 0 }
    predicate X() { bits & 4 != 0 }
    function A(): (r: bv8) { (bits >> 3) & 3 }
    predicate Locked() { bits & 0x80 != 0 }
  }

  const OFF: bv8 := 0
  const TOR: bv8 := 1
  const NA4: bv8 := 2

  /** The configuration of all entries. */
  datatype Regions = Regions(cfg: seq<Cfg>, addr: seq<Word>)
  {
    ghost predicate Valid() { |cfg| == |addr| }
  }

  datatype Access = Access(r: bool, w: bool, x: bool)

  const FETCH := Access(false, false, true)

  // ------------------------------------------------------------------------------------------
  // NAPOT
  // ------------------------------------------------------------------------------------------

  predicate BitSet(pa: Word, t: bv6)
    requires t < 32
  {
    (pa.bits >> t) & 1 == 1
  }

  /** Number of consecutive ones from bit t upwards. */
  function OnesFrom(pa: Word, t: bv6): (r: bv6)
    requires t <= 32
    ensures t <= r <= 32
    decreases 32 - t
  {
    if t < 32 && BitSet(pa, t) then OnesFrom(pa, t + 1) else t
  }

  function NapotSize(pa: Word): (r: Word) {
    if pa.bits == 0xFFFF_FFFF then Word(0xFFFF_FFFF) else Word((8 as bv32) << OnesFrom(pa, 0))
  }

  function NapotBase(pa: Word): (r: Word) {
    Word(AlignDown(pa.bits << 2, NapotSize(pa).bits))
  }

  function AlignDown(a: bv32, size: bv32): (r: bv32) { a & !(size - 1) }

  method NapotSizeBytes(pa: Word) returns (size: Word)
    ensures size == NapotSize(pa)
  {
    if pa.bits == 0xFFFF_FFFF { return Word(0xFFFF_FFFF); }
    var t: bv6 := 0;
    while t < 32 && BitSet(pa, t)
      invariant t <= 32
      invariant OnesFrom(pa, t) == OnesFrom(pa, 0)
      decreases 32 - t
    {
      t := t + 1;
    }
    size := Word((8 as bv32) << t);
  }

  // ------------------------------------------------------------------------------------------
  // Matching and decision
  // ------------------------------------------------------------------------------------------

  function WordIndex(a: Word): (r: bv32) { a.bits >> 2 }

  /** Bits 29..0 of a pmpaddr register. */
  function Low30(pa: Word): (r: bv32) { pa.bits & 0x3FFF_FFFF }

  function RegionEnd(base: bv32, size: bv32): (r: bv32) { base + size }

  predicate NapotMatches(pa: Word, a: Word) {
    var base := NapotBase(pa).bits;
    Le(base, a.bits) && Lt(a.bits, RegionEnd(base, NapotSize(pa).bits))
  }

  predicate Matches(c: Cfg, this_: Word, prev: Word, a: Word) {
    var aw := WordIndex(a);
    if c.A() == OFF then false
    else if c.A() == TOR then Le(Low30(prev), aw) && Lt(aw, Low30(this_))
    else if c.A() == NA4 then aw == Low30(this_)
    else NapotMatches(this_, a)
  }

  predicate EntryMatches(g: Regions, i: nat, a: Word)
    requires g.Valid() && i < |g.cfg|
  {
    Matches(g.cfg[i], g.addr[i], if i == 0 then ZERO else g.addr[i - 1], a)
  }

  /** The lowest-numbered matching entry at or above i. */
  function FirstMatch(g: Regions, a: Word, i: nat): (r: Option<nat>)
    requires g.Valid() && i <= |g.cfg|
    ensures r.Some? ==> i <= r.value < |g.cfg| && EntryMatches(g, r.value, a)
    ensures forall k :: i <= k < (if r.Some? then r.value else |g.cfg|) ==> !EntryMatches(g, k, a)
    decreases |g.cfg| - i
  {
    if i == |g.cfg| then None else if EntryMatches(g, i, a) then Some(i) else FirstMatch(g, a, i + 1)
  }

  predicate Permits(c: Cfg, q: Access) { (q.r ==> c.R()) && (q.w ==> c.W()) && (q.x ==> c.X()) }

  /** The decision: the first matching entry rules, machine mode passes unless it is locked;
      without a match machine mode passes and user mode does not. */
  predicate Allow(g: Regions, a: Word, p: Priv, q: Access)
    requires g.Valid()
  {
    |g.cfg| == 0 ||
    match FirstMatch(g, a, 0)
    case None => p == MACHINE
    case Some(j) => (g.cfg[j].Locked() || p == USER) ==> Permits(g.cfg[j], q)
  }

  /** The matcher's selection loops. */
  method Check(g: Regions, a: Word, p: Priv, q: Access) returns (allow: bool)
    requires g.Valid()
    ensures allow == Allow(g, a, p, q)
  {
    var n := |g.cfg|;
    var matched := new bool[n];
    for i := 0 to n
      invariant forall k :: 0 <= k < i ==> matched[k] == EntryMatches(g, k, a)
    {
      var prev := if i == 0 then ZERO else g.addr[i - 1];
      matched[i] := Matches(g.cfg[i], g.addr[i], prev, a);
    }
    var anyMatch, winCfg := false, Cfg(0);
    ghost var win := 0;
    for j := 0 to n
      invariant anyMatch ==> win < j && matched[win] && winCfg == g.cfg[win]
      invariant forall k :: 0 <= k < (if anyMatch then win else j) ==> !matched[k]
    {
      if matched[j] && !anyMatch {
        anyMatch, winCfg, win := true, g.cfg[j], j;
      }
    }
    var permOk := Permits(winCfg, q);
    var usePerm := winCfg.Locked() || p == USER;
    if n == 0 { allow := true; }
    else if !anyMatch { allow := p == MACHINE; }
    else { allow := if usePerm then permOk else true; }
  }
}
