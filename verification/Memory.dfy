/** The single-cycle RAM and its byte strobes; loads and stores through word lanes against a
    little-endian byte memory. */
module Memory {
  import opened Words
  import opened Instr
  import opened Isa
  import opened Pipeline

  function LaneMask(s: bv4): (r: bv32) {
    (if s & 1 != 0 then 0xFF else 0) | (if s & 2 != 0 then 0xFF00 else 0) |
    (if s & 4 != 0 then 0xFF_0000 else 0) | (if s & 8 != 0 then 0xFF00_0000 else 0)
  }

  /** A word after a write with byte strobes. */
  function Strobed(old_: Word, d: Word, s: bv4): (r: Word) {
    Word((old_.bits & !LaneMask(s)) | (d.bits & LaneMask(s)))
  }

  lemma ByteLaneShift(a: Word, d: Word)
    ensures Selected(B, a, d) == ByteLane(a, d)
  {}

  lemma HalfLaneShift(a: Word, d: Word)
    requires Aligned(H, a)
    ensures Selected(H, a, d) == HalfLane(a, d)
  {}

  /** Loads extract the addressed bytes, extended as the instruction says. */
  lemma LoadLanes(a: Word, d: Word)
    ensures LoadResult(0, a, d) == Extract(B, false, a, d) && LoadResult(4, a, d) == Extract(B, true, a, d)
    ensures Aligned(H, a) ==> LoadResult(1, a, d) == Extract(H, false, a, d)
    ensures Aligned(H, a) ==> LoadResult(5, a, d) == Extract(H, true, a, d)
    ensures LoadResult(2, a, d) == Extract(W, false, a, d) == Extract(W, true, a, d)
  {
    hide Sext, ByteLane, HalfLane, Selected, Aligned;
    ByteLaneShift(a, d);
    if Aligned(H, a) { HalfLaneShift(a, d); }
  }

  lemma StoreByteLanes(a: Word, old_: Word, v: Word)
    ensures Strobed(old_, StoreData(0, a, v), StoreStrobe(0, a)) == Insert(B, a, old_, v)
  {}

  lemma StoreHalfLanes(a: Word, old_: Word, v: Word)
    requires Aligned(H, a)
    ensures Strobed(old_, StoreData(1, a, v), StoreStrobe(1, a)) == Insert(H, a, old_, v)
  {}

  lemma StoreWordLanes(a: Word, old_: Word, v: Word)
    ensures Strobed(old_, StoreData(2, a, v), StoreStrobe(2, a)) == Insert(W, a, old_, v)
  {}

  /** Storing a whole word replaces it. */
  lemma WordInsert(a: Word, old_: Word, v: Word)
    ensures Insert(W, a, old_, v) == v
  {
    hide Lane, WidthMask;
  }
}
