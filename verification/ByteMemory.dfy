/** Aligned loads and stores over words are loads and stores over a little-endian byte memory. */
module ByteMemory {
  import opened Words
  import opened Instr
  import opened Isa
  import opened Pipeline
  import opened Memory
  import opened DataRam

  datatype Byte = Byte(bits: bv8)

  /** Byte k of a word, counted from the low end. */
  function ByteOf(w: Word, k: bv2): (r: Byte) {
    match k
    case 0 => Byte((w.bits & 0xFF) as bv8)
    case 1 => Byte(((w.bits >> 8) & 0xFF) as bv8)
    case 2 => Byte(((w.bits >> 16) & 0xFF) as bv8)
    case _ => Byte((w.bits >> 24) as bv8)
  }

  function LowBits(a: Word): (r: bv2) { (a.bits & 3) as bv2 }

  /** The byte at address a. */
  function ByteAt(ram: Ram, a: Word): (r: Byte) { ByteOf(ram[RamIndex(a)], LowBits(a)) }

  function FromBytes(b0: Byte, b1: Byte, b2: Byte, b3: Byte): (r: Word) {
    Word((b0.bits as bv32) | ((b1.bits as bv32) << 8) | ((b2.bits as bv32) << 16) | ((b3.bits as bv32) << 24))
  }

  const NOBYTE := Byte(0)

  // ------------------------------------------------------------------------------------------
  // Words
  // ------------------------------------------------------------------------------------------

  lemma WholeWord(w: Word)
    ensures FromBytes(ByteOf(w, 0), ByteOf(w, 1), ByteOf(w, 2), ByteOf(w, 3)) == w
  {}

  lemma LowCases(k: bv2)
    ensures k == 0 || k == 1 || k == 2 || k == 3
  {}

  lemma LaneOf(a: Word)
    ensures LowBits(a) == 0 ==> Lane(a) == 0
    ensures LowBits(a) == 1 ==> Lane(a) == 8
    ensures LowBits(a) == 2 ==> Lane(a) == 16
    ensures LowBits(a) == 3 ==> Lane(a) == 24
  {
    LowCases(LowBits(a));
    if LowBits(a) == 0 {} else if LowBits(a) == 1 {} else if LowBits(a) == 2 {} else {}
  }

  lemma LoadByteWord(a: Word, d: Word)
    ensures Selected(B, a, d) == FromBytes(ByteOf(d, LowBits(a)), NOBYTE, NOBYTE, NOBYTE).bits
  {
    hide LowBits, Lane;
    LaneOf(a);
    LowCases(LowBits(a));
    if LowBits(a) == 0 {} else if LowBits(a) == 1 {} else if LowBits(a) == 2 {} else {}
  }

  lemma LoadHalfWord(a: Word, d: Word)
    requires LowBits(a) == 0 || LowBits(a) == 2
    ensures Selected(H, a, d) == FromBytes(ByteOf(d, LowBits(a)), ByteOf(d, LowBits(a) + 1), NOBYTE, NOBYTE).bits
  {
    hide LowBits, Lane;
    LaneOf(a);
    if LowBits(a) == 0 {} else {}
  }

  lemma InsertByte(a: Word, old_: Word, v: Word, k: bv2)
    ensures ByteOf(Insert(B, a, old_, v), k) == if k == LowBits(a) then ByteOf(v, 0) else ByteOf(old_, k)
  {
    hide LowBits, Lane;
    LaneOf(a);
    LowCases(LowBits(a));
    LowCases(k);
    if LowBits(a) == 0 { if k == 0 {} else if k == 1 {} else if k == 2 {} else {} }
    else if LowBits(a) == 1 { if k == 0 {} else if k == 1 {} else if k == 2 {} else {} }
    else if LowBits(a) == 2 { if k == 0 {} else if k == 1 {} else if k == 2 {} else {} }
    else { if k == 0 {} else if k == 1 {} else if k == 2 {} else {} }
  }

  lemma InsertHalf(a: Word, old_: Word, v: Word, k: bv2)
    requires LowBits(a) == 0 || LowBits(a) == 2
    ensures ByteOf(Insert(H, a, old_, v), k)
         == if k == LowBits(a) then ByteOf(v, 0) else if k == LowBits(a) + 1 then ByteOf(v, 1) else ByteOf(old_, k)
  {
    hide LowBits, Lane;
    LaneOf(a);
    LowCases(k);
    if LowBits(a) == 0 { if k == 0 {} else if k == 1 {} else if k == 2 {} else {} }
    else { if k == 0 {} else if k == 1 {} else if k == 2 {} else {} }
  }

  // ------------------------------------------------------------------------------------------
  // Addresses
  // ------------------------------------------------------------------------------------------

  function Slot(a: Word): (r: Half) { Half(((a.bits >> 2) & 0xFFFF) as bv16) }

  lemma SlotOfIndex(a: Word, x: Word)
    requires RamIndex(a) == RamIndex(x)
    ensures Slot(a) == Slot(x)
  {
    assert (RamIndex(a) as int) as bv16 == Slot(a).bits;
    assert (RamIndex(x) as int) as bv16 == Slot(x).bits;
  }

  lemma SameSlot(a: Word, x: Word)
    requires InRam(a) && InRam(x) && Slot(a) == Slot(x) && LowBits(a) == LowBits(x)
    ensures a == x
  {}

  lemma SameAddress(a: Word, x: Word)
    requires InRam(a) && InRam(x) && RamIndex(a) == RamIndex(x) && LowBits(a) == LowBits(x)
    ensures a == x
  {
    hide InRam, RamIndex, LowBits, Slot;
    SlotOfIndex(a, x);
    SameSlot(a, x);
  }

  /** Bytes of an aligned access lie in one word. */
  lemma NextByteSlot(a: Word)
    requires LowBits(a) == 0 || LowBits(a) == 2
    ensures Slot(Plus(a, 1)) == Slot(a) && LowBits(Plus(a, 1)) == LowBits(a) + 1
    ensures InRam(a) ==> InRam(Plus(a, 1))
  {
    if LowBits(a) == 0 {} else {}
  }

  lemma ThirdByteSlot(a: Word)
    requires LowBits(a) == 0
    ensures Slot(Plus(a, 2)) == Slot(a) && LowBits(Plus(a, 2)) == 2
    ensures InRam(a) ==> InRam(Plus(a, 2))
  {}

  lemma FourthByteSlot(a: Word)
    requires LowBits(a) == 0
    ensures Slot(Plus(a, 3)) == Slot(a) && LowBits(Plus(a, 3)) == 3
    ensures InRam(a) ==> InRam(Plus(a, 3))
  {}

  lemma IndexOfSlot(a: Word, x: Word)
    requires Slot(a) == Slot(x)
    ensures RamIndex(a) == RamIndex(x)
  {
    assert Slot(a).bits == Slot(x).bits;
  }

  lemma AlignedLow(w: Width, a: Word)
    requires Aligned(w, a)
    ensures w == H ==> LowBits(a) == 0 || LowBits(a) == 2
    ensures w == W ==> LowBits(a) == 0
  {
    LowCases(LowBits(a));
    if w == H { HalfLow(a); }
    if w == W { WordLow(a); }
  }

  lemma HalfLow(a: Word)
    requires a.bits & 1 == 0
    ensures LowBits(a) == 0 || LowBits(a) == 2
  {}

  lemma WordLow(a: Word)
    requires a.bits & 3 == 0
    ensures LowBits(a) == 0
  {}

  // ------------------------------------------------------------------------------------------
  // A byte memory
  // ------------------------------------------------------------------------------------------

  type Bytes = Word -> Byte

  /** The bytes at a and the following addresses, low byte first, extended as asked. */
  function LoadBytes(m: Bytes, w: Width, unsigned: bool, a: Word): (r: Word) {
    match w
    case B =>
      var x := FromBytes(m(a), NOBYTE, NOBYTE, NOBYTE);
      if unsigned then x else Word(Sext(x.bits, 0x80))
    case H =>
      var x := FromBytes(m(a), m(Plus(a, 1)), NOBYTE, NOBYTE);
      if unsigned then x else Word(Sext(x.bits, 0x8000))
    case W => FromBytes(m(a), m(Plus(a, 1)), m(Plus(a, 2)), m(Plus(a, 3)))
  }

  /** The low bytes of v at a and the following addresses, and nothing else. */
  function StoreBytes(m: Bytes, w: Width, a: Word, v: Word): (r: Bytes) {
    (x: Word) =>
      if x == a then ByteOf(v, 0)
      else if w != B && x == Plus(a, 1) then ByteOf(v, 1)
      else if w == W && x == Plus(a, 2) then ByteOf(v, 2)
      else if w == W && x == Plus(a, 3) then ByteOf(v, 3)
      else m(x)
  }

  ghost predicate Agree(ram: Ram, m: Bytes) { forall x :: InRam(x) ==> m(x) == ByteAt(ram, x) }

  lemma BytesOfAccess(ram: Ram, m: Bytes, w: Width, a: Word)
    requires Agree(ram, m) && InRam(a) && Aligned(w, a)
    ensures var d := ram[RamIndex(a)];
      && m(a) == ByteOf(d, LowBits(a))
      && (w != B ==> m(Plus(a, 1)) == ByteOf(d, LowBits(a) + 1))
      && (w == W ==> LowBits(a) == 0 && m(Plus(a, 2)) == ByteOf(d, 2) && m(Plus(a, 3)) == ByteOf(d, 3))
  {
    hide InRam, RamIndex, LowBits, Slot, ByteOf, Aligned, Plus;
    AlignedLow(w, a);
    if w != B { NextByteSlot(a); IndexOfSlot(a, Plus(a, 1)); }
    if w == W { ThirdByteSlot(a); IndexOfSlot(a, Plus(a, 2)); FourthByteSlot(a); IndexOfSlot(a, Plus(a, 3)); }
  }

  /** An aligned load extracts exactly the addressed bytes. */
  lemma ExtractIsBytes(ram: Ram, m: Bytes, w: Width, unsigned: bool, a: Word)
    requires Agree(ram, m) && InRam(a) && Aligned(w, a)
    ensures Extract(w, unsigned, a, ram[RamIndex(a)]) == LoadBytes(m, w, unsigned, a)
  {
    hide InRam, RamIndex, LowBits, Slot, ByteOf, Aligned, Plus, Sext, FromBytes, Selected, Agree;
    var d := ram[RamIndex(a)];
    BytesOfAccess(ram, m, w, a);
    AlignedLow(w, a);
    match w {
      case B => LoadByteWord(a, d);
      case H => LoadHalfWord(a, d);
      case W => WholeWord(d);
    }
  }

  /** The funct3 of a load, and of a store. */
  function LoadFunct(w: Width, unsigned: bool): (r: bv3) {
    match w
    case B => if unsigned then 4 else 0
    case H => if unsigned then 5 else 1
    case W => 2
  }

  function StoreFunct(w: Width): (r: bv3) {
    match w
    case B => 0
    case H => 1
    case W => 2
  }

  function StoreReq(w: Width, a: Word, v: Word): (r: DReq) {
    DReq(a, true, StoreData(StoreFunct(w), a, v), Strobe(StoreStrobe(StoreFunct(w), a)))
  }

  /** The lanes an aligned load selects hold exactly the addressed bytes, low byte first. */
  lemma LoadIsBytes(ram: Ram, m: Bytes, w: Width, unsigned: bool, a: Word)
    requires Agree(ram, m) && InRam(a) && Aligned(w, a)
    ensures LoadResult(LoadFunct(w, unsigned), a, ram[RamIndex(a)]) == LoadBytes(m, w, unsigned, a)
  {
    hide InRam, RamIndex, Agree, LoadResult, Extract, LoadBytes, Aligned;
    LoadLanes(a, ram[RamIndex(a)]);
    ExtractIsBytes(ram, m, w, unsigned, a);
  }

  lemma StoredByte(ram: Ram, m: Bytes, w: Width, a: Word, v: Word, x: Word)
    requires Agree(ram, m) && InRam(a) && InRam(x) && Aligned(w, a)
    ensures ByteAt(StoreRam(ram, w, a, v), x) == StoreBytes(m, w, a, v)(x)
  {
    hide InRam, RamIndex, LowBits, Slot, ByteOf, Aligned, Plus, Insert;
    AlignedLow(w, a);
    var old_ := ram[RamIndex(a)];
    if w != B { NextByteSlot(a); IndexOfSlot(a, Plus(a, 1)); }
    if w == W { ThirdByteSlot(a); IndexOfSlot(a, Plus(a, 2)); FourthByteSlot(a); IndexOfSlot(a, Plus(a, 3)); }
    if RamIndex(x) == RamIndex(a) {
      LowCases(LowBits(x));
      if LowBits(x) == LowBits(a) { SameAddress(a, x); }
      if w != B && LowBits(x) == LowBits(Plus(a, 1)) { SameAddress(Plus(a, 1), x); }
      if w == W && LowBits(x) == 2 { SameAddress(Plus(a, 2), x); }
      if w == W && LowBits(x) == 3 { SameAddress(Plus(a, 3), x); }
      match w {
        case B => InsertByte(a, old_, v, LowBits(x));
        case H => InsertHalf(a, old_, v, LowBits(x));
        case W => WordInsert(a, old_, v);
      }
    }
  }

  lemma InsertIsBytes(ram: Ram, m: Bytes, w: Width, a: Word, v: Word)
    requires Agree(ram, m) && InRam(a) && Aligned(w, a)
    ensures Agree(StoreRam(ram, w, a, v), StoreBytes(m, w, a, v))
  {
    forall x | InRam(x) ensures StoreBytes(m, w, a, v)(x) == ByteAt(StoreRam(ram, w, a, v), x) {
      StoredByte(ram, m, w, a, v, x);
    }
  }

  lemma StrobesInsert(ram: Ram, w: Width, a: Word, v: Word)
    requires InRam(a) && Aligned(w, a)
    ensures Written(ram, StoreReq(w, a, v)) == StoreRam(ram, w, a, v)
  {
    hide InRam, RamIndex, Strobed, StoreData, StoreStrobe, Insert, Aligned;
    var d := ram[RamIndex(a)];
    match w {
      case B => StoreByteLanes(a, d, v);
      case H => StoreHalfLanes(a, d, v);
      case W => StoreWordLanes(a, d, v);
    }
  }

  /** The strobes of an aligned store change exactly the addressed bytes. */
  lemma StoreIsBytes(ram: Ram, m: Bytes, w: Width, a: Word, v: Word)
    requires Agree(ram, m) && InRam(a) && Aligned(w, a)
    ensures Agree(Written(ram, StoreReq(w, a, v)), StoreBytes(m, w, a, v))
  {
    hide InRam, RamIndex, Agree, StoreRam, Written, StoreReq, StoreBytes, Aligned;
    StrobesInsert(ram, w, a, v);
    InsertIsBytes(ram, m, w, a, v);
  }

  // ------------------------------------------------------------------------------------------
  // Any sequence of accesses
  // ------------------------------------------------------------------------------------------

  datatype Op = Read(width: Width, unsigned: bool, addr: Word) | Put(width: Width, addr: Word, v: Word)

  predicate InBounds(ops: seq<Op>) {
    forall k :: 0 <= k < |ops| ==> InRam(ops[k].addr) && Aligned(ops[k].width, ops[k].addr)
  }

  function RequestOf(op: Op): (r: DReq) {
    match op
    case Read(_, _, a) => DReq(a, false, ZERO, Strobe(0))
    case Put(w, a, v) => StoreReq(w, a, v)
  }

  /** What the loads return when the RAM serves one access after another: each answer is taken in the
      clock that brings the next request. */
  function RamResults(u: Unit, ops: seq<Op>): (r: seq<Word>)
    decreases |ops|
  {
    if ops == [] then []
    else
      var n := u.Next(Some(RequestOf(ops[0])), true);
      match ops[0]
      case Read(w, unsigned, a) => [LoadResult(LoadFunct(w, unsigned), a, n.data)] + RamResults(n, ops[1..])
      case Put(_, _, _) => RamResults(n, ops[1..])
  }

  /** What they return over a byte memory. */
  function ByteResults(m: Bytes, ops: seq<Op>): (r: seq<Word>)
    decreases |ops|
  {
    if ops == [] then []
    else
      match ops[0]
      case Read(w, unsigned, a) => [LoadBytes(m, w, unsigned, a)] + ByteResults(m, ops[1..])
      case Put(w, a, v) => ByteResults(StoreBytes(m, w, a, v), ops[1..])
  }

  /** For every sequence of aligned accesses, the core's lanes and strobes over the word array of the
      RAM behave as a little-endian byte memory. */
  lemma {:induction false} WordsAreBytes(u: Unit, m: Bytes, ops: seq<Op>)
    requires Agree(u.mem, m) && InBounds(ops)
    ensures RamResults(u, ops) == ByteResults(m, ops)
    decreases |ops|
  {
    hide Agree, LoadResult, LoadBytes, StoreReq, StoreBytes, InRam, RamIndex, Aligned, Strobed;
    if ops != [] {
      var n := u.Next(Some(RequestOf(ops[0])), true);
      match ops[0] {
        case Read(w, unsigned, a) =>
          LoadIsBytes(u.mem, m, w, unsigned, a);
          WordsAreBytes(n, m, ops[1..]);
        case Put(w, a, v) =>
          StoreIsBytes(u.mem, m, w, a, v);
          assert n.mem == Written(u.mem, StoreReq(w, a, v));
          WordsAreBytes(n, StoreBytes(m, w, a, v), ops[1..]);
      }
    }
  }
}
