/** Machine words. The bit vectors are wrapped so that registers are records of words, and every
    operation on bits is one of the named functions below. */
module Words {

  datatype Option<T> = None | Some(value: T)

  datatype Word = Word(bits: bv32)

  /** Address of a 32-bit word: bits 31..2 of a byte address. */
  datatype WordAddr = WordAddr(bits: bv30)

  datatype Half = Half(bits: bv16)

  /** Byte-lane enables of a write. */
  datatype Strobe = Strobe(lanes: bv4)

  const ZERO := Word(0)

  /** ADDI x0, x0, 0 */
  const NOP := Word(0x13)

  function Plus(a: Word, n: bv32): (r: Word) { Word(a.bits + n) }

  function WordOf(pc: Word): (r: WordAddr) { WordAddr((pc.bits >> 2) as bv30) }

  function NextWord(a: WordAddr): (r: WordAddr) { WordAddr(a.bits + 1) }

  predicate IsUpper(pc: Word) { pc.bits & 2 != 0 }

  function HalfOf(w: Word, upper: bool): (r: Half) {
    if upper then Half((w.bits >> 16) as bv16) else Half((w.bits & 0xFFFF) as bv16)
  }

  function Zext(h: Half): (r: Word) { Word(h.bits as bv32) }

  function Join(hi: Half, lo: Half): (r: Word) { Word(((hi.bits as bv32) << 16) | (lo.bits as bv32)) }

  // Address arithmetic of consecutive halfwords.

  lemma NextHalfSameWord(pc: Word)
    requires !IsUpper(pc)
    ensures WordOf(Plus(pc, 2)) == WordOf(pc)
  {}

  lemma NextHalfUpper(pc: Word)
    requires !IsUpper(pc)
    ensures IsUpper(Plus(pc, 2))
  {}

  lemma NextHalfNextWord(pc: Word)
    requires IsUpper(pc)
    ensures WordOf(Plus(pc, 2)) == NextWord(WordOf(pc))
  {}

  lemma NextHalfLower(pc: Word)
    requires IsUpper(pc)
    ensures !IsUpper(Plus(pc, 2))
  {}

  lemma HalfwordAddresses(pc: Word)
    ensures !IsUpper(pc) ==> WordOf(Plus(pc, 2)) == WordOf(pc) && IsUpper(Plus(pc, 2))
    ensures IsUpper(pc) ==> WordOf(Plus(pc, 2)) == NextWord(WordOf(pc)) && !IsUpper(Plus(pc, 2))
  {
    hide *;
    if IsUpper(pc) { NextHalfNextWord(pc); NextHalfLower(pc); }
    else { NextHalfSameWord(pc); NextHalfUpper(pc); }
  }

  lemma JoinHalves(w: Word)
    ensures Join(HalfOf(w, true), HalfOf(w, false)) == w
  {}

  // ------------------------------------------------------------------------------------------
  // Unsigned order, byte by byte
  // ------------------------------------------------------------------------------------------

  predicate Lt(x: bv32, y: bv32) { x < y }

  predicate Le(x: bv32, y: bv32) { x <= y }

  function ByteAt(x: bv32, s: bv6): (r: bv8)
    requires s <= 24
  {
    ((x >> s) & 0xFF) as bv8
  }

  lemma TopByteDecides(x: bv32, y: bv32)
    requires ByteAt(x, 24) < ByteAt(y, 24)
    ensures Lt(x, y)
  {}

  lemma SecondByteDecides(x: bv32, y: bv32)
    requires ByteAt(x, 24) == ByteAt(y, 24) && ByteAt(x, 16) < ByteAt(y, 16)
    ensures Lt(x, y)
  {}

  lemma ThirdByteDecides(x: bv32, y: bv32)
    requires ByteAt(x, 24) == ByteAt(y, 24) && ByteAt(x, 16) == ByteAt(y, 16) && ByteAt(x, 8) < ByteAt(y, 8)
    ensures Lt(x, y)
  {}

  lemma LowByteDecides(x: bv32, y: bv32)
    requires ByteAt(x, 24) == ByteAt(y, 24) && ByteAt(x, 16) == ByteAt(y, 16) && ByteAt(x, 8) == ByteAt(y, 8)
    requires ByteAt(x, 0) < ByteAt(y, 0)
    ensures Lt(x, y)
  {}

  lemma SameBytes(x: bv32, y: bv32)
    requires ByteAt(x, 24) == ByteAt(y, 24) && ByteAt(x, 16) == ByteAt(y, 16) && ByteAt(x, 8) == ByteAt(y, 8)
    requires ByteAt(x, 0) == ByteAt(y, 0)
    ensures x == y
  {}

  lemma ByteTrichotomy(x: bv8, y: bv8)
    ensures x < y || x == y || y < x
  {}

  lemma Trichotomy(x: bv32, y: bv32)
    ensures Lt(x, y) || x == y || Lt(y, x)
  {
    hide Lt, ByteAt;
    ByteTrichotomy(ByteAt(x, 24), ByteAt(y, 24));
    ByteTrichotomy(ByteAt(x, 16), ByteAt(y, 16));
    ByteTrichotomy(ByteAt(x, 8), ByteAt(y, 8));
    ByteTrichotomy(ByteAt(x, 0), ByteAt(y, 0));
    if ByteAt(x, 24) < ByteAt(y, 24) { TopByteDecides(x, y); }
    else if ByteAt(y, 24) < ByteAt(x, 24) { TopByteDecides(y, x); }
    else if ByteAt(x, 16) < ByteAt(y, 16) { SecondByteDecides(x, y); }
    else if ByteAt(y, 16) < ByteAt(x, 16) { SecondByteDecides(y, x); }
    else if ByteAt(x, 8) < ByteAt(y, 8) { ThirdByteDecides(x, y); }
    else if ByteAt(y, 8) < ByteAt(x, 8) { ThirdByteDecides(y, x); }
    else if ByteAt(x, 0) < ByteAt(y, 0) { LowByteDecides(x, y); }
    else if ByteAt(y, 0) < ByteAt(x, 0) { LowByteDecides(y, x); }
    else { SameBytes(x, y); }
  }

  lemma LessIsNotAtMost(x: bv32, y: bv32)
    requires Lt(x, y)
    ensures !Le(y, x)
  {}

  lemma Antisymmetric(x: bv32, y: bv32)
    requires Le(x, y) && Le(y, x)
    ensures x == y
  {
    hide Le, Lt;
    Trichotomy(x, y);
    if Lt(x, y) { LessIsNotAtMost(x, y); }
    if Lt(y, x) { LessIsNotAtMost(y, x); }
  }
}
