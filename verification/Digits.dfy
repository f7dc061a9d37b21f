/** Words as numbers. The bits of a word are the digits of its number; the adder and the subtractor are
    followed digit by digit, and order, complements and shifts are derived from them. */
module Digits {
  import opened Words
  import Isa

  const TWO31 := 0x8000_0000
  const TWO32 := 0x1_0000_0000

  /** The number a word denotes, unsigned and in two's complement. */
  function Number(w: Word): (n: nat)
    ensures n < TWO32
  {
    w.bits as int
  }

  function SignedNumber(w: Word): (n: int) { if Number(w) < TWO31 then Number(w) else Number(w) - TWO32 }

  function Power(k: nat): (p: nat)
    ensures p > 0
  {
    if k == 0 then 1 else 2 * Power(k - 1)
  }

  predicate Odd(n: int) { n % 2 == 1 }

  lemma SameNumber(a: Word, b: Word)
    requires Number(a) == Number(b)
    ensures a == b
  {
    assert (Number(a) as bv32) == a.bits && (Number(b) as bv32) == b.bits;
  }

  // ------------------------------------------------------------------------------------------
  // Bits are digits
  // ------------------------------------------------------------------------------------------

  predicate Bit(w: Word, k: bv6)
    requires k < 32
  {
    (w.bits >> k) & 1 == 1
  }

  /** Digit k of a word's number. */
  predicate Digit(w: Word, k: bv6) { Odd(Number(w) / Power(k as int)) }

  lemma Powers0()
    ensures Power(0) == 0x1 && Power(1) == 0x2 && Power(2) == 0x4 && Power(3) == 0x8
    ensures Power(4) == 0x10 && Power(5) == 0x20 && Power(6) == 0x40 && Power(7) == 0x80
  {}

  lemma Powers1()
    ensures Power(8) == 0x100 && Power(9) == 0x200 && Power(10) == 0x400 && Power(11) == 0x800
    ensures Power(12) == 0x1000 && Power(13) == 0x2000 && Power(14) == 0x4000 && Power(15) == 0x8000
  {
    Powers0();
  }

  lemma Powers2()
    ensures Power(16) == 0x10000 && Power(17) == 0x20000 && Power(18) == 0x40000 && Power(19) == 0x80000
    ensures Power(20) == 0x100000 && Power(21) == 0x200000 && Power(22) == 0x400000 && Power(23) == 0x800000
  {
    Powers1();
  }

  lemma Powers3()
    ensures Power(24) == 0x1000000 && Power(25) == 0x2000000 && Power(26) == 0x4000000 && Power(27) == 0x8000000
    ensures Power(28) == 0x10000000 && Power(29) == 0x20000000 && Power(30) == 0x40000000 && Power(31) == 0x80000000
  {
    Powers2();
  }

  lemma DigitOfByte0(n: nat, k: bv6)
    requires n < TWO32 && k < 8
    ensures Odd(n / Power(k as int)) <==> Bit(Word(n as bv32), k)
  {
    hide Power;
    Powers0();
    if k == 0 {} else if k == 1 {} else if k == 2 {} else if k == 3 {}
    else if k == 4 {} else if k == 5 {} else if k == 6 {} else if k == 7 {}
  }

  lemma DigitOfByte1(n: nat, k: bv6)
    requires n < TWO32 && 8 <= k < 16
    ensures Odd(n / Power(k as int)) <==> Bit(Word(n as bv32), k)
  {
    hide Power;
    Powers1();
    if k == 8 {} else if k == 9 {} else if k == 10 {} else if k == 11 {}
    else if k == 12 {} else if k == 13 {} else if k == 14 {} else if k == 15 {}
  }

  lemma DigitOfByte2(n: nat, k: bv6)
    requires n < TWO32 && 16 <= k < 24
    ensures Odd(n / Power(k as int)) <==> Bit(Word(n as bv32), k)
  {
    hide Power;
    Powers2();
    if k == 16 {} else if k == 17 {} else if k == 18 {} else if k == 19 {}
    else if k == 20 {} else if k == 21 {} else if k == 22 {} else if k == 23 {}
  }

  lemma DigitOfByte3(n: nat, k: bv6)
    requires n < TWO32 && 24 <= k < 32
    ensures Odd(n / Power(k as int)) <==> Bit(Word(n as bv32), k)
  {
    hide Power;
    Powers3();
    if k == 24 {} else if k == 25 {} else if k == 26 {} else if k == 27 {}
    else if k == 28 {} else if k == 29 {} else if k == 30 {} else if k == 31 {}
  }

  /** Bit k of a word is digit k of its number. */
  lemma BitIsDigit(w: Word, k: bv6)
    requires k < 32
    ensures Bit(w, k) <==> Digit(w, k)
  {
    hide Bit, Power;
    var n := Number(w);
    assert (n as bv32) == w.bits;
    if k < 8 { DigitOfByte0(n, k); }
    else if k < 16 { DigitOfByte1(n, k); }
    else if k < 24 { DigitOfByte2(n, k); }
    else { DigitOfByte3(n, k); }
  }

  /** What a digit adds at place p. */
  function Place(digit: bool, p: nat): (n: nat) { if digit then p else 0 }

  lemma NothingPlaced(p: nat)
    ensures Place(false, p) == 0
  {}

  lemma Remainder(n: nat, p: nat)
    requires p > 0
    ensures n % (2 * p) == n % p + Place(Odd(n / p), p)
  {
    var q, b := n / p / 2, n / p % 2;
    assert n == p * (n / p) + n % p;
    assert n / p == 2 * q + b;
    assert n == (2 * p) * q + (p * b + n % p) by {
      assert p * (2 * q + b) == (2 * p) * q + p * b;
    }
    Modulus(q, 2 * p, p * b + n % p);
  }

  lemma Modulus(q: nat, m: nat, r: nat)
    requires r < m
    ensures (m * q + r) % m == r
  {
    var n := m * q + r;
    var d := n / m;
    assert n == m * d + n % m;
    assert d > q ==> m * d >= m * (q + 1);
    assert d < q ==> m * q >= m * (d + 1);
  }

  /** The number of the low k bits. */
  function LowPart(w: Word, k: bv6): (n: nat)
    requires k <= 32
  {
    Number(w) % Power(k as int)
  }

  lemma NextLowPart(w: Word, k: bv6)
    requires k < 32
    ensures LowPart(w, k + 1) == LowPart(w, k) + Place(Bit(w, k), Power(k as int))
  {
    hide Bit, Number, Power;
    NextPower(k);
    Remainder(Number(w), Power(k as int));
    BitIsDigit(w, k);
  }

  lemma NoLowPart(w: Word)
    ensures LowPart(w, 0) == 0
  {}

  lemma WholeLowPart(w: Word)
    ensures LowPart(w, 32) == Number(w)
  {
    hide Number, Power;
    assert (32 as bv6) as int == 32;
    LastPower();
    WholeWord(Number(w));
  }

  lemma WholeWord(n: nat)
    requires n < TWO32
    ensures n % TWO32 == n
  {}

  lemma FirstPower()
    ensures Power(0) == 1
  {}

  lemma DoublePower(k: nat)
    ensures Power(k + 1) == 2 * Power(k)
  {}

  lemma NextPower(k: bv6)
    requires k < 32
    ensures Power((k + 1) as int) == 2 * Power(k as int)
  {
    hide Power;
    assert (k + 1) as int == k as int + 1;
    DoublePower(k as int);
  }

  lemma LastPower()
    ensures Power(32) == TWO32
  {
    hide Power;
    Powers3();
    DoublePower(31);
  }

  // ------------------------------------------------------------------------------------------
  // Sums and differences
  // ------------------------------------------------------------------------------------------

  /** The carries into the bits of a sum, and the borrows of a difference. */
  function CarryIn(a: Word, b: Word): (r: Word) { Word(a.bits ^ b.bits ^ (a.bits + b.bits)) }

  function BorrowIn(a: Word, b: Word): (r: Word) { Word(a.bits ^ b.bits ^ (a.bits - b.bits)) }

  lemma SumBit(a: Word, b: Word, k: bv6)
    requires k < 32
    ensures Bit(Isa.Sum(a, b), k) == (Bit(a, k) != (Bit(b, k) != Bit(CarryIn(a, b), k)))
  {}

  lemma FirstCarry(a: Word, b: Word)
    ensures !Bit(CarryIn(a, b), 0)
  {}

  lemma CarryMade(a: Word, b: Word, k: bv6)
    requires k < 31 && Bit(a, k) && Bit(b, k)
    ensures Bit(CarryIn(a, b), k + 1)
  {}

  lemma CarryKept(a: Word, b: Word, k: bv6)
    requires k < 31 && (Bit(a, k) || Bit(b, k)) && Bit(CarryIn(a, b), k)
    ensures Bit(CarryIn(a, b), k + 1)
  {}

  lemma CarryDropped(a: Word, b: Word, k: bv6)
    requires k < 31 && (!Bit(a, k) || !Bit(b, k)) && !Bit(CarryIn(a, b), k)
    ensures !Bit(CarryIn(a, b), k + 1)
  {}

  lemma NoCarry(a: Word, b: Word, k: bv6)
    requires k < 31 && !Bit(a, k) && !Bit(b, k)
    ensures !Bit(CarryIn(a, b), k + 1)
  {}

  lemma NextCarry(a: Word, b: Word, k: bv6)
    requires k < 31
    ensures Bit(CarryIn(a, b), k + 1) <==>
      (Bit(a, k) && Bit(b, k)) || ((Bit(a, k) || Bit(b, k)) && Bit(CarryIn(a, b), k))
  {
    hide Bit, CarryIn;
    if Bit(a, k) && Bit(b, k) { CarryMade(a, b, k); }
    else if !Bit(a, k) && !Bit(b, k) { NoCarry(a, b, k); }
    else if Bit(CarryIn(a, b), k) { CarryKept(a, b, k); }
    else { CarryDropped(a, b, k); }
  }

  /** A full adder at place p. */
  lemma SumStep(p: nat, x: nat, y: nat, z: nat, a: bool, b: bool, c: bool)
    requires x + y == z + Place(c, p)
    ensures x + Place(a, p) + (y + Place(b, p))
         == z + Place(a != (b != c), p) + Place((a && b) || ((a || b) && c), 2 * p)
  {}

  /** The low k bits of a sum, with the carry out of them. */
  predicate SumBelow(a: Word, b: Word, k: bv6, c: bool)
    requires k <= 32
  {
    && LowPart(a, k) + LowPart(b, k) == LowPart(Isa.Sum(a, b), k) + Place(c, Power(k as int))
    && (k < 32 ==> c == Bit(CarryIn(a, b), k))
  }

  lemma NextSum(a: Word, b: Word, j: bv6, c: bool) returns (d: bool)
    requires j < 32 && SumBelow(a, b, j, c)
    ensures SumBelow(a, b, j + 1, d)
  {
    hide Bit, CarryIn, Isa.Sum, LowPart, Power, Place;
    var r := Isa.Sum(a, b);
    NextPower(j);
    NextLowPart(a, j);
    NextLowPart(b, j);
    NextLowPart(r, j);
    SumBit(a, b, j);
    SumStep(Power(j as int), LowPart(a, j), LowPart(b, j), LowPart(r, j), Bit(a, j), Bit(b, j), c);
    if j < 31 { NextCarry(a, b, j); }
    d := (Bit(a, j) && Bit(b, j)) || ((Bit(a, j) || Bit(b, j)) && c);
  }

  lemma NoSum(a: Word, b: Word)
    ensures SumBelow(a, b, 0, false)
  {
    hide Bit, CarryIn, Isa.Sum, LowPart, Power, Place;
    FirstCarry(a, b);
    NoLowPart(a);
    NoLowPart(b);
    NoLowPart(Isa.Sum(a, b));
    NothingPlaced(Power(0));
  }

  lemma {:induction false} SumDigits(a: Word, b: Word, k: bv6) returns (c: bool)
    requires k <= 32
    ensures SumBelow(a, b, k, c)
    decreases k
  {
    hide SumBelow;
    if k == 0 {
      NoSum(a, b);
      c := false;
    } else {
      c := SumDigits(a, b, k - 1);
      c := NextSum(a, b, k - 1, c);
      assert k - 1 + 1 == k;
    }
  }
  /** The sum of two words is the sum of their numbers, modulo 2^32. */
  lemma SumNumber(a: Word, b: Word)
    ensures Number(Isa.Sum(a, b)) == (Number(a) + Number(b)) % TWO32
  {
    hide Bit, CarryIn, Isa.Sum, Number, LowPart, Power;
    var c := SumDigits(a, b, 32);
    assert (32 as bv6) as int == 32;
    LastPower();
    WholeLowPart(a);
    WholeLowPart(b);
    WholeLowPart(Isa.Sum(a, b));
  }

  lemma BackAndForth(a: bv32, b: bv32)
    ensures (a - b) + b == a
  {}

  lemma OneNumber()
    ensures Number(Word(1)) == 1
  {}

  lemma ZeroNumber()
    ensures Number(ZERO) == 0
  {}

  lemma NextNumber(w: Word)
    ensures Number(Plus(w, 1)) == (Number(w) + 1) % TWO32
  {
    hide Number;
    OneNumber();
    SumNumber(w, Word(1));
  }

  /** The word below one that is not zero. */
  lemma Previous(w: Word)
    requires w != ZERO
    ensures var v := Isa.Difference(w, Word(1)); Plus(v, 1) == w && Number(w) == Number(v) + 1
  {
    hide Number;
    var v := Isa.Difference(w, Word(1));
    BackAndForth(w.bits, 1);
    NextNumber(v);
    if Number(w) == 0 { SameNumber(w, ZERO) by { ZeroNumber(); } }
    else { WholeWord(Number(v)); }
  }

  lemma NothingBelowZero(a: bv32)
    ensures !Lt(a, 0)
  {}

  lemma AtMostIsBelowNext(a: Word, b: Word)
    requires Le(a.bits, b.bits) && b.bits != 0xFFFF_FFFF
    ensures Lt(a.bits, Plus(b, 1).bits)
  {}

  lemma LessIsAtMost(a: bv32, b: bv32)
    requires Lt(a, b)
    ensures Le(a, b)
  {}

  lemma AtMostItself(a: bv32)
    ensures Le(a, a) && !Lt(a, a)
  {}

  lemma Asymmetric(a: bv32, b: bv32)
    requires Lt(a, b)
    ensures !Lt(b, a)
  {}

  lemma LastIsNotPrevious(b: Word)
    requires b != ZERO
    ensures Isa.Difference(b, Word(1)).bits != 0xFFFF_FFFF
  {}

  lemma {:induction false} SmallerNumber(a: Word, b: Word)
    requires Number(a) < Number(b)
    ensures Lt(a.bits, b.bits)
    decreases Number(b)
  {
    hide Number, Lt, Le, Plus, Isa.Difference;
    ZeroNumber();
    var c := Isa.Difference(b, Word(1));
    Previous(b);
    LastIsNotPrevious(b);
    if Number(a) == Number(c) {
      SameNumber(a, c);
      AtMostItself(c.bits);
    } else {
      SmallerNumber(a, c);
      LessIsAtMost(a.bits, c.bits);
    }
    AtMostIsBelowNext(a, c);
  }

  /** Unsigned comparison compares the numbers. */
  lemma LessNumber(a: Word, b: Word)
    ensures Lt(a.bits, b.bits) <==> Number(a) < Number(b)
  {
    hide Number, Lt;
    if Number(a) < Number(b) { SmallerNumber(a, b); }
    else if Number(b) < Number(a) { SmallerNumber(b, a); Asymmetric(b.bits, a.bits); }
    else { SameNumber(a, b); AtMostItself(a.bits); }
  }

  lemma DifferenceBit(a: Word, b: Word, k: bv6)
    requires k < 32
    ensures Bit(Isa.Difference(a, b), k) == (Bit(a, k) != (Bit(b, k) != Bit(BorrowIn(a, b), k)))
  {}

  lemma FirstBorrow(a: Word, b: Word)
    ensures !Bit(BorrowIn(a, b), 0)
  {}

  lemma BorrowMade(a: Word, b: Word, k: bv6)
    requires k < 31 && !Bit(a, k) && Bit(b, k)
    ensures Bit(BorrowIn(a, b), k + 1)
  {}

  lemma BorrowKept(a: Word, b: Word, k: bv6)
    requires k < 31 && (!Bit(a, k) || Bit(b, k)) && Bit(BorrowIn(a, b), k)
    ensures Bit(BorrowIn(a, b), k + 1)
  {}

  lemma BorrowDropped(a: Word, b: Word, k: bv6)
    requires k < 31 && (Bit(a, k) || !Bit(b, k)) && !Bit(BorrowIn(a, b), k)
    ensures !Bit(BorrowIn(a, b), k + 1)
  {}

  lemma NoBorrow(a: Word, b: Word, k: bv6)
    requires k < 31 && Bit(a, k) && !Bit(b, k)
    ensures !Bit(BorrowIn(a, b), k + 1)
  {}

  lemma NextBorrow(a: Word, b: Word, k: bv6)
    requires k < 31
    ensures Bit(BorrowIn(a, b), k + 1) <==>
      (!Bit(a, k) && Bit(b, k)) || ((!Bit(a, k) || Bit(b, k)) && Bit(BorrowIn(a, b), k))
  {
    hide Bit, BorrowIn;
    if !Bit(a, k) && Bit(b, k) { BorrowMade(a, b, k); }
    else if Bit(a, k) && !Bit(b, k) { NoBorrow(a, b, k); }
    else if Bit(BorrowIn(a, b), k) { BorrowKept(a, b, k); }
    else { BorrowDropped(a, b, k); }
  }

  /** A full subtractor at place p. */
  lemma DifferenceStep(p: nat, x: nat, y: nat, z: nat, a: bool, b: bool, c: bool)
    requires x - y == z - Place(c, p)
    ensures x + Place(a, p) - (y + Place(b, p))
         == z + Place(a != (b != c), p) - Place((!a && b) || ((!a || b) && c), 2 * p)
  {}

  /** The low k bits of a difference, with the borrow out of them. */
  predicate DifferenceBelow(a: Word, b: Word, k: bv6, c: bool)
    requires k <= 32
  {
    && LowPart(a, k) - LowPart(b, k) == LowPart(Isa.Difference(a, b), k) - Place(c, Power(k as int))
    && (k < 32 ==> c == Bit(BorrowIn(a, b), k))
  }

  lemma NextDifference(a: Word, b: Word, j: bv6, c: bool) returns (d: bool)
    requires j < 32 && DifferenceBelow(a, b, j, c)
    ensures DifferenceBelow(a, b, j + 1, d)
  {
    hide Bit, BorrowIn, Isa.Difference, LowPart, Power, Place;
    var r := Isa.Difference(a, b);
    NextPower(j);
    NextLowPart(a, j);
    NextLowPart(b, j);
    NextLowPart(r, j);
    DifferenceBit(a, b, j);
    DifferenceStep(Power(j as int), LowPart(a, j), LowPart(b, j), LowPart(r, j), Bit(a, j), Bit(b, j), c);
    if j < 31 { NextBorrow(a, b, j); }
    d := (!Bit(a, j) && Bit(b, j)) || ((!Bit(a, j) || Bit(b, j)) && c);
  }

  lemma NoDifference(a: Word, b: Word)
    ensures DifferenceBelow(a, b, 0, false)
  {
    hide Bit, BorrowIn, Isa.Difference, LowPart, Power, Place;
    FirstBorrow(a, b);
    NoLowPart(a);
    NoLowPart(b);
    NoLowPart(Isa.Difference(a, b));
    NothingPlaced(Power(0));
  }

  lemma {:induction false} DifferenceDigits(a: Word, b: Word, k: bv6) returns (c: bool)
    requires k <= 32
    ensures DifferenceBelow(a, b, k, c)
    decreases k
  {
    hide DifferenceBelow;
    if k == 0 {
      NoDifference(a, b);
      c := false;
    } else {
      c := DifferenceDigits(a, b, k - 1);
      c := NextDifference(a, b, k - 1, c);
      assert k - 1 + 1 == k;
    }
  }
  lemma DifferenceNumber(a: Word, b: Word)
    ensures Number(Isa.Difference(a, b)) == (Number(a) - Number(b)) % TWO32
  {
    hide Bit, BorrowIn, Isa.Difference, Number, LowPart, Power;
    var c := DifferenceDigits(a, b, 32);
    assert (32 as bv6) as int == 32;
    LastPower();
    WholeLowPart(a);
    WholeLowPart(b);
    WholeLowPart(Isa.Difference(a, b));
  }

  lemma NegativeNumber(a: Word)
    ensures a.bits & 0x8000_0000 != 0 <==> Number(a) >= TWO31
  {
    hide Number;
    TopBit(a);
    LessNumber(a, Word(0x8000_0000));
    MiddleNumber();
  }

  lemma TopBit(a: Word)
    ensures a.bits & 0x8000_0000 != 0 <==> !Lt(a.bits, 0x8000_0000)
  {
    if a.bits & 0x8000_0000 != 0 {} else {}
  }

  lemma MiddleNumber()
    ensures Number(Word(0x8000_0000)) == TWO31
  {}

  lemma NotIsMinus(a: bv32)
    ensures !a == 0xFFFF_FFFF - a
  {}

  lemma LastNumber()
    ensures Number(Word(0xFFFF_FFFF)) == TWO32 - 1
  {}

  lemma ComplementNumber(a: Word)
    ensures Number(Isa.Complement(a)) == TWO32 - 1 - Number(a)
  {
    hide Number;
    NotIsMinus(a.bits);
    LastNumber();
    DifferenceNumber(Word(0xFFFF_FFFF), a);
    WholeWord(TWO32 - 1 - Number(a));
  }

  // ------------------------------------------------------------------------------------------
  // Shifts
  // ------------------------------------------------------------------------------------------

  function Half(a: Word): (r: Word) { Word(a.bits >> 1) }

  lemma TwoHalves(a: bv32)
    ensures (a >> 1) + (a >> 1) + (a & 1) == a
  {}

  lemma HalvesSum(a: Word)
    ensures Isa.Sum(Isa.Sum(Half(a), Half(a)), Word(a.bits & 1)) == a
  {
    TwoHalves(a.bits);
  }

  lemma HalfIsLow(a: Word)
    ensures Lt(Half(a).bits, 0x8000_0000)
  {}

  lemma LowBit(a: Word)
    ensures Word(a.bits & 1) == ZERO || Word(a.bits & 1) == Word(1)
  {}

  lemma HalfNumber(a: Word)
    ensures Number(Half(a)) == Number(a) / 2
  {
    hide Number, Half, Isa.Sum, Lt;
    var h, b := Half(a), Word(a.bits & 1);
    HalvesSum(a);
    HalfIsLow(a);
    MiddleNumber();
    LessNumber(h, Word(0x8000_0000));
    SumNumber(h, h);
    SumNumber(Isa.Sum(h, h), b);
    LowBit(a);
    ZeroNumber();
    OneNumber();
    WholeWord(2 * Number(h));
    WholeWord(2 * Number(h) + Number(b));
  }

  lemma OneMoreRight(a: Word, n: bv6)
    requires n < 31
    ensures Isa.ShiftRight(a, n + 1) == Half(Isa.ShiftRight(a, n))
  {}

  lemma OneMoreLeft(a: Word, n: bv6)
    requires n < 31
    ensures Isa.ShiftLeft(a, n + 1) == Isa.Sum(Isa.ShiftLeft(a, n), Isa.ShiftLeft(a, n))
  {}

  lemma Regroup(x: int, p: int)
    ensures 2 * (x * p) == x * (2 * p)
  {}

  lemma NoShift(a: Word)
    ensures Isa.ShiftRight(a, 0) == a && Isa.ShiftLeft(a, 0) == a
  {}

  lemma DivideAgain(n: nat, p: nat)
    requires p > 0
    ensures n / p / 2 == n / (2 * p)
  {
    assert n == p * (n / p) + n % p;
    var q, b := n / p / 2, n / p % 2;
    assert p * (2 * q + b) == (2 * p) * q + p * b;
    assert n == (2 * p) * q + (p * b + n % p);
    Quotient(q, 2 * p, p * b + n % p);
  }

  lemma Quotient(q: nat, m: nat, r: nat)
    requires r < m
    ensures (m * q + r) / m == q
  {
    Modulus(q, m, r);
    var d := (m * q + r) / m;
    assert m * q + r == m * d + r;
    assert m * (q - d) == 0;
  }

  /** A logical right shift divides, rounding down. */
  lemma {:induction false} ShiftRightNumber(a: Word, n: bv6)
    requires n <= 31
    ensures Number(Isa.ShiftRight(a, n)) == Number(a) / Power(n as int)
    decreases n
  {
    hide Number, Isa.ShiftRight, Half;
    if n == 0 {
      NoShift(a);
    } else {
      var m := n - 1;
      ShiftRightNumber(a, m);
      OneMoreRight(a, m);
      assert n as int == m as int + 1;
      HalfNumber(Isa.ShiftRight(a, m));
      DivideAgain(Number(a), Power(m as int));
    }
  }

  lemma DoubleModulo(x: int, y: int)
    requires y == x % TWO32
    ensures (y + y) % TWO32 == (2 * x) % TWO32
  {}

  /** A left shift multiplies, modulo 2^32. */
  lemma {:induction false} ShiftLeftNumber(a: Word, n: bv6)
    requires n <= 31
    ensures Number(Isa.ShiftLeft(a, n)) == (Number(a) * Power(n as int)) % TWO32
    decreases n
  {
    hide Number, Isa.ShiftLeft, Isa.Sum, Power;
    if n == 0 {
      NoShift(a);
      WholeWord(Number(a));
      FirstPower();
    } else {
      var m := n - 1;
      ShiftLeftNumber(a, m);
      OneMoreLeft(a, m);
      assert n as int == m as int + 1;
      DoublePower(m as int);
      SumNumber(Isa.ShiftLeft(a, m), Isa.ShiftLeft(a, m));
      DoubleModulo(Number(a) * Power(m as int), Number(Isa.ShiftLeft(a, m)));
      Regroup(Number(a), Power(m as int));
    }
  }

  lemma RoundedDown(n: nat, p: nat)
    requires p > 0
    ensures n / p * p <= n < (n / p + 1) * p
  {}

  /** An arithmetic right shift divides the signed number, rounding down. */
  lemma ArithmeticShiftNumber(a: Word, n: bv6)
    requires n <= 31
    ensures var q, p := SignedNumber(Isa.ShiftRightArithmetic(a, n)), Power(n as int);
      q * p <= SignedNumber(a) < (q + 1) * p
  {
    hide Number, Isa.ShiftRight, Isa.Complement, Power;
    var p := Power(n as int);
    NegativeNumber(a);
    if a.bits & 0x8000_0000 == 0 {
      ShiftRightNumber(a, n);
      RoundedDown(Number(a), p);
      SmallQuotient(Number(a), p);
    } else {
      var c := Isa.Complement(a);
      ComplementNumber(a);
      ShiftRightNumber(c, n);
      ComplementNumber(Isa.ShiftRight(c, n));
      RoundedDown(Number(c), p);
      SmallQuotient(Number(c), p);
      Mirrored(Number(c) / p, p, Number(c));
    }
  }

  lemma SmallQuotient(n: nat, p: nat)
    requires p > 0
    ensures n / p <= n
  {
    var q := n / p;
    assert n == p * q + n % p;
    AtLeastOnce(p, q);
  }

  lemma AtLeastOnce(p: nat, q: nat)
    requires p > 0
    ensures p * q >= q
  {}

  lemma Mirrored(q: int, p: nat, n: int)
    requires q * p <= n < (q + 1) * p
    ensures (-1 - q) * p <= -1 - n < (-1 - q + 1) * p
  {}

  lemma LowFiveBits(w: Word)
    ensures LowPart(w, 5) == Place(Bit(w, 0), 1) + Place(Bit(w, 1), 2) + Place(Bit(w, 2), 4) + Place(Bit(w, 3), 8)
                             + Place(Bit(w, 4), 16)
  {
    hide Bit, LowPart, Place, Power;
    Powers0();
    NoLowPart(w);
    NextLowPart(w, 0);
    NextLowPart(w, 1);
    NextLowPart(w, 2);
    NextLowPart(w, 3);
    NextLowPart(w, 4);
  }

  lemma AmountBits(w: Word)
    ensures Isa.Amount(w) as int
         == Place(Bit(w, 0), 1) + Place(Bit(w, 1), 2) + Place(Bit(w, 2), 4) + Place(Bit(w, 3), 8)
            + Place(Bit(w, 4), 16)
  {}

  /** The shift amount is the number modulo 32. */
  lemma AmountNumber(w: Word)
    ensures Isa.Amount(w) as int == Number(w) % 32
  {
    hide Bit, Place, Number, Isa.Amount, Power;
    Powers0();
    LowFiveBits(w);
    AmountBits(w);
    assert (5 as bv6) as int == 5;
  }

  // ------------------------------------------------------------------------------------------
  // Patterns
  // ------------------------------------------------------------------------------------------

  lemma PatternBit(n: nat, k: bv6)
    requires n < TWO32 && k < 32
    ensures Bit(Word(n as bv32), k) <==> Odd(n / Power(k as int))
  {
    hide Bit, Power;
    if k < 8 { DigitOfByte0(n, k); }
    else if k < 16 { DigitOfByte1(n, k); }
    else if k < 24 { DigitOfByte2(n, k); }
    else { DigitOfByte3(n, k); }
  }

  lemma {:induction false} SameDigits(n: nat, w: Word, k: bv6)
    requires n < TWO32 && w == Word(n as bv32) && k <= 32
    ensures LowPart(w, k) == n % Power(k as int)
    decreases k
  {
    hide Bit, Number, LowPart, Power;
    if k == 0 {
      NoLowPart(w);
      FirstPower();
    } else {
      var j := k - 1;
      assert k == j + 1;
      SameDigits(n, w, j);
      NextLowPart(w, j);
      NextPower(j);
      PatternBit(n, j);
      Remainder(n, Power(j as int));
    }
  }

  /** The word made of a number has that number. */
  lemma PatternNumber(n: nat)
    requires n < TWO32
    ensures Number(Word(n as bv32)) == n
  {
    hide Number, LowPart, Power;
    var w := Word(n as bv32);
    SameDigits(n, w, 32);
    WholeLowPart(w);
    assert (32 as bv6) as int == 32;
    LastPower();
    WholeWord(n);
  }

  // ------------------------------------------------------------------------------------------
  // Low bits
  // ------------------------------------------------------------------------------------------

  function Masked(w: Word, m: bv6): (r: Word)
    requires m < 32
  {
    Word(w.bits & (((1 as bv32) << m) - 1))
  }

  lemma MaskedBit(w: Word, m: bv6, k: bv6)
    requires m < 32 && k < m
    ensures Bit(Masked(w, m), k) == Bit(w, k)
  {}

  lemma ClearedBit(w: Word, m: bv6, k: bv6)
    requires m < 32 && m <= k < 32
    ensures !Bit(Masked(w, m), k)
  {}

  lemma {:induction false} MaskedPart(w: Word, m: bv6, k: bv6)
    requires m < 32 && k <= 32
    ensures LowPart(Masked(w, m), k) == LowPart(w, if k < m then k else m)
    decreases k
  {
    hide Bit, LowPart, Masked, Power;
    if k == 0 {
      NoLowPart(w);
      NoLowPart(Masked(w, m));
    } else {
      var j := k - 1;
      assert k == j + 1;
      MaskedPart(w, m, j);
      NextLowPart(Masked(w, m), j);
      NextLowPart(w, j);
      if j < m { MaskedBit(w, m, j); } else { ClearedBit(w, m, j); }
    }
  }

  /** The low m bits are the number modulo 2^m. */
  lemma MaskedNumber(w: Word, m: bv6)
    requires m < 32
    ensures Number(Masked(w, m)) == Number(w) % Power(m as int)
  {
    hide Bit, Number, Masked, Power;
    MaskedPart(w, m, 32);
    WholeLowPart(Masked(w, m));
  }

  lemma MaskIsBit(w: Word, k: bv6)
    requires k < 32
    ensures w.bits & ((1 as bv32) << k) != 0 <==> Bit(w, k)
  {
    if Bit(w, k) {} else {}
  }

  /** A test of one bit is a test of the digit. */
  lemma MaskIsDigit(w: Word, mask: bv32, k: bv6)
    requires k < 32 && mask == (1 as bv32) << k
    ensures w.bits & mask != 0 <==> Digit(w, k)
  {
    hide Bit;
    BitIsDigit(w, k);
    MaskIsBit(w, k);
  }
}
