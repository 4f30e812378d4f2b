/** The 32-bit masks of thermal-engine/pid_algorithm.c, one bit for each client or
    sampling group, with the laws that let them be reasoned about as sets. */
module Bitmask {

  const WIDTH := 32

  /** `0x1 << i` */
  function Bit(i: nat): bv32 {
    if i == 0 then 1 else Double(Bit(i - 1))
  }

  predicate Has(mask: bv32, i: nat) {
    Meets(mask, Bit(i))
  }

  function Set(mask: bv32, i: nat): bv32 {
    Or(mask, Bit(i))
  }

  function Clear(mask: bv32, i: nat): bv32 {
    AndNot(mask, Bit(i))
  }

  predicate Meets(m: bv32, b: bv32) {
    m & b != 0
  }

  function Or(m: bv32, b: bv32): bv32 {
    m | b
  }

  function AndNot(m: bv32, b: bv32): bv32 {
    m & !b
  }

  // ------------------------------------------------------- halving and doubling

  function Double(b: bv32): bv32 {
    b << 1
  }

  function Half(m: bv32): bv32 {
    m >> 1
  }

  predicate Odd(m: bv32) {
    m & 1 == 1
  }

  /** Doubling loses nothing. */
  predicate Small(b: bv32) {
    b & 0x8000_0000 == 0
  }

  lemma HalfMeets(m: bv32, b: bv32)
    requires Small(b)
    ensures Meets(m, Double(b)) == Meets(Half(m), b)
  {
  }

  lemma HalfOr(m: bv32, b: bv32)
    requires Small(b)
    ensures Half(Or(m, Double(b))) == Or(Half(m), b)
  {
  }

  lemma OddOr(m: bv32, b: bv32)
    ensures Odd(Or(m, Double(b))) == Odd(m)
  {
  }

  lemma HalfAndNot(m: bv32, b: bv32)
    requires Small(b)
    ensures Half(AndNot(m, Double(b))) == AndNot(Half(m), b)
  {
  }

  lemma OddAndNot(m: bv32, b: bv32)
    ensures Odd(AndNot(m, Double(b))) == Odd(m)
  {
  }

  lemma MeetsOne(m: bv32)
    ensures Meets(m, 1) == Odd(m)
  {
  }

  lemma OrOne(m: bv32)
    ensures Odd(Or(m, 1))
  {
  }

  lemma HalfOrOne(m: bv32)
    ensures Half(Or(m, 1)) == Half(m)
  {
  }

  lemma AndNotOne(m: bv32)
    ensures !Odd(AndNot(m, 1))
  {
  }

  lemma HalfAndNotOne(m: bv32)
    ensures Half(AndNot(m, 1)) == Half(m)
  {
  }

  lemma Descent(m: bv32)
    requires m != 0
    ensures Half(m) < m && (Odd(m) || Half(m) != 0)
  {
  }

  lemma HalfSmall(m: bv32)
    ensures Small(Half(m))
  {
  }

  // ---------------------------------------------------------------- one bit

  /** `b` can be doubled `k` times and lose nothing. */
  predicate Room(b: bv32, k: nat)
    decreases k
  {
    k == 0 || (Small(b) && Room(Double(b), k - 1))
  }

  /** One can be doubled 31 times: counting down from the last. */
  lemma RoomForOne()
    ensures Room(1, 31)
  {
    assert Room(0x4000_0000, 1) && Room(0x2000_0000, 2) && Room(0x1000_0000, 3);
    assert Room(0x800_0000, 4) && Room(0x400_0000, 5) && Room(0x200_0000, 6) && Room(0x100_0000, 7);
    assert Room(0x80_0000, 8) && Room(0x40_0000, 9) && Room(0x20_0000, 10) && Room(0x10_0000, 11);
    assert Room(0x8_0000, 12) && Room(0x4_0000, 13) && Room(0x2_0000, 14) && Room(0x1_0000, 15);
    assert Room(0x8000, 16) && Room(0x4000, 17) && Room(0x2000, 18) && Room(0x1000, 19);
    assert Room(0x800, 20) && Room(0x400, 21) && Room(0x200, 22) && Room(0x100, 23);
    assert Room(0x80, 24) && Room(0x40, 25) && Room(0x20, 26) && Room(0x10, 27);
    assert Room(0x8, 28) && Room(0x4, 29) && Room(0x2, 30);
  }

  lemma {:induction false} BitRoom(i: nat)
    requires i < WIDTH
    ensures Room(Bit(i), WIDTH - 1 - i)
    decreases i
  {
    hide Double, Small;
    if i == 0 {
      RoomForOne();
    } else {
      BitRoom(i - 1);
    }
  }

  lemma BitSmall(i: nat)
    requires i < WIDTH - 1
    ensures Small(Bit(i))
  {
    hide Double, Small;
    BitRoom(i);
  }

  /** Bit `i` of a mask is bit `i - 1` of half of it; and so for setting and clearing. */
  lemma Halve(m: bv32, i: nat)
    requires 0 < i < WIDTH
    ensures Has(m, i) == Has(Half(m), i - 1)
    ensures Half(Set(m, i)) == Set(Half(m), i - 1) && Odd(Set(m, i)) == Odd(m)
    ensures Half(Clear(m, i)) == Clear(Half(m), i - 1) && Odd(Clear(m, i)) == Odd(m)
  {
    hide Double, Half, Small, Odd, Meets, Or, AndNot;
    BitSmall(i - 1);
    HalfMeets(m, Bit(i - 1));
    HalfOr(m, Bit(i - 1));
    OddOr(m, Bit(i - 1));
    HalfAndNot(m, Bit(i - 1));
    OddAndNot(m, Bit(i - 1));
  }

  lemma Lowest(m: bv32)
    ensures Has(m, 0) == Odd(m)
    ensures Half(Set(m, 0)) == Half(m) && Odd(Set(m, 0))
    ensures Half(Clear(m, 0)) == Half(m) && !Odd(Clear(m, 0))
  {
    hide Double, Half, Small, Odd, Meets, Or, AndNot;
    MeetsOne(m);
    OrOne(m);
    HalfOrOne(m);
    AndNotOne(m);
    HalfAndNotOne(m);
  }

  // ------------------------------------------------------------- masks as sets

  lemma {:induction false} HasSet(m: bv32, i: nat, j: nat)
    requires i < WIDTH && j < WIDTH
    ensures Has(Set(m, i), j) <==> i == j || Has(m, j)
    decreases i
  {
    hide *;
    Lowest(m);
    Lowest(Set(m, i));
    if i > 0 {
      Halve(m, i);
    }
    if j > 0 {
      Halve(m, j);
      Halve(Set(m, i), j);
      if i > 0 {
        HasSet(Half(m), i - 1, j - 1);
      }
    }
  }

  lemma {:induction false} HasClear(m: bv32, i: nat, j: nat)
    requires i < WIDTH && j < WIDTH
    ensures Has(Clear(m, i), j) <==> i != j && Has(m, j)
    decreases i
  {
    hide *;
    Lowest(m);
    Lowest(Clear(m, i));
    if i > 0 {
      Halve(m, i);
    }
    if j > 0 {
      Halve(m, j);
      Halve(Clear(m, i), j);
      if i > 0 {
        HasClear(Half(m), i - 1, j - 1);
      }
    }
  }

  lemma HasNothing(i: nat)
    ensures !Has(0, i)
  {
    hide Bit;
  }

  lemma LastBit()
    ensures Bit(31) == 0x8000_0000
  {
    assert Bit(1) == 0x2 && Bit(2) == 0x4 && Bit(3) == 0x8;
    assert Bit(4) == 0x10 && Bit(5) == 0x20 && Bit(6) == 0x40 && Bit(7) == 0x80;
    assert Bit(8) == 0x100 && Bit(9) == 0x200 && Bit(10) == 0x400 && Bit(11) == 0x800;
    assert Bit(12) == 0x1000 && Bit(13) == 0x2000 && Bit(14) == 0x4000 && Bit(15) == 0x8000;
    assert Bit(16) == 0x1_0000 && Bit(17) == 0x2_0000 && Bit(18) == 0x4_0000 && Bit(19) == 0x8_0000;
    assert Bit(20) == 0x10_0000 && Bit(21) == 0x20_0000 && Bit(22) == 0x40_0000 && Bit(23) == 0x80_0000;
    assert Bit(24) == 0x100_0000 && Bit(25) == 0x200_0000 && Bit(26) == 0x400_0000 && Bit(27) == 0x800_0000;
    assert Bit(28) == 0x1000_0000 && Bit(29) == 0x2000_0000 && Bit(30) == 0x4000_0000;
  }

  /** Half of a mask has no last bit. */
  lemma HalfLacksLast(m: bv32)
    ensures !Has(Half(m), WIDTH - 1)
  {
    hide Bit, Half;
    LastBit();
    HalfSmall(m);
  }

  /** A mask that is not zero has a bit, and it is one of the 32. */
  lemma {:induction false} SomeBit(m: bv32) returns (i: nat)
    requires m != 0
    ensures i < WIDTH && Has(m, i)
    decreases m
  {
    hide Bit, Has, Double, Half, Small, Odd, Meets, Or, AndNot;
    Descent(m);
    Lowest(m);
    if Odd(m) {
      i := 0;
    } else {
      var k := SomeBit(Half(m));
      i := k + 1;
      HalfLacksLast(m);
      Halve(m, i);
    }
  }

  /** So a mask is zero exactly when it has no bit. */
  lemma Empty(m: bv32)
    ensures m == 0 <==> forall i | 0 <= i < WIDTH :: !Has(m, i)
  {
    hide *;
    if m == 0 {
      forall i | 0 <= i < WIDTH ensures !Has(m, i) {
        HasNothing(i);
      }
    } else {
      var i := SomeBit(m);
    }
  }

  // ------------------------------------------------------------- the first bits

  /** The mask of the first `n` bits, as the source makes it. */
  function FirstBits(n: nat): bv32 {
    if n < WIDTH then Less(Bit(n)) else 0xFFFF_FFFF
  }

  function Less(b: bv32): bv32 {
    b - 1
  }

  lemma LessDouble(b: bv32)
    requires Small(b) && b != 0
    ensures Odd(Less(Double(b))) && Half(Less(Double(b))) == Less(b)
  {
  }

  lemma DoubleNotZero(b: bv32)
    requires Small(b) && b != 0
    ensures Double(b) != 0
  {
  }

  lemma {:induction false} BitNotZero(i: nat)
    requires i < WIDTH
    ensures Bit(i) != 0
    decreases i
  {
    hide Double, Small;
    if i > 0 {
      BitNotZero(i - 1);
      BitSmall(i - 1);
      DoubleNotZero(Bit(i - 1));
    }
  }

  lemma AllBits()
    ensures 0xFFFF_FFFF == Or(Less(Bit(WIDTH - 1)), Bit(WIDTH - 1))
  {
    LastBit();
  }

  /** It has exactly those. */
  lemma {:induction false} HasFirst(n: nat, i: nat)
    requires n <= WIDTH && i < WIDTH
    ensures Has(FirstBits(n), i) <==> i < n
    decreases n + i
  {
    hide Bit, Has, Set, Double, Half, Small, Odd, Meets, Or, Less;
    if n == WIDTH {
      AllBits();
      HasFirst(WIDTH - 1, i);
      HasSet(FirstBits(WIDTH - 1), WIDTH - 1, i);
      assert Set(FirstBits(WIDTH - 1), WIDTH - 1) == 0xFFFF_FFFF by { SetIsOr(FirstBits(WIDTH - 1), WIDTH - 1); }
    } else if n == 0 {
      NoBits();
      HasNothing(i);
    } else {
      BitSmall(n - 1);
      BitNotZero(n - 1);
      LessDouble(Bit(n - 1));
      BitStep(n);
      Lowest(FirstBits(n));
      if i > 0 {
        Halve(FirstBits(n), i);
        HasFirst(n - 1, i - 1);
      }
    }
  }

  lemma SetIsOr(m: bv32, i: nat)
    ensures Set(m, i) == Or(m, Bit(i))
  {
  }

  lemma BitStep(n: nat)
    requires n > 0
    ensures Bit(n) == Double(Bit(n - 1))
  {
  }

  lemma NoBits()
    ensures FirstBits(0) == 0
  {
  }
}
