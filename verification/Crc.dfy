/** The 16-bit frame check sequence of ks/crc.c: section C.2 of RFC 1662, least
    significant bit first, with a 256-entry table.

    The reference definition is the bit-serial register (`FeedBit`, `Feed`); the
    table-driven loop is proved to refine it, and the error-detection results are
    proved about the reference. */
module Crc {

  const CRC_16_L_POLYNOMIAL: bv16 := 0x8408
  const CRC_16_L_SEED: bv16 := 0xFFFF
  const CRC_16_L_OK: bv16 := 0x0F47

  const SUCCESS := 0
  const EFAILED := 1

  /** `unsigned long` is 32 bits wide on the target, so `length * 8` can wrap. */
  const ULONG_MODULUS := 0x1_0000_0000

  // ---------------------------------------------------------------- the table

  function Pick(i: bv8, v0: bv16, v1: bv16, v2: bv16, v3: bv16, v4: bv16, v5: bv16, v6: bv16, v7: bv16): bv16 {
    if i & 4 == 0 then
      if i & 2 == 0 then (if i & 1 == 0 then v0 else v1) else (if i & 1 == 0 then v2 else v3)
    else
      if i & 2 == 0 then (if i & 1 == 0 then v4 else v5) else (if i & 1 == 0 then v6 else v7)
  }

  /** crc_table, one row of eight entries a line. */
  function CrcTable(i: bv8): bv16 {
    if i < 0x08 then Pick(i, 0x0000, 0x1189, 0x2312, 0x329b, 0x4624, 0x57ad, 0x6536, 0x74bf) else
    if i < 0x10 then Pick(i, 0x8c48, 0x9dc1, 0xaf5a, 0xbed3, 0xca6c, 0xdbe5, 0xe97e, 0xf8f7) else
    if i < 0x18 then Pick(i, 0x1081, 0x0108, 0x3393, 0x221a, 0x56a5, 0x472c, 0x75b7, 0x643e) else
    if i < 0x20 then Pick(i, 0x9cc9, 0x8d40, 0xbfdb, 0xae52, 0xdaed, 0xcb64, 0xf9ff, 0xe876) else
    if i < 0x28 then Pick(i, 0x2102, 0x308b, 0x0210, 0x1399, 0x6726, 0x76af, 0x4434, 0x55bd) else
    if i < 0x30 then Pick(i, 0xad4a, 0xbcc3, 0x8e58, 0x9fd1, 0xeb6e, 0xfae7, 0xc87c, 0xd9f5) else
    if i < 0x38 then Pick(i, 0x3183, 0x200a, 0x1291, 0x0318, 0x77a7, 0x662e, 0x54b5, 0x453c) else
    if i < 0x40 then Pick(i, 0xbdcb, 0xac42, 0x9ed9, 0x8f50, 0xfbef, 0xea66, 0xd8fd, 0xc974) else
    if i < 0x48 then Pick(i, 0x4204, 0x538d, 0x6116, 0x709f, 0x0420, 0x15a9, 0x2732, 0x36bb) else
    if i < 0x50 then Pick(i, 0xce4c, 0xdfc5, 0xed5e, 0xfcd7, 0x8868, 0x99e1, 0xab7a, 0xbaf3) else
    if i < 0x58 then Pick(i, 0x5285, 0x430c, 0x7197, 0x601e, 0x14a1, 0x0528, 0x37b3, 0x263a) else
    if i < 0x60 then Pick(i, 0xdecd, 0xcf44, 0xfddf, 0xec56, 0x98e9, 0x8960, 0xbbfb, 0xaa72) else
    if i < 0x68 then Pick(i, 0x6306, 0x728f, 0x4014, 0x519d, 0x2522, 0x34ab, 0x0630, 0x17b9) else
    if i < 0x70 then Pick(i, 0xef4e, 0xfec7, 0xcc5c, 0xddd5, 0xa96a, 0xb8e3, 0x8a78, 0x9bf1) else
    if i < 0x78 then Pick(i, 0x7387, 0x620e, 0x5095, 0x411c, 0x35a3, 0x242a, 0x16b1, 0x0738) else
    if i < 0x80 then Pick(i, 0xffcf, 0xee46, 0xdcdd, 0xcd54, 0xb9eb, 0xa862, 0x9af9, 0x8b70) else
    if i < 0x88 then Pick(i, 0x8408, 0x9581, 0xa71a, 0xb693, 0xc22c, 0xd3a5, 0xe13e, 0xf0b7) else
    if i < 0x90 then Pick(i, 0x0840, 0x19c9, 0x2b52, 0x3adb, 0x4e64, 0x5fed, 0x6d76, 0x7cff) else
    if i < 0x98 then Pick(i, 0x9489, 0x8500, 0xb79b, 0xa612, 0xd2ad, 0xc324, 0xf1bf, 0xe036) else
    if i < 0xa0 then Pick(i, 0x18c1, 0x0948, 0x3bd3, 0x2a5a, 0x5ee5, 0x4f6c, 0x7df7, 0x6c7e) else
    if i < 0xa8 then Pick(i, 0xa50a, 0xb483, 0x8618, 0x9791, 0xe32e, 0xf2a7, 0xc03c, 0xd1b5) else
    if i < 0xb0 then Pick(i, 0x2942, 0x38cb, 0x0a50, 0x1bd9, 0x6f66, 0x7eef, 0x4c74, 0x5dfd) else
    if i < 0xb8 then Pick(i, 0xb58b, 0xa402, 0x9699, 0x8710, 0xf3af, 0xe226, 0xd0bd, 0xc134) else
    if i < 0xc0 then Pick(i, 0x39c3, 0x284a, 0x1ad1, 0x0b58, 0x7fe7, 0x6e6e, 0x5cf5, 0x4d7c) else
    if i < 0xc8 then Pick(i, 0xc60c, 0xd785, 0xe51e, 0xf497, 0x8028, 0x91a1, 0xa33a, 0xb2b3) else
    if i < 0xd0 then Pick(i, 0x4a44, 0x5bcd, 0x6956, 0x78df, 0x0c60, 0x1de9, 0x2f72, 0x3efb) else
    if i < 0xd8 then Pick(i, 0xd68d, 0xc704, 0xf59f, 0xe416, 0x90a9, 0x8120, 0xb3bb, 0xa232) else
    if i < 0xe0 then Pick(i, 0x5ac5, 0x4b4c, 0x79d7, 0x685e, 0x1ce1, 0x0d68, 0x3ff3, 0x2e7a) else
    if i < 0xe8 then Pick(i, 0xe70e, 0xf687, 0xc41c, 0xd595, 0xa12a, 0xb0a3, 0x8238, 0x93b1) else
    if i < 0xf0 then Pick(i, 0x6b46, 0x7acf, 0x4854, 0x59dd, 0x2d62, 0x3ceb, 0x0e70, 0x1ff9) else
    if i < 0xf8 then Pick(i, 0xf78f, 0xe606, 0xd49d, 0xc514, 0xb1ab, 0xa022, 0x92b9, 0x8330) else
    Pick(i, 0x7bc7, 0x6a4e, 0x58d5, 0x495c, 0x3de3, 0x2c6a, 0x1ef1, 0x0f78)
  }

  /** A `char` widened to `unsigned short`: sign-extended where `char` is signed. */
  function Widen(b: bv8, charIsSigned: bool): bv16 {
    if charIsSigned && b >= 0x80 then 0xFF00 | (b as bv16) else b as bv16
  }

  function TableIndex(crc: bv16, b: bv8, charIsSigned: bool): bv8 {
    ((crc ^ Widen(b, charIsSigned)) & 0x00ff) as bv8
  }

  function TableStep(crc: bv16, b: bv8): bv16 {
    CrcTable(TableIndex(crc, b, true)) ^ (crc >> 8)
  }

  // ------------------------------------------------ the bit-serial reference

  function Add(x: bv16, y: bv16): bv16 { x ^ y }

  function Half(v: bv16): bv16 { v >> 1 }

  predicate Odd(v: bv16) { v & 1 == 1 }

  /** One bit of the reflected register: shift right, and feed the bit shifted out back. */
  function BitStep(r: bv16): bv16 {
    if r & 1 == 1 then (r >> 1) ^ CRC_16_L_POLYNOMIAL else r >> 1
  }

  function FeedBit(r: bv16, bit: bool): bv16 {
    BitStep(Add(r, if bit then 1 else 0))
  }

  function Feed(r: bv16, bits: seq<bool>): bv16
    decreases bits
  {
    if bits == [] then r else Feed(FeedBit(r, bits[0]), bits[1..])
  }

  /** The `n` low bits of a word, least significant first. */
  function LowBits(v: bv16, n: nat): (bits: seq<bool>)
    ensures |bits| == n
  {
    if n == 0 then [] else [Odd(v)] + LowBits(Half(v), n - 1)
  }

  function ByteBits(b: bv8): (bits: seq<bool>)
    ensures |bits| == 8
  {
    LowBits(b as bv16, 8)
  }

  function Bits(msg: seq<bv8>): (bits: seq<bool>)
    ensures |bits| == 8 * |msg|
  {
    if msg == [] then [] else ByteBits(msg[0]) + Bits(msg[1..])
  }

  function Register(msg: seq<bv8>): bv16 {
    Feed(CRC_16_L_SEED, Bits(msg))
  }

  /** The check sequence of a message: the complement of the register. */
  function Fcs(msg: seq<bv8>): bv16 {
    !Register(msg)
  }

  function LowByte(v: bv16): bv8 { (v & 0x00ff) as bv8 }

  function HighByte(v: bv16): bv8 { (v >> 8) as bv8 }

  /** The two bytes that carry a check sequence, low byte first. */
  function FcsBytes(msg: seq<bv8>): (s: seq<bv8>)
    ensures |s| == 2
  {
    [LowByte(Fcs(msg)), HighByte(Fcs(msg))]
  }

  /** What check_crc accepts. */
  predicate Passes(buffer: seq<bv8>) {
    Fcs(buffer) == CRC_16_L_OK
  }

  // ----------------------------------------------------------- bits and bytes

  lemma {:induction false} BitsAt(msg: seq<bv8>, i: nat)
    requires i < 8 * |msg|
    ensures Bits(msg)[i] == ByteBits(msg[i / 8])[i % 8]
  {
    hide ByteBits;
    if i >= 8 {
      BitsAt(msg[1..], i - 8);
    }
  }

  lemma {:induction false} BitsConcat(a: seq<bv8>, b: seq<bv8>)
    ensures Bits(a + b) == Bits(a) + Bits(b)
  {
    hide ByteBits;
    if a == [] {
      assert a + b == b && Bits(a) + Bits(b) == Bits(b);
    } else {
      var c := a + b;
      assert c[0] == a[0] && c[1..] == a[1..] + b;
      BitsConcat(a[1..], b);
      assert Bits(c) == ByteBits(a[0]) + (Bits(a[1..]) + Bits(b)) == Bits(a) + Bits(b);
    }
  }

  /** `n` right shifts by one. */
  function Shift(v: bv16, n: nat): bv16
    decreases n
  {
    if n == 0 then v else Shift(Half(v), n - 1)
  }

  lemma {:induction false} LowBitsInjective(u: bv16, v: bv16, n: nat)
    requires LowBits(u, n) == LowBits(v, n) && Shift(u, n) == Shift(v, n)
    ensures u == v
    decreases n
  {
    hide Odd, Half;
    if n > 0 {
      assert LowBits(u, n)[0] == LowBits(v, n)[0];
      assert LowBits(Half(u), n - 1) == LowBits(u, n)[1..] == LowBits(v, n)[1..] == LowBits(Half(v), n - 1);
      LowBitsInjective(Half(u), Half(v), n - 1);
      HalvesInjective(u, v);
    }
  }

  lemma HalvesInjective(u: bv16, v: bv16)
    requires Half(u) == Half(v) && Odd(u) == Odd(v)
    ensures u == v
  {
  }

  lemma ShiftByEight(b: bv8)
    ensures Shift(b as bv16, 8) == 0
  {
    hide Half;
    var v := b as bv16;
    var v2 := Half(Half(v)); var v4 := Half(Half(v2)); var v6 := Half(Half(v4));
    assert Shift(v, 8) == Shift(v2, 6) == Shift(v4, 4) == Shift(v6, 2) == Shift(Half(Half(v6)), 0);
    EightHalves(b);
  }

  lemma EightHalves(b: bv8)
    ensures Half(Half(Half(Half(Half(Half(Half(Half(b as bv16)))))))) == 0
  {
  }

  lemma ByteBitsInjective(a: bv8, b: bv8)
    requires ByteBits(a) == ByteBits(b)
    ensures a == b
  {
    hide Half, Odd;
    ShiftByEight(a);
    ShiftByEight(b);
    LowBitsInjective(a as bv16, b as bv16, 8);
  }

  lemma {:induction false} BitsInjective(a: seq<bv8>, b: seq<bv8>)
    requires |a| == |b| && Bits(a) == Bits(b)
    ensures a == b
  {
    hide ByteBits;
    if a != [] {
      assert ByteBits(a[0]) == Bits(a)[..8] == Bits(b)[..8] == ByteBits(b[0]);
      ByteBitsInjective(a[0], b[0]);
      assert Bits(a[1..]) == Bits(a)[8..] == Bits(b)[8..] == Bits(b[1..]);
      BitsInjective(a[1..], b[1..]);
    }
  }

  lemma {:induction false} FeedConcat(r: bv16, x: seq<bool>, y: seq<bool>)
    ensures Feed(r, x + y) == Feed(Feed(r, x), y)
    decreases x
  {
    hide FeedBit;
    if x == [] {
      assert x + y == y;
    } else {
      assert (x + y)[1..] == x[1..] + y;
      FeedConcat(FeedBit(r, x[0]), x[1..], y);
    }
  }

  // --------------------------------------------------------- table refinement

  function EightSteps(r: bv16): bv16 {
    BitStep(BitStep(BitStep(BitStep(BitStep(BitStep(BitStep(BitStep(r))))))))
  }

  /** Eight bit steps of a byte as the sum, over its one bits, of eight constants. */
  function Spread(i: bv8): bv16 {
    (if i & 0x01 != 0 then 0x1189 else 0) ^ (if i & 0x02 != 0 then 0x2312 else 0) ^
    (if i & 0x04 != 0 then 0x4624 else 0) ^ (if i & 0x08 != 0 then 0x8c48 else 0) ^
    (if i & 0x10 != 0 then 0x1081 else 0) ^ (if i & 0x20 != 0 then 0x2102 else 0) ^
    (if i & 0x40 != 0 then 0x4204 else 0) ^ (if i & 0x80 != 0 then 0x8408 else 0)
  }

  lemma SpreadIsSteps(i: bv8)
    ensures Spread(i) == EightSteps(i as bv16)
  {
    hide Spread, EightSteps;
    var low, high := i & 0x0F, i & 0xF0;
    SpreadSplit(i);
    assert Add(low as bv16, high as bv16) == i as bv16;
    EightStepsLinear(low as bv16, high as bv16);
    SpreadLow(low);
    SpreadHigh(high);
  }

  lemma SpreadSplit(i: bv8)
    ensures Spread(i) == Add(Spread(i & 0x0F), Spread(i & 0xF0))
  {
  }

  lemma SpreadLow(i: bv8)
    requires i & 0xF0 == 0
    ensures Spread(i) == EightSteps(i as bv16)
  {
  }

  lemma SpreadHigh(i: bv8)
    requires i & 0x0F == 0
    ensures Spread(i) == EightSteps(i as bv16)
  {
  }

  /** Every one of the 256 table entries is eight bit steps of its index. */
  lemma TableEntry(i: bv8)
    ensures CrcTable(i) == EightSteps(i as bv16)
  {
    hide CrcTable, EightSteps, Spread;
    if i <= 0x3F {
      TableEntryFirst(i);
    } else if i <= 0x7F {
      TableEntrySecond(i);
    } else if i <= 0xBF {
      TableEntryThird(i);
    } else {
      TableEntryFourth(i);
    }
    SpreadIsSteps(i);
  }

  lemma TableEntryFirst(i: bv8)
    requires 0x00 <= i <= 0x3F
    ensures CrcTable(i) == Spread(i)
  {
  }

  lemma TableEntrySecond(i: bv8)
    requires 0x40 <= i <= 0x7F
    ensures CrcTable(i) == Spread(i)
  {
  }

  lemma TableEntryThird(i: bv8)
    requires 0x80 <= i <= 0xBF
    ensures CrcTable(i) == Spread(i)
  {
  }

  lemma TableEntryFourth(i: bv8)
    requires 0xC0 <= i <= 0xFF
    ensures CrcTable(i) == Spread(i)
  {
  }

  /** Whether the compiler's `char` is signed makes no difference to the index. */
  lemma CharSignIrrelevant(crc: bv16, b: bv8)
    ensures TableIndex(crc, b, true) == TableIndex(crc, b, false)
  {
    assert (crc ^ (0xFF00 | (b as bv16))) & 0x00ff == (crc ^ (b as bv16)) & 0x00ff;
  }

  function Steps(r: bv16, n: nat): bv16
    decreases n
  {
    if n == 0 then r else Steps(BitStep(r), n - 1)
  }

  /** Feeding a word serially is stepping the register with the word already added. */
  lemma {:induction false} FeedLowBits(r: bv16, v: bv16, n: nat)
    ensures Add(Feed(r, LowBits(v, n)), Shift(v, n)) == Steps(Add(r, v), n)
    decreases n
  {
    hide BitStep, FeedBit, Add, Half, Odd;
    if n > 0 {
      SerialStep(r, v);
      FeedLowBits(FeedBit(r, Odd(v)), Half(v), n - 1);
      assert LowBits(v, n)[1..] == LowBits(Half(v), n - 1);
    }
  }

  function Feedback(out: bool): bv16 {
    if out then CRC_16_L_POLYNOMIAL else 0
  }

  lemma StepShape(r: bv16)
    ensures BitStep(r) == Add(Half(r), Feedback(Odd(r)))
  {
    if r & 1 == 1 {
    } else {
      assert (r >> 1) ^ 0 == r >> 1;
    }
  }

  /** A bit step is linear over exclusive-or. */
  lemma StepLinear(x: bv16, y: bv16)
    ensures BitStep(Add(x, y)) == Add(BitStep(x), BitStep(y))
  {
    hide *;
    StepShape(x);
    StepShape(y);
    StepShape(Add(x, y));
    HalfLinear(x, y);
    FeedbackLinear(Odd(x), Odd(y));
    AddInterchange(Half(x), Half(y), Feedback(Odd(x)), Feedback(Odd(y)));
  }

  lemma HalfLinear(x: bv16, y: bv16)
    ensures Half(Add(x, y)) == Add(Half(x), Half(y))
    ensures Odd(Add(x, y)) == (Odd(x) != Odd(y))
  {
  }

  lemma FeedbackLinear(a: bool, b: bool)
    ensures Feedback(a != b) == Add(Feedback(a), Feedback(b))
  {
  }

  lemma AddInterchange(a: bv16, b: bv16, c: bv16, d: bv16)
    ensures Add(Add(a, b), Add(c, d)) == Add(Add(a, c), Add(b, d))
  {
    hide Add;
    AddAssociates(a, b, Add(c, d));
    AddAssociates(b, c, d);
    AddCommutes(b, c);
    AddAssociates(c, b, d);
    AddAssociates(a, c, Add(b, d));
  }

  lemma AddAssociates(a: bv16, b: bv16, c: bv16)
    ensures Add(Add(a, b), c) == Add(a, Add(b, c))
  {
  }

  lemma AddCommutes(a: bv16, b: bv16)
    ensures Add(a, b) == Add(b, a)
  {
  }

  lemma SerialStep(r: bv16, v: bv16)
    ensures BitStep(Add(r, v)) == Add(FeedBit(r, Odd(v)), Half(v))
  {
    hide BitStep, Add, Half, Odd;
    var low := if Odd(v) then 1 else 0;
    var high := Add(v, low);
    SplitLowBit(r, v);
    StepLinear(Add(r, low), high);
    EvenStep(high);
  }

  lemma SplitLowBit(r: bv16, v: bv16)
    ensures var low := if Odd(v) then 1 else 0;
            Add(Add(r, low), Add(v, low)) == Add(r, v) && !Odd(Add(v, low)) && Half(Add(v, low)) == Half(v)
  {
  }

  lemma EvenStep(v: bv16)
    requires !Odd(v)
    ensures BitStep(v) == Half(v)
  {
  }

  lemma FeedByte(r: bv16, b: bv8)
    ensures Feed(r, ByteBits(b)) == EightSteps(Add(r, b as bv16))
  {
    hide BitStep, FeedBit, Half, Odd;
    FeedLowBits(r, b as bv16, 8);
    ShiftByEight(b);
    StepsEight(Add(r, b as bv16));
  }

  lemma StepsEight(x: bv16)
    ensures Steps(x, 8) == EightSteps(x)
  {
    hide BitStep;
    var x2 := BitStep(BitStep(x)); var x4 := BitStep(BitStep(x2)); var x6 := BitStep(BitStep(x4));
    assert Steps(x, 8) == Steps(x2, 6) == Steps(x4, 4) == Steps(x6, 2) == Steps(BitStep(BitStep(x6)), 0);
  }

  lemma EightStepsSplit(x: bv16)
    ensures EightSteps(x) == Add(EightSteps(x & 0x00ff), x >> 8)
  {
    var low, high := x & 0x00ff, x & 0xFF00;
    assert Add(low, high) == x;
    EightStepsLinear(low, high);
    HighByteStep(high);
    assert high >> 8 == x >> 8;
  }

  lemma EightStepsLinear(x: bv16, y: bv16)
    ensures EightSteps(Add(x, y)) == Add(EightSteps(x), EightSteps(y))
  {
    StepsEight(x);
    StepsEight(y);
    StepsEight(Add(x, y));
    StepsLinear(x, y, 8);
  }

  lemma {:induction false} StepsLinear(x: bv16, y: bv16, n: nat)
    ensures Steps(Add(x, y), n) == Add(Steps(x, n), Steps(y, n))
    decreases n
  {
    hide BitStep, Add;
    if n > 0 {
      StepLinear(x, y);
      StepsLinear(BitStep(x), BitStep(y), n - 1);
    }
  }

  lemma HighByteStep(x: bv16)
    requires x & 0x00ff == 0
    ensures EightSteps(x) == x >> 8
  {
    hide BitStep, Add;
    EvenStep(x); EvenStep(x >> 1); EvenStep(x >> 2); EvenStep(x >> 3);
    EvenStep(x >> 4); EvenStep(x >> 5); EvenStep(x >> 6); EvenStep(x >> 7);
    assert Half(x) == x >> 1; assert Half(x >> 1) == x >> 2; assert Half(x >> 2) == x >> 3;
    assert Half(x >> 3) == x >> 4; assert Half(x >> 4) == x >> 5; assert Half(x >> 5) == x >> 6;
    assert Half(x >> 6) == x >> 7; assert Half(x >> 7) == x >> 8;
  }

  /** The table-driven step is eight bit-serial steps. */
  lemma TableStepIsEightBits(r: bv16, b: bv8)
    ensures TableStep(r, b) == Feed(r, ByteBits(b))
  {
    hide *;
    TableStepShape(r, b);
    TableEntry(TableIndex(r, b, false));
    EightStepsSplit(Add(r, b as bv16));
    AddedBytes(r, b);
    FeedByte(r, b);
  }

  lemma TableStepShape(r: bv16, b: bv8)
    ensures TableStep(r, b) == Add(CrcTable(TableIndex(r, b, false)), r >> 8)
  {
    hide CrcTable, TableIndex;
    CharSignIrrelevant(r, b);
  }

  lemma AddedBytes(r: bv16, b: bv8)
    ensures Add(r, b as bv16) >> 8 == r >> 8
    ensures Add(r, b as bv16) & 0x00ff == TableIndex(r, b, false) as bv16
  {
  }

  /** Table refinement: folding the table over a message is the bit-serial register. */
  function TableFold(crc: bv16, msg: seq<bv8>): bv16
    decreases msg
  {
    if msg == [] then crc else TableFold(TableStep(crc, msg[0]), msg[1..])
  }

  lemma {:induction false} TableFoldRefinesFeed(crc: bv16, msg: seq<bv8>)
    ensures TableFold(crc, msg) == Feed(crc, Bits(msg))
    decreases msg
  {
    hide TableStep, FeedBit, ByteBits;
    if msg != [] {
      TableStepIsEightBits(crc, msg[0]);
      TableFoldRefinesFeed(TableStep(crc, msg[0]), msg[1..]);
      FeedConcat(crc, ByteBits(msg[0]), Bits(msg[1..]));
    }
  }

  // ------------------------------------------------------------ burst errors

  predicate AllFalse(bits: seq<bool>) {
    forall i | 0 <= i < |bits| :: !bits[i]
  }

  function Difference(x: seq<bool>, y: seq<bool>): (d: seq<bool>)
    requires |x| == |y|
    ensures |d| == |x|
    ensures forall i | 0 <= i < |x| :: d[i] == (x[i] != y[i])
  {
    seq(|x|, i requires 0 <= i < |x| => x[i] != y[i])
  }

  /** The register is linear: feeding a difference gives the difference of the registers. */
  lemma {:induction false} FeedLinear(r: bv16, s: bv16, x: seq<bool>, y: seq<bool>)
    requires |x| == |y|
    ensures Feed(Add(r, s), Difference(x, y)) == Add(Feed(r, x), Feed(s, y))
    decreases x
  {
    hide FeedBit, Add;
    if x != [] {
      FeedBitLinear(r, s, x[0], y[0]);
      FeedLinear(FeedBit(r, x[0]), FeedBit(s, y[0]), x[1..], y[1..]);
      assert Difference(x, y)[1..] == Difference(x[1..], y[1..]);
    }
  }

  lemma FeedBitLinear(r: bv16, s: bv16, a: bool, b: bool)
    ensures FeedBit(Add(r, s), a != b) == Add(FeedBit(r, a), FeedBit(s, b))
  {
    hide BitStep, Add;
    var va: bv16 := if a then 1 else 0;
    var vb: bv16 := if b then 1 else 0;
    AddOfBits(a, b);
    AddInterchange(r, s, va, vb);
    StepLinear(Add(r, va), Add(s, vb));
  }

  lemma AddOfBits(a: bool, b: bool)
    ensures Add(if a then 1 else 0, if b then 1 else 0) == if a != b then 1 else 0
  {
  }

  lemma StepZero(x: bv16)
    ensures BitStep(x) == 0 <==> x == 0
  {
  }

  lemma {:induction false} StepsZero(x: bv16, n: nat)
    requires Steps(x, n) == 0
    ensures x == 0
    decreases n
  {
    hide BitStep;
    if n > 0 {
      StepsZero(BitStep(x), n - 1);
      StepZero(x);
    }
  }

  lemma FeedBitFalse(r: bv16)
    ensures FeedBit(r, false) == 0 <==> r == 0
  {
    StepZero(r);
  }

  /** Zero bits neither leave nor reach the zero register. */
  lemma {:induction false} FeedZeros(r: bv16, zeros: seq<bool>)
    requires AllFalse(zeros)
    ensures Feed(r, zeros) == 0 <==> r == 0
    decreases zeros
  {
    hide FeedBit;
    if zeros != [] {
      FeedBitFalse(r);
      FeedZeros(FeedBit(r, zeros[0]), zeros[1..]);
    }
  }

  function Double(v: bv16): bv16 { v << 1 }

  /** The word whose low bits are `w`. */
  function Pack(w: seq<bool>): bv16
    decreases w
  {
    if w == [] then 0 else Add(Double(Pack(w[1..])), if w[0] then 1 else 0)
  }

  lemma DoubleHalf(p: bv16, bit: bool)
    requires p & 0x8000 == 0
    ensures var v := Add(Double(p), if bit then 1 else 0); Half(v) == p && Odd(v) == bit
  {
  }

  lemma {:induction false} ShiftPlus(v: bv16, m: nat, n: nat)
    ensures Shift(v, m + n) == Shift(Shift(v, m), n)
    decreases m
  {
    hide Half;
    if m > 0 {
      ShiftPlus(Half(v), m - 1, n);
    }
  }

  lemma {:induction false} ShiftOfZero(n: nat)
    ensures Shift(0, n) == 0
  {
    if n > 0 {
      ShiftOfZero(n - 1);
    }
  }

  lemma TopBitClear(p: bv16, n: nat)
    requires n <= 15 && Shift(p, n) == 0
    ensures p & 0x8000 == 0
  {
    hide Half;
    ShiftPlus(p, n, 15 - n);
    ShiftOfZero(15 - n);
    var v3 := Half(Half(Half(p))); var v6 := Half(Half(Half(v3))); var v9 := Half(Half(Half(v6)));
    var v12 := Half(Half(Half(v9))); var v15 := Half(Half(Half(v12)));
    assert Shift(p, 15) == Shift(v3, 12) == Shift(v6, 9) == Shift(v9, 6) == Shift(v12, 3) == Shift(v15, 0);
    FifteenHalves(p);
  }

  lemma FifteenHalves(p: bv16)
    requires Half(Half(Half(Half(Half(Half(Half(Half(Half(Half(Half(Half(Half(Half(Half(p))))))))))))))) == 0
    ensures p & 0x8000 == 0
  {
  }

  lemma {:induction false} PackUnpack(w: seq<bool>)
    requires |w| <= 16
    ensures LowBits(Pack(w), |w|) == w && Shift(Pack(w), |w|) == 0
    decreases w
  {
    hide Half, Odd, Double, Add;
    if w != [] {
      PackUnpack(w[1..]);
      TopBitClear(Pack(w[1..]), |w| - 1);
      DoubleHalf(Pack(w[1..]), w[0]);
    }
  }

  lemma {:induction false} LowBitsOfZero(n: nat)
    ensures AllFalse(LowBits(0, n))
  {
    if n > 0 {
      LowBitsOfZero(n - 1);
    }
  }

  /** Sixteen bits fed into the zero register come back to zero only if they are all zero. */
  lemma {:induction false} SixteenBits(w: seq<bool>)
    requires |w| == 16 && Feed(0, w) == 0
    ensures AllFalse(w)
  {
    hide Feed, Steps, Shift, LowBits, Pack;
    var v := Pack(w);
    PackUnpack(w);
    FeedLowBits(0, v, 16);
    assert Steps(v, 16) == 0;
    StepsZero(v, 16);
    LowBitsOfZero(16);
  }

  lemma {:induction false} BurstBits(d: seq<bool>, p: nat)
    requires forall i | 0 <= i < |d| && !(p <= i < p + 16) :: !d[i]
    requires Feed(0, d) == 0
    ensures AllFalse(d)
  {
    hide Feed;
    if p < |d| {
      var pad := seq(16, _ => false);
      var e := d + pad;
      FeedConcat(0, d, pad);
      FeedZeros(0, pad);
      var before, window, after := e[..p], e[p..p + 16], e[p + 16..];
      assert e == before + (window + after);
      FeedConcat(0, before, window + after);
      FeedConcat(0, window, after);
      FeedZeros(0, before);
      FeedZeros(Feed(0, window), after);
      SixteenBits(window);
      forall i | p <= i < |d| && i < p + 16 ensures !d[i] {
        assert window[i - p] == e[i] == d[i];
      }
    }
  }

  /** Two buffers of one length that differ at most in the 16 bits from bit `p` on. */
  ghost predicate SameOutside(a: seq<bv8>, b: seq<bv8>, p: nat) {
    |a| == |b| && forall i | 0 <= i < 8 * |a| && !(p <= i < p + 16) :: Bits(a)[i] == Bits(b)[i]
  }

  /** Burst detection: two buffers of one length, of any length, that differ only
      within 16 consecutive bits (least significant bit of each byte first) cannot
      both pass the check unless they are equal. */
  lemma {:induction false} BurstDetected(a: seq<bv8>, b: seq<bv8>, p: nat)
    requires SameOutside(a, b, p) && Passes(a) && Passes(b)
    ensures a == b
  {
    hide Feed, Bits;
    var d := Difference(Bits(a), Bits(b));
    FeedLinear(CRC_16_L_SEED, CRC_16_L_SEED, Bits(a), Bits(b));
    SameRegister(Register(a), Register(b));
    BurstBits(d, p);
    assert forall i | 0 <= i < 8 * |a| :: !d[i];
    assert Bits(a) == Bits(b);
    BitsInjective(a, b);
  }

  lemma SameRegister(x: bv16, y: bv16)
    requires !x == CRC_16_L_OK && !y == CRC_16_L_OK
    ensures x == y && Add(x, y) == 0 && Add(CRC_16_L_SEED, CRC_16_L_SEED) == 0
  {
  }

  // ------------------------------------------------ residue characterisation

  lemma {:induction false} RegisterAppend(msg: seq<bv8>, x: bv8, y: bv8)
    ensures Register(msg + [x, y]) == Feed(Feed(Register(msg), ByteBits(x)), ByteBits(y))
  {
    hide FeedBit, ByteBits;
    BitsConcat(msg, [x, y]);
    assert [x, y][1..] == [y] && [y][1..] == [];
    assert Bits([x, y]) == ByteBits(x) + Bits([y]) && Bits([y]) == ByteBits(y) + [];
    assert Bits([x, y]) == ByteBits(x) + ByteBits(y);
    FeedConcat(CRC_16_L_SEED, Bits(msg), ByteBits(x) + ByteBits(y));
    FeedConcat(Register(msg), ByteBits(x), ByteBits(y));
  }

  /** Feeding the register's own complement, low byte first, always leaves the
      complement of the good check value. */
  lemma OwnBytesLeaveResidue(r: bv16)
    ensures EightSteps(Add(EightSteps(Add(r, LowByte(!r) as bv16)), HighByte(!r) as bv16)) == !CRC_16_L_OK
  {
    hide EightSteps, Add;
    EightStepsSplit(Add(r, LowByte(!r) as bv16));
    OwnLowByte(r);
    TableEntry(0xFF);
    OwnHighByte(r);
    OnesThenOnes();
  }

  lemma OwnLowByte(r: bv16)
    ensures Add(r, LowByte(!r) as bv16) & 0x00ff == 0xff
    ensures Add(r, LowByte(!r) as bv16) >> 8 == r >> 8
  {
  }

  lemma OwnHighByte(r: bv16)
    ensures Add(Add(CrcTable(0xFF), r >> 8), HighByte(!r) as bv16) == CrcTable(0xFF) ^ 0x00ff
  {
    hide CrcTable;
    assert (r >> 8) ^ (!r >> 8) == 0x00ff;
    AddAssociates(CrcTable(0xFF), r >> 8, HighByte(!r) as bv16);
  }

  lemma OnesThenOnes()
    ensures EightSteps(CrcTable(0xFF) ^ 0x00ff) == !CRC_16_L_OK
  {
    hide EightSteps;
    assert CrcTable(0xFF) == 0x0f78;
    EightStepsSplit(0x0f87);
    TableEntry(0x87);
  }

  lemma {:induction false} OwnBytesPass(msg: seq<bv8>)
    ensures Passes(msg + FcsBytes(msg))
  {
    hide *;
    var r := Register(msg);
    var x, y := LowByte(!r), HighByte(!r);
    FcsBytesShape(msg);
    RegisterAppend(msg, x, y);
    FeedByte(r, x);
    FeedByte(Feed(r, ByteBits(x)), y);
    OwnBytesLeaveResidue(r);
    PassesShape(msg + [x, y]);
  }

  lemma {:induction false} FcsBytesShape(msg: seq<bv8>)
    ensures FcsBytes(msg) == [LowByte(!Register(msg)), HighByte(!Register(msg))]
  {
  }

  lemma {:induction false} PassesShape(msg: seq<bv8>)
    requires Register(msg) == !CRC_16_L_OK
    ensures Passes(msg)
  {
    hide Register;
  }

  /** Residue characterisation: the check accepts exactly the buffers whose last two
      bytes are the low-byte-first check sequence of the rest. */
  lemma {:induction false} ResidueCharacterisation(msg: seq<bv8>, tail: seq<bv8>)
    requires |tail| == 2
    ensures Passes(msg + tail) <==> tail == FcsBytes(msg)
  {
    OwnBytesPass(msg);
    if Passes(msg + tail) {
      hide Bits;
      var good := msg + FcsBytes(msg);
      BitsConcat(msg, tail);
      BitsConcat(msg, FcsBytes(msg));
      BurstDetected(msg + tail, good, 8 * |msg|);
      assert tail == (msg + tail)[|msg|..] == good[|msg|..] == FcsBytes(msg);
    }
  }

  // ------------------------------------------------------------- the C code

  /** calculate_crc: `bitLen` counts bits, and only whole bytes are consumed. */
  method CalculateCrc(pBuf: array<bv8>, bitLen: nat) returns (crc: bv16)
    requires bitLen / 8 <= pBuf.Length
    ensures crc == Fcs(pBuf[..bitLen / 8])
  {
    hide TableStep, Feed;
    ghost var msg := pBuf[..bitLen / 8];
    TableFoldRefinesFeed(CRC_16_L_SEED, msg);
    crc := CRC_16_L_SEED;
    var left, p := bitLen, 0;
    while left >= 8
      invariant 8 * p + left == bitLen
      invariant TableFold(crc, msg[p..]) == TableFold(CRC_16_L_SEED, msg)
    {
      assert msg[p] == pBuf[p] && msg[p..][1..] == msg[p + 1..];
      crc := TableStep(crc, pBuf[p]);
      left, p := left - 8, p + 1;
    }
    assert msg[p..] == [];
    crc := !crc;
  }

  /** The number of bytes covered when `length * 8` is passed as an `unsigned long`. */
  function Covered(length: nat): nat {
    length * 8 % ULONG_MODULUS / 8
  }

  lemma CoveredWhole(length: nat)
    ensures Covered(length) == length <==> length < ULONG_MODULUS / 8
  {
  }

  /** set_crc: appends the check sequence in place, low byte first. Unless the bit
      length wraps, the result passes check_crc. */
  method SetCrc(buffer: array<bv8>, length: nat)
    requires length + 2 <= buffer.Length
    modifies buffer
    ensures buffer[..] == old(buffer[..length]) + FcsBytes(old(buffer[..Covered(length)])) + old(buffer[length + 2..])
    ensures Covered(length) == length ==> Passes(buffer[..length + 2])
  {
    hide Fcs, LowByte, HighByte, Passes;
    var crc := CalculateCrc(buffer, length * 8 % ULONG_MODULUS);
    buffer[length] := LowByte(crc);
    buffer[length + 1] := HighByte(crc);
    ghost var msg := old(buffer[..length]);
    if Covered(length) == length {
      OwnBytesPass(msg);
      assert buffer[..length + 2] == msg + FcsBytes(msg);
    }
  }

  /** check_crc, over a message that already carries its check sequence. */
  method CheckCrc(buffer: array<bv8>, length: nat) returns (rc: int)
    requires length <= buffer.Length
    ensures rc == SUCCESS <==> Passes(buffer[..Covered(length)])
    ensures rc == SUCCESS || rc == EFAILED
    ensures 2 <= length && Covered(length) == length ==>
            (rc == SUCCESS <==> buffer[length - 2..length] == FcsBytes(buffer[..length - 2]))
  {
    hide Fcs;
    var crc := CalculateCrc(buffer, length * 8 % ULONG_MODULUS);
    if 2 <= length && Covered(length) == length {
      ResidueCharacterisation(buffer[..length - 2], buffer[length - 2..length]);
      assert buffer[..length] == buffer[..length - 2] + buffer[length - 2..length];
    }
    var check := CRC_16_L_OK;
    if check != crc {
      return EFAILED;
    }
    return SUCCESS;
  }
}
