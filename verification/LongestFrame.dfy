/** How long a WRITE frame can get, against the buffer that upload_dbl_image allocates for
    it (ks/dload_protocol.c:298): a bound that is attained, and an image whose first frame
    is already too long. */
module LongestFrame {
  import opened Bytes
  import opened Crc
  import opened Hdlc
  import opened EscapeCount
  import opened Dload

  const LONGEST_WRITE_FRAME := 3089

  // ----------------------------------------------------------------- the bound

  /** A number below 125 is no octet that needs escaping. */
  lemma PlainByte(n: int)
    requires 0 <= n < 125
    ensures !Special(ToByte(n))
  {
    hide ToByte;
    ByteRoundTrip(n);
  }

  /** The seven octets before the data: the command never needs escaping, nor does the high
      byte of the size, nor, in a full record, the low one. */
  lemma {:induction false} HeaderEscapes(address: int, size: nat)
    requires size <= WRITE_SIZE_THRESHOLD
    ensures var header := [WRITE_CMD32] + Be32(address) + Be16(size);
            Escapes(header) <= if size == WRITE_SIZE_THRESHOLD then 4 else 5
  {
    hide ToByte, Escapes, Be32;
    var high, low := ToByte(size / 256 % 256), ToByte(size % 256);
    EscapesConcat([WRITE_CMD32] + Be32(address), Be16(size));
    EscapesConcat([WRITE_CMD32], Be32(address));
    EscapesOfOne(WRITE_CMD32);
    EscapesAtMost(Be32(address));
    assert Be16(size) == [high] + [low];
    EscapesConcat([high], [low]);
    EscapesOfOne(high);
    EscapesOfOne(low);
    PlainByte(size / 256 % 256);
    if size == WRITE_SIZE_THRESHOLD {
      PlainByte(0);
    }
  }

  /** No WRITE frame of an upload is longer than 3089 octets. */
  lemma {:induction false} WriteFrameBound(address: int, data: seq<bv8>)
    requires |data| <= WRITE_SIZE_THRESHOLD
    ensures |Frame(WritePacket(address, data))| <= LONGEST_WRITE_FRAME
  {
    hide Frame, Escapes, FcsBytes, Be32, Be16;
    var p := WritePacket(address, data);
    var header := [WRITE_CMD32] + Be32(address) + Be16(|data|);
    FrameShape(p);
    EscapesConcat(p, FcsBytes(p));
    EscapesConcat(header, data);
    HeaderEscapes(address, |data|);
    EscapesAtMost(data);
    EscapesAtMost(FcsBytes(p));
  }

  // ------------------------------------------------------------ it is attained

  function Flags(n: nat): (s: seq<bv8>)
    ensures |s| == n
  {
    if n == 0 then [] else [AHDLC_FLAG] + Flags(n - 1)
  }

  lemma {:induction false} FlagsEscape(n: nat)
    ensures Escapes(Flags(n)) == n
  {
    if n > 0 {
      FlagsEscape(n - 1);
      EscapesConcat([AHDLC_FLAG], Flags(n - 1));
      EscapesOfOne(AHDLC_FLAG);
    }
  }

  /** A register that a flag octet leaves as it is. */
  const STILL: bv16 := 0xbf64

  lemma StillFlag()
    ensures TableStep(STILL, AHDLC_FLAG) == STILL
  {
  }

  lemma {:induction false} StillFlags(n: nat)
    ensures TableFold(STILL, Flags(n)) == STILL
  {
    hide TableStep;
    if n > 0 {
      StillFlag();
      FoldOne(STILL, AHDLC_FLAG, Flags(n - 1));
      StillFlags(n - 1);
    }
  }

  const HEADER: seq<bv8> := [0x0f, 0x7d, 0x7e, 0x7e, 0x7d, 0x06, 0x00]
  const LEAD: seq<bv8> := [0x7d, 0x7e, 0x7e, 0x7e, 0x7e, 0x7d, 0x7d, 0x7d, 0x7e, 0x7e, 0x7d]
  const TAIL: seq<bv8> := [0x7d, 0x7e, 0x7e, 0x7e, 0x7e, 0x7d]

  /** Data in which every octet needs escaping, and so do both octets of the check sequence. */
  function LongestData(): (s: seq<bv8>)
    ensures |s| == WRITE_SIZE_THRESHOLD
  {
    LEAD + Flags(WRITE_SIZE_THRESHOLD - 17) + TAIL
  }

  lemma HeaderSteps()
    ensures TableStep(0xffff, 0x0f) == 0xf770 && TableStep(0xf770, 0x7d) == 0xdb12
    ensures TableStep(0xdb12, 0x7e) == 0xa9b1 && TableStep(0xa9b1, 0x7e) == 0x3e52
    ensures TableStep(0x3e52, 0x7d) == 0xd9cb && TableStep(0xd9cb, 0x06) == 0x1d30
    ensures TableStep(0x1d30, 0x00) == 0x319e
  {
  }

  lemma LeadSteps()
    ensures TableStep(0x319e, 0x7d) == 0xd5a4 && TableStep(0xd5a4, 0x7e) == 0x7902
    ensures TableStep(0x7902, 0x7e) == 0xb992 && TableStep(0xb992, 0x7e) == 0x2ddb
    ensures TableStep(0x2ddb, 0x7e) == 0xf28a && TableStep(0xf28a, 0x7d) == 0x83c2
  {
  }

  lemma MoreLeadSteps()
    ensures TableStep(0x83c2, 0x7d) == 0x4dff && TableStep(0x4dff, 0x7d) == 0xa757
    ensures TableStep(0xa757, 0x7e) == 0xbc64 && TableStep(0xbc64, 0x7e) == 0xbf67
    ensures TableStep(0xbf67, 0x7d) == STILL
  {
  }

  lemma TailSteps()
    ensures TableStep(STILL, 0x7d) == 0x8dff && TableStep(0x8dff, 0x7e) == 0x950c
    ensures TableStep(0x950c, 0x7e) == 0x5000 && TableStep(0x5000, 0x7e) == 0x9aa9
    ensures TableStep(0x9aa9, 0x7e) == 0xa2a8 && TableStep(0xa2a8, 0x7d) == 0x8182
  {
  }

  lemma HeaderFolds()
    ensures TableFold(CRC_16_L_SEED, HEADER) == 0x319e
  {
    hide TableStep, TableFold;
    HeaderSteps();
    PathFolds([0xffff, 0xf770, 0xdb12, 0xa9b1, 0x3e52, 0xd9cb, 0x1d30, 0x319e], HEADER);
  }

  lemma LeadFolds()
    ensures TableFold(0x319e, LEAD) == STILL
  {
    hide TableStep, TableFold;
    LeadSteps();
    MoreLeadSteps();
    PathFolds([0x319e, 0xd5a4, 0x7902, 0xb992, 0x2ddb, 0xf28a, 0x83c2, 0x4dff, 0xa757, 0xbc64, 0xbf67, STILL], LEAD);
  }

  lemma TailFolds()
    ensures TableFold(STILL, TAIL) == 0x8182
  {
    hide TableStep, TableFold;
    TailSteps();
    PathFolds([STILL, 0x8dff, 0x950c, 0x5000, 0x9aa9, 0xa2a8, 0x8182], TAIL);
  }

  lemma ByteSix()
    ensures ToByte(6) == 6 && ToByte(0) == 0
  {
  }

  lemma ByteEscape()
    ensures ToByte(0x7d) == 0x7d
  {
  }

  lemma ByteFlag()
    ensures ToByte(0x7e) == 0x7e
  {
  }

  lemma LongestHeader()
    ensures [WRITE_CMD32] + Be32(0x7D7E7E7D) + Be16(WRITE_SIZE_THRESHOLD) == HEADER
  {
    hide ToByte;
    ByteSix();
    ByteEscape();
    ByteFlag();
  }

  lemma LongestFcs()
    ensures FcsBytes(WritePacket(0x7D7E7E7D, LongestData())) == [0x7d, 0x7e]
  {
    hide TableFold, Feed, Bits, Be32, Be16, Flags;
    var flags := Flags(WRITE_SIZE_THRESHOLD - 17);
    LongestHeader();
    var p := WritePacket(0x7D7E7E7D, LongestData());
    assert p == HEADER + (LEAD + (flags + TAIL));
    FoldConcat(CRC_16_L_SEED, HEADER, LEAD + (flags + TAIL));
    FoldConcat(0x319e, LEAD, flags + TAIL);
    FoldConcat(STILL, flags, TAIL);
    HeaderFolds();
    LeadFolds();
    StillFlags(WRITE_SIZE_THRESHOLD - 17);
    TailFolds();
    TableFoldRefinesFeed(CRC_16_L_SEED, p);
    assert Register(p) == 0x8182;
  }

  lemma ConstantEscapes()
    ensures Escapes(HEADER) == 4 && Escapes(LEAD) == 11 && Escapes(TAIL) == 6 && Escapes([0x7d, 0x7e]) == 2
  {
    hide Escapes;
    NoEscapes();
    CountEscapes(HEADER, [0, 0, 1, 2, 3, 4, 4, 4]);
    CountEscapes(LEAD, [0, 1, 2, 3, 4, 5, 6, 7, 8, 9, 10, 11]);
    CountEscapes(TAIL, [0, 1, 2, 3, 4, 5, 6]);
    CountEscapes([0x7d, 0x7e], [0, 1, 2]);
  }

  /** The bound is the maximum: this frame has 3089 octets. */
  lemma LongestWriteFrame()
    ensures |Frame(WritePacket(0x7D7E7E7D, LongestData()))| == LONGEST_WRITE_FRAME
  {
    hide Frame, Escapes, FcsBytes, Be32, Be16, Flags;
    var flags := Flags(WRITE_SIZE_THRESHOLD - 17);
    var p := WritePacket(0x7D7E7E7D, LongestData());
    LongestHeader();
    LongestFcs();
    ConstantEscapes();
    FrameShape(p);
    EscapesConcat(p, [0x7d, 0x7e]);
    assert p == HEADER + (LEAD + flags + TAIL);
    EscapesConcat(HEADER, LEAD + flags + TAIL);
    EscapesConcat(LEAD + flags, TAIL);
    EscapesConcat(LEAD, flags);
    FlagsEscape(WRITE_SIZE_THRESHOLD - 17);
  }

  // ------------------------------------------------------ an image that overflows

  /** 1536 flag octets: a file that names 0x7E7E7E2E as its load address. */
  lemma {:induction false} FlagsName(stale: seq<bv8>)
    requires |stale| == HeaderSize(false)
    ensures LoadAddress(Flags(WRITE_SIZE_THRESHOLD), stale, false) == 0x7E7E7E2E
  {
    hide Le32, Flags;
    FlagsAreFlags(WRITE_SIZE_THRESHOLD);
    LeFlags();
    assert Flags(WRITE_SIZE_THRESHOLD)[24..28] == Le32(0x7E7E7E7E);
    LoadAddressNamed(Flags(WRITE_SIZE_THRESHOLD), stale, false, 0x7E7E7E7E);
  }

  lemma LeFlags()
    ensures Le32(0x7E7E7E7E) == [0x7e, 0x7e, 0x7e, 0x7e]
  {
    hide ToByte;
    ByteFlag();
  }

  lemma {:induction false} FlagsAreFlags(n: nat)
    ensures forall i | 0 <= i < n :: Flags(n)[i] == AHDLC_FLAG
  {
    if n > 0 {
      FlagsAreFlags(n - 1);
    }
  }

  lemma ThreeFlags()
    ensures Be32(0x7E7E7E2E) == [0x7e, 0x7e, 0x7e] + [ToByte(0x2e)]
  {
    hide ToByte;
    ByteFlag();
  }

  /** Its only WRITE frame is longer than the buffer allocated for it, by at least three. */
  lemma {:induction false} FlagsOverflow(stale: seq<bv8>)
    requires |stale| == HeaderSize(false)
    ensures var image := Flags(WRITE_SIZE_THRESHOLD);
            var execAddress := LoadAddress(image, stale, false);
            var packets := WritePackets(image, execAddress, 0);
            && packets == [WritePacket(0x7E7E7E2E, image)]
            && |Frame(packets[0])| >= ENCODED_WRITE_SIZE + 3
            && !FramesFit(image, execAddress)
  {
    hide Frame, Escapes, FcsBytes, Be32, Be16, Flags, LoadAddress, ToByte;
    var image := Flags(WRITE_SIZE_THRESHOLD);
    FlagsName(stale);
    assert image[0..WRITE_SIZE_THRESHOLD] == image;
    var p := WritePacket(0x7E7E7E2E, image);
    assert WritePackets(image, 0x7E7E7E2E, 0) == [p];
    FrameShape(p);
    EscapesConcat(p, FcsBytes(p));
    EscapesConcat([WRITE_CMD32] + Be32(0x7E7E7E2E) + Be16(WRITE_SIZE_THRESHOLD), image);
    EscapesConcat([WRITE_CMD32] + Be32(0x7E7E7E2E), Be16(WRITE_SIZE_THRESHOLD));
    EscapesConcat([WRITE_CMD32], Be32(0x7E7E7E2E));
    ThreeFlags();
    EscapesConcat([0x7e, 0x7e, 0x7e], [ToByte(0x2e)]);
    NoEscapes();
    CountEscapes([0x7e, 0x7e, 0x7e], [0, 1, 2, 3]);
    FlagsEscape(WRITE_SIZE_THRESHOLD);
  }
}
