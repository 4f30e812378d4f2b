/** Octet-stuffed framing of ks/hdlc.c: section 4.2 of RFC 1662, escaping only the
    flag and escape octets. The source holds the encoder; the receiver here is the
    one the RFC describes, taken one octet at a time. */
module Hdlc {
  import opened Crc

  const AHDLC_FLAG: bv8 := 0x7e
  const AHDLC_ESCAPE: bv8 := 0x7d
  const AHDLC_ESC_M: bv8 := 0x20

  // ------------------------------------------------------------ what is sent

  predicate Special(b: bv8) {
    b == AHDLC_FLAG || b == AHDLC_ESCAPE
  }

  function Stuff(b: bv8): seq<bv8> {
    if Special(b) then [AHDLC_ESCAPE, b ^ AHDLC_ESC_M] else [b]
  }

  function StuffAll(s: seq<bv8>): seq<bv8> {
    if s == [] then [] else StuffAll(s[..|s| - 1]) + Stuff(s[|s| - 1])
  }

  function Frame(packet: seq<bv8>): seq<bv8> {
    [AHDLC_FLAG] + StuffAll(packet + FcsBytes(packet)) + [AHDLC_FLAG]
  }

  function Frames(packets: seq<seq<bv8>>): seq<bv8> {
    if packets == [] then [] else Frames(packets[..|packets| - 1]) + Frame(packets[|packets| - 1])
  }

  /** Section 4.2 of RFC 1662 in octets: 0x7e goes out as 0x7d 0x5e, 0x7d as 0x7d 0x5d,
      and every other octet as it is. */
  function Transparent(s: seq<bv8>): seq<bv8> {
    if s == [] then []
    else
      (if s[0] == 0x7e then [0x7d, 0x5e] else if s[0] == 0x7d then [0x7d, 0x5d] else [s[0]]) + Transparent(s[1..])
  }

  lemma {:induction false} StuffAllTransparent(s: seq<bv8>)
    ensures StuffAll(s) == Transparent(s)
    decreases s
  {
    if s != [] {
      StuffAllTransparent(s[1..]);
      StuffAllConcat([s[0]], s[1..]);
      assert [s[0]] + s[1..] == s;
      assert [s[0]][..0] == [] && StuffAll([s[0]]) == Stuff(s[0]);
    }
  }

  /** The octets of a frame, its check sequence stuffed like the rest. */
  lemma {:induction false} FrameOctets(packet: seq<bv8>)
    ensures Frame(packet) == [0x7e] + Transparent(packet + FcsBytes(packet)) + [0x7e]
  {
    hide FcsBytes, StuffAll, Transparent;
    StuffAllTransparent(packet + FcsBytes(packet));
  }

  // -------------------------------------------------------- what is received

  /** A receiver: octets since the last flag, a pending escape, packets delivered. */
  datatype Receiver = Receiver(buffer: seq<bv8>, escaped: bool, delivered: seq<seq<bv8>>)

  const IDLE := Receiver([], false, [])

  /** A closing flag delivers the octets before it if they end in their check
      sequence; a flag right after an escape discards them. */
  function Delivery(rx: Receiver): seq<seq<bv8>> {
    if !rx.escaped && |rx.buffer| >= 2 && Passes(rx.buffer) then [rx.buffer[..|rx.buffer| - 2]] else []
  }

  function ReceiveByte(rx: Receiver, b: bv8): Receiver {
    if b == AHDLC_FLAG then
      Receiver([], false, rx.delivered + Delivery(rx))
    else if rx.escaped then
      rx.(buffer := rx.buffer + [b ^ AHDLC_ESC_M], escaped := false)
    else if b == AHDLC_ESCAPE then
      rx.(escaped := true)
    else
      rx.(buffer := rx.buffer + [b])
  }

  function Receive(rx: Receiver, stream: seq<bv8>): Receiver
    decreases stream
  {
    if stream == [] then rx else ReceiveByte(Receive(rx, stream[..|stream| - 1]), stream[|stream| - 1])
  }

  // ------------------------------------------------------------- round trips

  lemma {:induction false} ReceiveConcat(rx: Receiver, s: seq<bv8>, t: seq<bv8>)
    ensures Receive(rx, s + t) == Receive(Receive(rx, s), t)
    decreases t
  {
    hide ReceiveByte;
    if t == [] {
      assert s + t == s;
    } else {
      var u := s + t;
      assert u[..|u| - 1] == s + t[..|t| - 1] && u[|u| - 1] == t[|t| - 1];
      ReceiveConcat(rx, s, t[..|t| - 1]);
    }
  }

  lemma {:induction false} UnstuffByte(rx: Receiver, b: bv8)
    requires !rx.escaped
    ensures Receive(rx, Stuff(b)) == rx.(buffer := rx.buffer + [b])
  {
    hide Delivery;
    if Special(b) {
      var s := Stuff(b);
      assert s[..1] == [AHDLC_ESCAPE] && s[..1][..0] == [];
      assert Receive(rx, s[..1]) == rx.(escaped := true);
      assert b ^ AHDLC_ESC_M ^ AHDLC_ESC_M == b;
    } else {
      assert Stuff(b)[..0] == [];
    }
  }

  lemma {:induction false} UnstuffAll(rx: Receiver, s: seq<bv8>)
    requires !rx.escaped
    ensures Receive(rx, StuffAll(s)) == rx.(buffer := rx.buffer + s)
    decreases s
  {
    hide Stuff, ReceiveByte;
    if s == [] {
      assert rx.buffer + s == rx.buffer;
    } else {
      var front, last := s[..|s| - 1], s[|s| - 1];
      UnstuffAll(rx, front);
      ReceiveConcat(rx, StuffAll(front), Stuff(last));
      UnstuffByte(Receive(rx, StuffAll(front)), last);
      assert rx.buffer + front + [last] == rx.buffer + s;
    }
  }

  lemma {:induction false} ReceiveFlag(rx: Receiver)
    ensures Receive(rx, [AHDLC_FLAG]) == Receiver([], false, rx.delivered + Delivery(rx))
  {
    hide Delivery;
    assert [AHDLC_FLAG][..0] == [];
  }

  /** Whatever the receiver was doing, one frame makes it deliver the packet, after
      whatever the opening flag closed. */
  lemma {:induction false} FrameReceived(rx: Receiver, packet: seq<bv8>)
    ensures Receive(rx, Frame(packet)) == Receiver([], false, rx.delivered + Delivery(rx) + [packet])
  {
    hide StuffAll, Receive, FcsBytes, Passes;
    var body := packet + FcsBytes(packet);
    ReceiveConcat(rx, [AHDLC_FLAG] + StuffAll(body), [AHDLC_FLAG]);
    ReceiveConcat(rx, [AHDLC_FLAG], StuffAll(body));
    ReceiveFlag(rx);
    var started := Receive(rx, [AHDLC_FLAG]);
    UnstuffAll(started, body);
    assert started.buffer + body == body;
    var filled := Receive(started, StuffAll(body));
    ReceiveFlag(filled);
    OwnBytesPass(packet);
    assert body[..|body| - 2] == packet;
  }

  /** Frame-stream round trip: any list of packets comes back, in order, with nothing
      left in the receiver. */
  lemma {:induction false} StreamRoundTrip(packets: seq<seq<bv8>>)
    ensures Receive(IDLE, Frames(packets)) == Receiver([], false, packets)
    decreases |packets|
  {
    hide Frame, Receive, Passes;
    if packets == [] {
      assert Receive(IDLE, []) == IDLE by { ReceiveNothing(IDLE); }
    } else {
      var front, last := packets[..|packets| - 1], packets[|packets| - 1];
      StreamRoundTrip(front);
      ReceiveConcat(IDLE, Frames(front), Frame(last));
      FrameReceived(Receive(IDLE, Frames(front)), last);
      assert front + [last] == packets;
    }
  }

  lemma {:induction false} ReceiveNothing(rx: Receiver)
    ensures Receive(rx, []) == rx
  {
  }

  /** The concatenated encodings split in only one way. */
  lemma {:induction false} StreamInjective(packets: seq<seq<bv8>>, others: seq<seq<bv8>>)
    requires Frames(packets) == Frames(others)
    ensures packets == others
  {
    hide Frames, Receive;
    StreamRoundTrip(packets);
    StreamRoundTrip(others);
  }

  // -------------------------------------------------------- shape of a frame

  function Escapes(s: seq<bv8>): nat {
    if s == [] then 0 else Escapes(s[..|s| - 1]) + if Special(s[|s| - 1]) then 1 else 0
  }

  lemma {:induction false} StuffAllShape(s: seq<bv8>)
    ensures AHDLC_FLAG !in StuffAll(s)
    ensures |StuffAll(s)| == |s| + Escapes(s) && Escapes(s) <= |s|
  {
    if s != [] {
      StuffAllShape(s[..|s| - 1]);
      StuffHasNoFlag(s[|s| - 1]);
    }
  }

  lemma StuffHasNoFlag(b: bv8)
    ensures AHDLC_FLAG !in Stuff(b)
  {
    assert AHDLC_ESCAPE ^ AHDLC_ESC_M == 0x5d && AHDLC_FLAG ^ AHDLC_ESC_M == 0x5e;
  }

  /** The flag octet occurs only at the two ends, and the length is that of the packet
      and its check sequence, two flags, and one more octet for each escape. */
  lemma {:induction false} FrameShape(packet: seq<bv8>)
    ensures var f, n := Frame(packet), |packet|;
            && f[0] == f[|f| - 1] == AHDLC_FLAG && AHDLC_FLAG !in f[1..|f| - 1]
            && |f| == n + 4 + Escapes(packet + FcsBytes(packet))
            && n + 4 <= |f| <= 2 * n + 6
  {
    hide FcsBytes;
    var body := packet + FcsBytes(packet);
    StuffAllShape(body);
    assert Frame(packet)[1..|Frame(packet)| - 1] == StuffAll(body);
  }

  // -------------------------------------------------------------- the C code

  lemma {:induction false} StuffAllNext(s: seq<bv8>, i: nat)
    requires i < |s|
    ensures StuffAll(s[..i + 1]) == StuffAll(s[..i]) + Stuff(s[i])
    ensures |StuffAll(s[..i + 1])| <= |StuffAll(s)|
  {
    hide Stuff;
    assert s[..i + 1][..i] == s[..i];
    StuffAllGrows(s, i + 1);
  }

  lemma {:induction false} StuffAllGrows(s: seq<bv8>, i: nat)
    requires i <= |s|
    ensures |StuffAll(s[..i])| <= |StuffAll(s)|
    decreases |s| - i
  {
    hide Stuff;
    if i == |s| {
      assert s[..i] == s;
    } else {
      StuffAllGrows(s, i + 1);
      assert s[..i + 1][..i] == s[..i];
    }
  }

  /** `contents` is what `before` becomes when `out` is written over its front. */
  ghost predicate Overlaid(contents: seq<bv8>, before: seq<bv8>, out: seq<bv8>) {
    |out| <= |before| && contents == out + before[|out|..]
  }

  /** hdlc_encode: fills the front of `encodedBuffer` with the frame and leaves the rest alone. */
  method HdlcEncode(packet: array<bv8>, writeSize: nat, encodedBuffer: array<bv8>) returns (size: nat)
    requires writeSize < 0x1_0000 && writeSize <= packet.Length && packet != encodedBuffer
    requires |Frame(packet[..writeSize])| <= encodedBuffer.Length
    modifies encodedBuffer
    ensures size == |Frame(packet[..writeSize])|
    ensures encodedBuffer[..] == Frame(packet[..writeSize]) + old(encodedBuffer[size..])
  {
    hide *;
    ghost var before, data := encodedBuffer[..], packet[..writeSize];
    FrameParts(data);
    var crc := CalculateCrc(packet, writeSize * 8);

    var encodeIndex := 0;
    OverlaidIs(before, before, []);
    encodeIndex := PutOctet(encodedBuffer, encodeIndex, AHDLC_FLAG, before, []);
    ghost var out := [] + [AHDLC_FLAG];
    encodeIndex := StuffPacket(packet, writeSize, encodedBuffer, encodeIndex, before, out);
    out := out + StuffAll(data);
    encodeIndex := StuffCrc(crc, data, encodedBuffer, encodeIndex, before, out);
    out := out + StuffAll(FcsBytes(data));
    encodeIndex := PutOctet(encodedBuffer, encodeIndex, AHDLC_FLAG, before, out);
    OverlaidIs(encodedBuffer[..], before, out + [AHDLC_FLAG]);
    return encodeIndex;
  }

  lemma {:induction false} FrameParts(packet: seq<bv8>)
    ensures Frame(packet) == [] + [AHDLC_FLAG] + StuffAll(packet) + StuffAll(FcsBytes(packet)) + [AHDLC_FLAG]
  {
    hide StuffAll, FcsBytes;
    StuffAllConcat(packet, FcsBytes(packet));
  }

  /** The data loop of hdlc_encode. */
  method StuffPacket(packet: array<bv8>, writeSize: nat, encodedBuffer: array<bv8>, at: nat,
                     ghost before: seq<bv8>, ghost out: seq<bv8>)
    returns (encodeIndex: nat)
    requires writeSize <= packet.Length && packet != encodedBuffer
    requires at == |out| && |out + StuffAll(packet[..writeSize])| <= encodedBuffer.Length == |before|
    requires Overlaid(encodedBuffer[..], before, out)
    modifies encodedBuffer
    ensures encodeIndex == |out + StuffAll(packet[..writeSize])|
    ensures Overlaid(encodedBuffer[..], before, out + StuffAll(packet[..writeSize]))
  {
    hide Stuff, Overlaid;
    ghost var data := packet[..writeSize];
    var decodeIndex := 0;
    encodeIndex := at;
    assert out + StuffAll(data[..0]) == out;
    while decodeIndex < writeSize
      invariant decodeIndex <= writeSize
      invariant encodeIndex == |out + StuffAll(data[..decodeIndex])|
      invariant Overlaid(encodedBuffer[..], before, out + StuffAll(data[..decodeIndex]))
    {
      StuffAllNext(data, decodeIndex);
      ghost var soFar := out + StuffAll(data[..decodeIndex]);
      encodeIndex := PutStuffed(encodedBuffer, encodeIndex, packet[decodeIndex], before, soFar);
      decodeIndex := decodeIndex + 1;
      assert soFar + Stuff(data[decodeIndex - 1]) == out + StuffAll(data[..decodeIndex]);
    }
    assert data[..writeSize] == data;
  }

  /** The loop of hdlc_encode over the two check-sequence bytes, low byte first. */
  method StuffCrc(crc: bv16, ghost data: seq<bv8>, encodedBuffer: array<bv8>, at: nat,
                  ghost before: seq<bv8>, ghost out: seq<bv8>)
    returns (encodeIndex: nat)
    requires crc == Fcs(data)
    requires at == |out| && |out + StuffAll(FcsBytes(data))| <= encodedBuffer.Length == |before|
    requires Overlaid(encodedBuffer[..], before, out)
    modifies encodedBuffer
    ensures encodeIndex == |out + StuffAll(FcsBytes(data))|
    ensures Overlaid(encodedBuffer[..], before, out + StuffAll(FcsBytes(data)))
  {
    hide Stuff, Overlaid, Fcs, LowByte, HighByte;
    var byteOrderedCrc := [LowByte(crc), HighByte(crc)];
    assert byteOrderedCrc == FcsBytes(data);
    var c := 0;
    encodeIndex := at;
    assert out + StuffAll(byteOrderedCrc[..0]) == out;
    while c < 2
      invariant c <= 2
      invariant encodeIndex == |out + StuffAll(byteOrderedCrc[..c])|
      invariant Overlaid(encodedBuffer[..], before, out + StuffAll(byteOrderedCrc[..c]))
    {
      StuffAllNext(byteOrderedCrc, c);
      ghost var soFar := out + StuffAll(byteOrderedCrc[..c]);
      encodeIndex := PutStuffed(encodedBuffer, encodeIndex, byteOrderedCrc[c], before, soFar);
      c := c + 1;
      assert soFar + Stuff(byteOrderedCrc[c - 1]) == out + StuffAll(byteOrderedCrc[..c]);
    }
    assert byteOrderedCrc[..2] == byteOrderedCrc;
  }

  lemma {:induction false} StuffAllConcat(s: seq<bv8>, t: seq<bv8>)
    ensures StuffAll(s + t) == StuffAll(s) + StuffAll(t)
    decreases t
  {
    hide Stuff;
    if t == [] {
      assert s + t == s && StuffAll(s) + StuffAll(t) == StuffAll(s);
    } else {
      var u, front := s + t, t[..|t| - 1];
      assert u[..|u| - 1] == s + front && u[|u| - 1] == t[|t| - 1];
      StuffAllConcat(s, front);
      assert StuffAll(u) == StuffAll(s) + (StuffAll(front) + Stuff(t[|t| - 1]));
    }
  }

  lemma {:induction false} OverlaidIs(contents: seq<bv8>, before: seq<bv8>, out: seq<bv8>)
    ensures Overlaid(contents, before, out) <==> |out| <= |before| && contents == out + before[|out|..]
  {
  }

  method PutOctet(encodedBuffer: array<bv8>, at: nat, octet: bv8, ghost before: seq<bv8>, ghost out: seq<bv8>)
    returns (next: nat)
    requires at == |out| < encodedBuffer.Length == |before|
    requires Overlaid(encodedBuffer[..], before, out)
    modifies encodedBuffer
    ensures next == at + 1 && Overlaid(encodedBuffer[..], before, out + [octet])
  {
    encodedBuffer[at] := octet;
    next := at + 1;
  }

  /** The body shared by the encoder's two loops: one octet, escaped when necessary. */
  method PutStuffed(encodedBuffer: array<bv8>, at: nat, octet: bv8, ghost before: seq<bv8>, ghost out: seq<bv8>)
    returns (next: nat)
    requires at == |out| && |out + Stuff(octet)| <= encodedBuffer.Length == |before|
    requires Overlaid(encodedBuffer[..], before, out)
    modifies encodedBuffer
    ensures next == |out + Stuff(octet)| && Overlaid(encodedBuffer[..], before, out + Stuff(octet))
  {
    var value := octet;
    next := at;
    if value == AHDLC_FLAG || value == AHDLC_ESCAPE {
      value := value ^ AHDLC_ESC_M;
      encodedBuffer[next] := AHDLC_ESCAPE;
      next := next + 1;
    }
    encodedBuffer[next] := value;
    next := next + 1;
  }
}
