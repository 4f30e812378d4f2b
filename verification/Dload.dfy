/** The DMSS download of ks/dload_protocol.c: an image cut into WRITE packets, each
    framed, sent and acknowledged before the next, then GO. The target is the RFC 1662
    receiver of module Hdlc followed by a loader that applies WRITE and GO. */
module Dload {
  import opened Options
  import opened Bytes
  import opened Crc
  import opened Hdlc
  import opened EscapeCount
  import opened Comm
  import opened Numbers

  const WRITE_SIZE_THRESHOLD := 1536
  const WRITE_HEADER := 7
  const MAX_DMPACKET := 4096
  const RX_BUFFER_SIZE := 512
  const WRITE_CMD32: bv8 := 15
  const GO_CMD: bv8 := 5
  const ACK: bv8 := 2

  // ------------------------------------------------------------- the packets

  function WritePacket(address: int, data: seq<bv8>): seq<bv8> {
    [WRITE_CMD32] + Be32(address) + Be16(|data|) + data
  }

  function GoPacket(address: int): seq<bv8> {
    [GO_CMD] + Be16(address / 0x1_0000) + Be16(address % 0x1_0000)
  }

  /** The size of the next chunk when `written` bytes of the image have been sent. */
  function ChunkSize(image: seq<bv8>, written: nat): (n: nat)
    requires written <= |image|
    ensures n <= WRITE_SIZE_THRESHOLD && written + n <= |image|
  {
    Min(WRITE_SIZE_THRESHOLD, |image| - written)
  }

  /** The WRITE packets still to come. The loop is a do-while, so an empty image still
      sends one packet with no data. */
  function WritePackets(image: seq<bv8>, execAddress: nat, written: nat): seq<seq<bv8>>
    requires written <= |image|
    decreases |image| - written
  {
    var n := ChunkSize(image, written);
    [WritePacket((execAddress + written) % ADDRESS_SPACE, image[written..written + n])] +
    if 0 < n && written + n < |image| then WritePackets(image, execAddress, written + n) else []
  }

  function AllPackets(image: seq<bv8>, execAddress: nat): seq<seq<bv8>> {
    WritePackets(image, execAddress, 0) + [GoPacket(execAddress)]
  }

  /** The records of an image: packet `k` carries the bytes from 1536 k on, 1536 of them unless
      it is the last; there are as many as it takes, and one for an empty image. */
  lemma {:induction false} RecordAt(image: seq<bv8>, execAddress: nat, w: nat, k: nat)
    requires w <= |image|
    ensures |WritePackets(image, execAddress, w)| == Max(1, (|image| - w + 1535) / 1536)
    ensures var at := w + 1536 * k;
            at < |image| || at == |image| == 0 ==>
              k < |WritePackets(image, execAddress, w)| &&
              WritePackets(image, execAddress, w)[k] ==
              WritePacket((execAddress + at) % 0x1_0000_0000, image[at..Min(at + 1536, |image|)])
    decreases |image| - w
  {
    hide WritePacket;
    var n := ChunkSize(image, w);
    if 0 < n && w + n < |image| {
      RecordAt(image, execAddress, w + n, Max(k - 1, 0));
    }
  }

  /** The first octets of the packets, and their lengths. */
  lemma {:induction false} PacketHeads(address: int, data: seq<bv8>)
    ensures WritePacket(address, data)[0] == 0x0f && |WritePacket(address, data)| == 7 + |data|
    ensures GoPacket(address)[0] == 0x05 && |GoPacket(address)| == 5
  {
  }

  function FrameEach(packets: seq<seq<bv8>>): seq<seq<bv8>> {
    if packets == [] then [] else [Frame(packets[0])] + FrameEach(packets[1..])
  }

  // --------------------------------------------------------------- the target

  /** The loader of the target: memory by 32-bit address, and where GO sent it. */
  datatype Loader = Loader(memory: int -> bv8, entry: Option<int>)

  function Offset(x: int, base: int): int {
    (x - base) % ADDRESS_SPACE
  }

  /** Memory at `x` once `data` has been stored from `base` on, wrapping at 32 bits. */
  function Stored(memory: int -> bv8, base: int, data: seq<bv8>, x: int): bv8 {
    if Offset(x, base) < |data| then data[Offset(x, base)] else memory(x)
  }

  predicate IsWrite(p: seq<bv8>) {
    |p| >= WRITE_HEADER && p[0] == WRITE_CMD32 && FromBe(p[5..7]) == |p| - WRITE_HEADER
  }

  predicate IsGo(p: seq<bv8>) {
    |p| == 5 && p[0] == GO_CMD
  }

  function Apply(l: Loader, p: seq<bv8>): Loader {
    if IsWrite(p) then
      var memory, base, data := l.memory, FromBe(p[1..5]), p[7..];
      l.(memory := x => Stored(memory, base, data, x))
    else if IsGo(p) then
      l.(entry := Some(FromBe(p[1..3]) * 0x1_0000 + FromBe(p[3..5])))
    else l
  }

  function ApplyAll(l: Loader, packets: seq<seq<bv8>>): Loader {
    if packets == [] then l else Apply(ApplyAll(l, packets[..|packets| - 1]), packets[|packets| - 1])
  }

  lemma {:induction false} ApplyWrite(l: Loader, address: nat, data: seq<bv8>)
    requires address < ADDRESS_SPACE && |data| < 0x1_0000
    ensures var l' := Apply(l, WritePacket(address, data));
            l'.entry == l.entry && forall x :: l'.memory(x) == Stored(l.memory, address, data, x)
  {
    hide Be16, Be32, FromBe, Stored;
    var p := WritePacket(address, data);
    assert p[1..5] == Be32(address) && p[5..7] == Be16(|data|) && p[7..] == data;
    Be32RoundTrip(address);
    Be16RoundTrip(|data|);
  }

  lemma {:induction false} ApplyGo(l: Loader, address: nat)
    requires address < ADDRESS_SPACE
    ensures Apply(l, GoPacket(address)) == l.(entry := Some(address))
  {
    hide Be16, FromBe;
    var p := GoPacket(address);
    assert p[1..3] == Be16(address / 0x1_0000) && p[3..5] == Be16(address % 0x1_0000);
    Be16RoundTrip(address / 0x1_0000);
    Be16RoundTrip(address % 0x1_0000);
  }

  lemma {:induction false} ApplyAllConcat(l: Loader, a: seq<seq<bv8>>, b: seq<seq<bv8>>)
    ensures ApplyAll(l, a + b) == ApplyAll(ApplyAll(l, a), b)
    decreases b
  {
    hide Apply;
    if b == [] {
      assert a + b == a;
    } else {
      var c := a + b;
      assert c[..|c| - 1] == a + b[..|b| - 1] && c[|c| - 1] == b[|b| - 1];
      ApplyAllConcat(l, a, b[..|b| - 1]);
    }
  }

  lemma {:induction false} ApplyOne(l: Loader, p: seq<bv8>)
    ensures ApplyAll(l, [p]) == Apply(l, p)
  {
    assert [p][..0] == [];
  }

  lemma OffsetShift(x: int, base: int, w: int)
    ensures Offset(x, (base + w) % ADDRESS_SPACE) == (Offset(x, base) - w) % ADDRESS_SPACE
  {
  }

  /** One more chunk extends what memory holds by exactly that chunk. */
  lemma {:induction false} ChunkExtends(before: int -> bv8, memory: int -> bv8, execAddress: nat, image: seq<bv8>,
                                              w: nat, n: nat, x: int)
    requires w + n <= |image| <= ADDRESS_SPACE
    requires memory(x) == Stored(before, execAddress, image[..w], x)
    ensures Stored(memory, (execAddress + w) % ADDRESS_SPACE, image[w..w + n], x)
         == Stored(before, execAddress, image[..w + n], x)
  {
    var o := Offset(x, execAddress);
    OffsetShift(x, execAddress, w);
    if o < w {
      assert (o - w) % ADDRESS_SPACE == o - w + ADDRESS_SPACE;
    } else {
      assert (o - w) % ADDRESS_SPACE == o - w;
    }
  }

  lemma {:induction false} WritesLoad(l: Loader, before: int -> bv8, image: seq<bv8>, execAddress: nat, w: nat)
    requires w <= |image| <= ADDRESS_SPACE
    requires forall x :: l.memory(x) == Stored(before, execAddress, image[..w], x)
    ensures var l' := ApplyAll(l, WritePackets(image, execAddress, w));
            l'.entry == l.entry && forall x :: l'.memory(x) == Stored(before, execAddress, image, x)
    decreases |image| - w
  {
    hide Apply, Stored, WritePacket;
    var n := ChunkSize(image, w);
    var address, chunk := (execAddress + w) % ADDRESS_SPACE, image[w..w + n];
    var p := WritePacket(address, chunk);
    var l1 := Apply(l, p);
    ApplyWrite(l, address, chunk);
    forall x ensures l1.memory(x) == Stored(before, execAddress, image[..w + n], x) {
      ChunkExtends(before, l.memory, execAddress, image, w, n, x);
    }
    ApplyOne(l, p);
    if 0 < n && w + n < |image| {
      WritesLoad(l1, before, image, execAddress, w + n);
      ApplyAllConcat(l, [p], WritePackets(image, execAddress, w + n));
    } else {
      assert image[..w + n] == image;
      assert WritePackets(image, execAddress, w) == [p];
    }
  }

  // -------------------------------------------------------- through the wire

  /** A receiver whose next flag will close nothing that the loader would obey. */
  predicate Quiet(rx: Receiver) {
    forall p | p in Delivery(rx) :: |p| < 5
  }

  lemma {:induction false} ReceiveZeros(rx: Receiver, n: nat)
    requires !rx.escaped
    ensures Receive(rx, Zeros(n)) == rx.(buffer := rx.buffer + Zeros(n))
    decreases n
  {
    var z := Zeros(n);
    if n == 0 {
      assert z == [] && rx.buffer + z == rx.buffer;
    } else {
      hide Delivery;
      assert z[..n - 1] == Zeros(n - 1) && rx.buffer + Zeros(n - 1) + [0] == rx.buffer + z;
      ReceiveZeros(rx, n - 1);
    }
  }

  /** A frame and its transport padding: the packet is delivered and at most three
      zero octets stay behind. */
  lemma {:induction false} PaddedFrameReceived(rx: Receiver, packet: seq<bv8>, usingSdio: bool)
    ensures var z := Zeros(Padding(|Frame(packet)|, usingSdio));
            Receive(rx, Padded(Frame(packet), usingSdio)) ==
            Receiver(z, false, rx.delivered + Delivery(rx) + [packet])
    ensures Quiet(Receive(rx, Padded(Frame(packet), usingSdio)))
  {
    hide Receive, Frame, Delivery;
    var z := Zeros(Padding(|Frame(packet)|, usingSdio));
    ReceiveConcat(rx, Frame(packet), z);
    FrameReceived(rx, packet);
    ReceiveZeros(Receive(rx, Frame(packet)), |z|);
    var rx' := Receive(rx, Padded(Frame(packet), usingSdio));
    assert [] + z == z;
    ShortBufferIsQuiet(rx');
  }

  lemma {:induction false} ShortBufferIsQuiet(rx: Receiver)
    requires |rx.buffer| < 7
    ensures Quiet(rx)
  {
    hide Passes;
  }

  lemma {:induction false} ApplyIgnored(l: Loader, rx: Receiver)
    requires Quiet(rx)
    ensures ApplyAll(l, Delivery(rx)) == l
  {
    hide Passes;
    if Delivery(rx) != [] {
      ApplyOne(l, Delivery(rx)[0]);
      assert Delivery(rx) == [Delivery(rx)[0]];
    }
  }

  /** Whatever the receiver has heard, the loader obeys exactly the packets framed. */
  lemma {:induction false} WireLoads(l: Loader, rx: Receiver, packets: seq<seq<bv8>>, usingSdio: bool)
    requires Quiet(rx)
    ensures var rx' := Receive(rx, Wire(FrameEach(packets), usingSdio));
            Quiet(rx') && ApplyAll(l, rx'.delivered) == ApplyAll(ApplyAll(l, rx.delivered), packets)
    decreases packets
  {
    hide Receive, Frame, Delivery, Padded, Quiet, Apply;
    if packets == [] {
      ReceiveNothing(rx);
    } else {
      var p := packets[0];
      var rx1 := Receive(rx, Padded(Frame(p), usingSdio));
      PaddedFrameReceived(rx, p, usingSdio);
      WireLoads(l, rx1, packets[1..], usingSdio);
      ReceiveConcat(rx, Padded(Frame(p), usingSdio), Wire(FrameEach(packets[1..]), usingSdio));
      assert FrameEach(packets)[0] == Frame(p) && FrameEach(packets)[1..] == FrameEach(packets[1..]);
      ApplyAllConcat(l, rx.delivered + Delivery(rx), [p]);
      ApplyAllConcat(l, rx.delivered, Delivery(rx));
      ApplyIgnored(ApplyAll(l, rx.delivered), rx);
      assert [p] + packets[1..] == packets;
      ApplyAllConcat(ApplyAll(l, rx.delivered), [p], packets[1..]);
    }
  }

  /** What a download must achieve at a target with receiver `rx` and loader `l`: memory
      from execAddress on holds exactly the image, every other address is untouched,
      and GO has named execAddress. */
  ghost predicate Loads(l: Loader, rx: Receiver, bytes: seq<bv8>, image: seq<bv8>, execAddress: nat) {
    var before, after := ApplyAll(l, rx.delivered), ApplyAll(l, Receive(rx, bytes).delivered);
    && after.entry == Some(execAddress)
    && (forall i | 0 <= i < |image| :: after.memory((execAddress + i) % ADDRESS_SPACE) == image[i])
    && (forall x | Offset(x, execAddress) >= |image| :: after.memory(x) == before.memory(x))
  }

  /** End-to-end download: the bytes of a successful upload load the image. This holds
      for every image that fits a 32-bit length, every address, either transport, and
      whatever the target was doing before, provided no valid frame was half received. */
  lemma {:induction false} EndToEnd(l: Loader, rx: Receiver, image: seq<bv8>, execAddress: nat, usingSdio: bool)
    requires |image| < ADDRESS_SPACE && execAddress < ADDRESS_SPACE && Quiet(rx)
    ensures Loads(l, rx, Wire(FrameEach(AllPackets(image, execAddress)), usingSdio), image, execAddress)
  {
    hide Receive, Quiet, ApplyAll, WritePackets, GoPacket;
    var before := ApplyAll(l, rx.delivered);
    WireLoads(l, rx, AllPackets(image, execAddress), usingSdio);
    ApplyAllConcat(before, WritePackets(image, execAddress, 0), [GoPacket(execAddress)]);
    WritesLoad(before, before.memory, image, execAddress, 0);
    var loaded := ApplyAll(before, WritePackets(image, execAddress, 0));
    ApplyOne(loaded, GoPacket(execAddress));
    ApplyGo(loaded, execAddress);
    forall i | 0 <= i < |image|
      ensures Stored(before.memory, execAddress, image, (execAddress + i) % ADDRESS_SPACE) == image[i]
    {
      assert Offset((execAddress + i) % ADDRESS_SPACE, execAddress) == i;
    }
  }

  // ---------------------------------------------------------------- the host

  /** One exchange with the target: the results of the writes, what select() returns,
      and what read() delivers, None when it fails. */
  datatype Turn = Turn(writes: seq<int>, selected: int, reply: Option<seq<bv8>>)

  /** The byte the host compares with ACK. A reply shorter than two bytes leaves the
      byte of an earlier reply in place. */
  function AckByte(reply: seq<bv8>, previous: bv8): bv8 {
    if |reply| >= 2 then reply[1] else previous
  }

  function TurnRun(total: nat, turn: Turn, previous: bv8): (nat, Rc, bv8) {
    var (n, rc) := WriteRun(total, 0, turn.writes);
    if rc != Success then (n, rc, previous)
    else if turn.selected <= 0 || turn.reply.None? then (n, Failed, previous)
    else
      var seen := AckByte(turn.reply.value, previous);
      (n, if seen == ACK then Success else Failed, seen)
  }

  function UpTo(s: seq<bv8>, n: nat): seq<bv8> {
    if n <= |s| then s[..n] else s
  }

  /** Sending a list of packets, each only after the one before has been accepted: the
      bytes that reach the wire and the result. */
  function ExchangeRun(packets: seq<seq<bv8>>, turns: seq<Turn>, previous: bv8, usingSdio: bool): (seq<bv8>, Rc)
    decreases packets
  {
    if packets == [] then ([], Success)
    else if turns == [] then ([], Blocked)
    else
      var wire := Padded(Frame(packets[0]), usingSdio);
      var (n, rc, seen) := TurnRun(|wire|, turns[0], previous);
      if rc != Success then (UpTo(wire, n), rc)
      else
        var (rest, r) := ExchangeRun(packets[1..], turns[1..], seen, usingSdio);
        (wire + rest, r)
  }

  /** Success means that every frame went out whole and in order, and that no reply
      that carried a verdict carried anything but ACK. */
  lemma {:induction false} ExchangeSuccess(packets: seq<seq<bv8>>, turns: seq<Turn>, previous: bv8, usingSdio: bool)
    requires ExchangeRun(packets, turns, previous, usingSdio).1 == Success
    ensures ExchangeRun(packets, turns, previous, usingSdio).0 == Wire(FrameEach(packets), usingSdio)
    ensures |packets| <= |turns|
    ensures forall k | 0 <= k < |packets| :: turns[k].reply.Some? &&
              (|turns[k].reply.value| >= 2 ==> turns[k].reply.value[1] == ACK)
    decreases packets
  {
    hide Frame, Padded;
    if packets != [] {
      var wire := Padded(Frame(packets[0]), usingSdio);
      var (n, rc, seen) := TurnRun(|wire|, turns[0], previous);
      ExchangeSuccess(packets[1..], turns[1..], seen, usingSdio);
      assert FrameEach(packets)[0] == Frame(packets[0]) && FrameEach(packets)[1..] == FrameEach(packets[1..]);
      forall k | 0 < k < |packets|
        ensures turns[k].reply.Some? && (|turns[k].reply.value| >= 2 ==> turns[k].reply.value[1] == ACK)
      {
        assert turns[k] == turns[1..][k - 1];
      }
    }
  }

  /** When a list of packets gets across, from what the system calls return alone: every packet
      has its turn, in which the writes take the whole padded frame, select() finds something
      and read() does not fail; a reply of two bytes or more has 2 as its second byte, and if
      the first reply is shorter the buffer already had it there. */
  ghost predicate Accepted(packets: seq<seq<bv8>>, turns: seq<Turn>, previous: bv8, usingSdio: bool) {
    && |packets| <= |turns|
    && (forall k | 0 <= k < |packets| ::
          && Taken(turns[k].writes) >= |Padded(Frame(packets[k]), usingSdio)|
          && turns[k].selected > 0 && turns[k].reply.Some?
          && (|turns[k].reply.value| >= 2 ==> turns[k].reply.value[1] == 2))
    && (packets != [] && |turns[0].reply.value| < 2 ==> previous == 2)
  }

  lemma {:induction false} ExchangeSucceedsIff(packets: seq<seq<bv8>>, turns: seq<Turn>, previous: bv8, usingSdio: bool)
    ensures ExchangeRun(packets, turns, previous, usingSdio).1 == Success <==> Accepted(packets, turns, previous, usingSdio)
    decreases packets
  {
    hide Frame, Padded, WriteRun, Taken, Accepted;
    if packets == [] || turns == [] {
      NothingAccepted(packets, turns, previous, usingSdio);
    } else {
      var wire := Padded(Frame(packets[0]), usingSdio);
      WriteOutcome(|wire|, 0, turns[0].writes);
      var (n, rc, seen) := TurnRun(|wire|, turns[0], previous);
      ExchangeSucceedsIff(packets[1..], turns[1..], seen, usingSdio);
      AcceptedFirst(packets, turns, previous, usingSdio);
    }
  }

  lemma {:induction false} NothingAccepted(packets: seq<seq<bv8>>, turns: seq<Turn>, previous: bv8, usingSdio: bool)
    requires packets == [] || turns == []
    ensures Accepted(packets, turns, previous, usingSdio) <==> packets == []
  {
    hide Frame, Padded, Taken;
  }

  lemma {:induction false} AcceptedFirst(packets: seq<seq<bv8>>, turns: seq<Turn>, previous: bv8, usingSdio: bool)
    requires packets != [] && turns != []
    ensures var t := turns[0];
            Accepted(packets, turns, previous, usingSdio) <==>
            && Taken(t.writes) >= |Padded(Frame(packets[0]), usingSdio)| && t.selected > 0 && t.reply.Some?
            && (if |t.reply.value| >= 2 then t.reply.value[1] else previous) == 2
            && Accepted(packets[1..], turns[1..], 2, usingSdio)
  {
    hide Frame, Padded, Taken;
    if Accepted(packets[1..], turns[1..], 2, usingSdio) {
      forall k | 0 < k < |packets|
        ensures Taken(turns[k].writes) >= |Padded(Frame(packets[k]), usingSdio)|
        ensures turns[k].selected > 0 && turns[k].reply.Some?
        ensures |turns[k].reply.value| >= 2 ==> turns[k].reply.value[1] == 2
      {
        assert turns[k] == turns[1..][k - 1] && packets[k] == packets[1..][k - 1];
      }
    }
  }

  /** So an acknowledged download succeeds: whatever the image, if every frame is taken whole
      and answered by an acknowledgement frame, its octets stuffed and checked like any other. */
  lemma {:induction false} AcknowledgedSucceeds(image: seq<bv8>, execAddress: nat, turns: seq<Turn>, previous: bv8,
                                                usingSdio: bool)
    requires var packets := AllPackets(image, execAddress);
             && |packets| <= |turns|
             && forall k | 0 <= k < |packets| ::
                  && Taken(turns[k].writes) >= |Padded(Frame(packets[k]), usingSdio)|
                  && turns[k].selected > 0 && turns[k].reply == Some(Frame([2]))
    ensures ExchangeRun(AllPackets(image, execAddress), turns, previous, usingSdio).1 == Success
  {
    hide Padded, Taken, Frame, ExchangeRun, AllPackets;
    AckFrame();
    ExchangeSucceedsIff(AllPackets(image, execAddress), turns, previous, usingSdio);
  }

  lemma AckFrame()
    ensures |Frame([2])| >= 2 && Frame([2])[1] == 2
  {
    hide FcsBytes, StuffAll;
    FrameOctets([2]);
    assert ([2] + FcsBytes([2]))[0] == 2;
  }

  /** So a download was acknowledged throughout exactly when every reply was long enough to
      carry a verdict: an input the host could look at, since read() returns its length. */
  lemma {:induction false} AcknowledgedIff(packets: seq<seq<bv8>>, turns: seq<Turn>, previous: bv8, usingSdio: bool)
    requires ExchangeRun(packets, turns, previous, usingSdio).1 == Success
    ensures |packets| <= |turns|
    ensures (forall k | 0 <= k < |packets| :: Acknowledges(turns[k])) <==>
            (forall k | 0 <= k < |packets| :: turns[k].reply.Some? && |turns[k].reply.value| >= 2)
  {
    ExchangeSuccess(packets, turns, previous, usingSdio);
  }

  predicate Acknowledges(turn: Turn) {
    turn.reply.Some? && |turn.reply.value| >= 2 && turn.reply.value[1] == ACK
  }

  /** A target that takes every frame at once and acknowledges all of them but the last,
      to which it sends an empty reply. */
  function SilentAtLast(packets: seq<seq<bv8>>, usingSdio: bool): (turns: seq<Turn>)
    ensures |turns| == |packets|
  {
    if packets == [] then []
    else
      var n := |Padded(Frame(packets[0]), usingSdio)|;
      [Turn([n], 1, Some(if |packets| == 1 then [] else [0, ACK]))] + SilentAtLast(packets[1..], usingSdio)
  }

  lemma {:induction false} OneWrite(total: nat)
    ensures WriteRun(total, 0, [total]) == (total, Success)
  {
    assert [total][1..] == [];
  }

  lemma {:induction false} SilenceAccepted(packets: seq<seq<bv8>>, previous: bv8, usingSdio: bool)
    requires |packets| >= 2 || (|packets| == 1 && previous == ACK)
    ensures var turns := SilentAtLast(packets, usingSdio);
            ExchangeRun(packets, turns, previous, usingSdio).1 == Success && turns[|packets| - 1].reply == Some([])
    decreases packets
  {
    hide Frame, Padded, WriteRun;
    OneWrite(|Padded(Frame(packets[0]), usingSdio)|);
    var turns := SilentAtLast(packets, usingSdio);
    assert turns[1..] == SilentAtLast(packets[1..], usingSdio);
    if |packets| > 1 {
      SilenceAccepted(packets[1..], ACK, usingSdio);
    }
  }

  /** Success does not mean that every frame was acknowledged. Whatever the image, its
      download succeeds against a target that never acknowledges GO: the empty reply leaves
      the ACK of the frame before in the receive buffer. */
  lemma {:induction false} StaleAckAccepted(image: seq<bv8>, execAddress: nat, previous: bv8, usingSdio: bool)
    ensures var packets := AllPackets(image, execAddress);
            var turns := SilentAtLast(packets, usingSdio);
            && ExchangeRun(packets, turns, previous, usingSdio).1 == Success
            && packets[|packets| - 1] == GoPacket(execAddress) && !Acknowledges(turns[|packets| - 1])
  {
    hide ExchangeRun, SilentAtLast, GoPacket, WritePacket;
    var packets := AllPackets(image, execAddress);
    assert |WritePackets(image, execAddress, 0)| >= 1;
    SilenceAccepted(packets, previous, usingSdio);
  }

  /** `bytes` have gone out and the result `left` is what remains of the result `all`. */
  ghost predicate Midway(all: (seq<bv8>, Rc), bytes: seq<bv8>, left: (seq<bv8>, Rc)) {
    all == (bytes + left.0, left.1)
  }

  lemma {:induction false} MidwayStart(all: (seq<bv8>, Rc))
    ensures Midway(all, [], all)
  {
    assert [] + all.0 == all.0;
  }

  lemma {:induction false} MidwayStep(all: (seq<bv8>, Rc), bytes: seq<bv8>, left: (seq<bv8>, Rc),
                                            delta: seq<bv8>, after: (seq<bv8>, Rc))
    requires Midway(all, bytes, left) && left == (delta + after.0, after.1)
    ensures Midway(all, bytes + delta, after)
  {
    assert bytes + (delta + after.0) == (bytes + delta) + after.0;
  }

  lemma {:induction false} MidwayStop(all: (seq<bv8>, Rc), bytes: seq<bv8>, left: (seq<bv8>, Rc))
    requires Midway(all, bytes, left)
    ensures all == (bytes + left.0, left.1)
    ensures left.0 == [] ==> all.0 == bytes
  {
    assert bytes + [] == bytes;
  }

  lemma {:induction false} ExchangeBlocked(packets: seq<seq<bv8>>, previous: bv8, usingSdio: bool)
    requires packets != []
    ensures ExchangeRun(packets, [], previous, usingSdio) == ([], Blocked)
  {
  }

  /** Taking the first chunk off what is still to be written. */
  lemma {:induction false} FirstChunk(image: seq<bv8>, execAddress: nat, w: nat, go: seq<seq<bv8>>)
    returns (rest: seq<seq<bv8>>)
    requires w < |image| || w == |image| == 0
    ensures var n := ChunkSize(image, w);
            var p := WritePacket((execAddress + w) % ADDRESS_SPACE, image[w..w + n]);
            var left := WritePackets(image, execAddress, w);
            && p in left && left + go == [p] + rest
            && rest == (if w + n < |image| then WritePackets(image, execAddress, w + n) else []) + go
            && (w + n < |image| ==> forall q | q in WritePackets(image, execAddress, w + n) :: q in left)
  {
    hide WritePacket;
    var n := ChunkSize(image, w);
    var tail := if w + n < |image| then WritePackets(image, execAddress, w + n) else [];
    rest := tail + go;
    var p := WritePacket((execAddress + w) % ADDRESS_SPACE, image[w..w + n]);
    assert WritePackets(image, execAddress, w) == [p] + tail;
    InFront(p, tail, go);
  }

  lemma {:induction false} InFront(p: seq<bv8>, tail: seq<seq<bv8>>, go: seq<seq<bv8>>)
    ensures p in [p] + tail && ([p] + tail) + go == [p] + (tail + go)
    ensures forall q | q in tail :: q in [p] + tail
  {
  }

  /** The image header names the load address; the buffer it is read into starts out
      holding `stale`, which stays where the file is too short. */
  function HeaderSize(oldPbl: bool): nat { if oldPbl then 40 else 80 }

  function LoadAddress(image: seq<bv8>, stale: seq<bv8>, oldPbl: bool): (a: nat)
    requires |stale| == HeaderSize(oldPbl)
    ensures a < ADDRESS_SPACE
  {
    var n := Min(HeaderSize(oldPbl), |image|);
    var header := image[..n] + stale[n..];
    var field := if oldPbl then 12 else 24;
    (FromLe(header[field..field + 4]) - HeaderSize(oldPbl)) % ADDRESS_SPACE
  }

  /** The header names the load address plus its own size, 40 bytes or 80, in the word at 12 or
      24: in the file's bytes, or in those of the buffer where the file is too short. */
  lemma {:induction false} LoadAddressNamed(image: seq<bv8>, stale: seq<bv8>, oldPbl: bool, dest: nat)
    requires |stale| == (if oldPbl then 40 else 80) && dest < 0x1_0000_0000
    requires var field := if oldPbl then 12 else 24;
             forall i | 0 <= i < 4 ::
               (if field + i < |image| then image[field + i] else stale[field + i]) == Le32(dest)[i]
    ensures LoadAddress(image, stale, oldPbl) == (dest - (if oldPbl then 40 else 80)) % 0x1_0000_0000
  {
    hide Le32, FromLe;
    var n := Min(HeaderSize(oldPbl), |image|);
    var field := if oldPbl then 12 else 24;
    assert (image[..n] + stale[n..])[field..field + 4] == Le32(dest);
    Le32RoundTrip(dest);
  }

  const ENCODED_WRITE_SIZE := WRITE_HEADER + WRITE_SIZE_THRESHOLD * 2 + 4
  const GO_LENGTH := 5
  const ENCODED_GO_SIZE := GO_LENGTH * 2 + 4

  /** Every WRITE frame of an upload fits the buffer that is allocated for it. */
  ghost predicate FramesFit(image: seq<bv8>, execAddress: nat) {
    forall p | p in WritePackets(image, execAddress, 0) :: |Frame(p)| <= ENCODED_WRITE_SIZE
  }

  /** A WRITE frame fits exactly when its octets need at most 3072 - |data| escapes; one
      with at most 1531 bytes of data always fits. */
  lemma {:induction false} WriteFrameFits(address: int, data: seq<bv8>)
    ensures var p := WritePacket(address, data);
            && (|Frame(p)| <= ENCODED_WRITE_SIZE <==> Escapes(p + FcsBytes(p)) <= 3072 - |data|)
            && (|data| <= 1531 ==> |Frame(p)| <= ENCODED_WRITE_SIZE)
  {
    hide Frame, Escapes, FcsBytes;
    FrameShape(WritePacket(address, data));
  }

  // ------------------------------------------------------ the GO frame always fits

  predicate Cut(r: bv16) {
    !Special(LowByte(!r))
  }

  lemma FirstGoSteps()
    ensures TableStep(0xffff, 0x05) == 0x582a
    ensures TableStep(0x582a, 0x7d) == 0x2662 && TableStep(0x582a, 0x7e) == 0x14f9
  {
  }

  lemma SecondGoSteps()
    ensures TableStep(0x2662, 0x7d) == 0xe850 && TableStep(0x2662, 0x7e) == 0xdacb
    ensures TableStep(0x14f9, 0x7d) == 0xc238 && TableStep(0x14f9, 0x7e) == 0xf0a3
  {
  }

  lemma ThirdGoSteps()
    ensures TableStep(0xe850, 0x7d) == 0xfa0f && TableStep(0xe850, 0x7e) == 0xc894
    ensures TableStep(0xdacb, 0x7d) == 0xd067 && TableStep(0xdacb, 0x7e) == 0xe2fc
    ensures TableStep(0xc238, 0x7d) == 0x156b && TableStep(0xc238, 0x7e) == 0x27f0
    ensures TableStep(0xf0a3, 0x7d) == 0x3f03 && TableStep(0xf0a3, 0x7e) == 0x0d98
  {
  }

  lemma LastGoSteps()
    ensures TableStep(0xfa0f, 0x7d) == 0x506f && TableStep(0xfa0f, 0x7e) == 0x62f4
    ensures TableStep(0xc894, 0x7d) == 0x7a07 && TableStep(0xc894, 0x7e) == 0x489c
  {
  }

  lemma NextLastGoSteps()
    ensures TableStep(0xd067, 0x7d) == 0xbf0b && TableStep(0xd067, 0x7e) == 0x8d90
    ensures TableStep(0xe2fc, 0x7d) == 0x9563 && TableStep(0xe2fc, 0x7e) == 0xa7f8
  {
  }

  lemma MoreLastGoSteps()
    ensures TableStep(0x156b, 0x7d) == 0x75a2 && TableStep(0x156b, 0x7e) == 0x4739
    ensures TableStep(0x27f0, 0x7d) == 0x5fca && TableStep(0x27f0, 0x7e) == 0x6d51
  {
  }

  lemma FinalGoSteps()
    ensures TableStep(0x3f03, 0x7d) == 0x9ac6 && TableStep(0x3f03, 0x7e) == 0xa85d
    ensures TableStep(0x0d98, 0x7d) == 0xb0ae && TableStep(0x0d98, 0x7e) == 0x8235
  {
  }

  lemma GoChecks()
    ensures Cut(0x506f) && Cut(0x62f4) && Cut(0x7a07) && Cut(0x489c)
    ensures Cut(0xbf0b) && Cut(0x8d90) && Cut(0x9563) && Cut(0xa7f8)
    ensures Cut(0x75a2) && Cut(0x4739) && Cut(0x5fca) && Cut(0x6d51)
    ensures Cut(0x9ac6) && Cut(0xa85d) && Cut(0xb0ae) && Cut(0x8235)
  {
  }

  /** If all four octets of the address need escaping, the first check octet does not. */
  lemma GoCheckPlain(a: bv8, b: bv8, c: bv8, d: bv8)
    requires Special(a) && Special(b) && Special(c) && Special(d)
    ensures Cut(TableStep(TableStep(TableStep(TableStep(TableStep(0xffff, GO_CMD), a), b), c), d))
  {
    hide TableStep, Cut;
    FirstGoSteps();
    SecondGoSteps();
    ThirdGoSteps();
    LastGoSteps();
    NextLastGoSteps();
    MoreLastGoSteps();
    FinalGoSteps();
    GoChecks();
  }

  lemma {:induction false} FoldFive(a: bv8, b: bv8, c: bv8, d: bv8)
    ensures Register([GO_CMD, a, b, c, d]) ==
            TableStep(TableStep(TableStep(TableStep(TableStep(CRC_16_L_SEED, GO_CMD), a), b), c), d)
  {
    hide TableStep, TableFold, Feed, Bits;
    var r0 := TableStep(CRC_16_L_SEED, GO_CMD);
    var r1 := TableStep(r0, a);
    var r2 := TableStep(r1, b);
    var r3 := TableStep(r2, c);
    TableFoldRefinesFeed(CRC_16_L_SEED, [GO_CMD, a, b, c, d]);
    FoldOne(CRC_16_L_SEED, GO_CMD, [a, b, c, d]);
    assert [GO_CMD] + [a, b, c, d] == [GO_CMD, a, b, c, d];
    FoldOne(r0, a, [b, c, d]);
    assert [a] + [b, c, d] == [a, b, c, d];
    FoldOne(r1, b, [c, d]);
    assert [b] + [c, d] == [b, c, d];
    FoldOne(r2, c, [d]);
    assert [c] + [d] == [c, d];
    FoldOne(r3, d, []);
    assert [d] + [] == [d];
    FoldNothing(TableStep(r3, d));
  }

  /** Six octets of a GO frame could need escaping, its address and its check sequence, but at
      most five do: the frame never passes the 14 octets allocated for it. */
  lemma {:induction false} GoFrameFits(address: int)
    ensures |Frame(GoPacket(address))| <= ENCODED_GO_SIZE
  {
    hide Frame, Escapes, FcsBytes, Special, TableStep, ToByte, Register;
    var p := GoPacket(address);
    var a, b, c, d := p[1], p[2], p[3], p[4];
    assert p == [GO_CMD, a, b, c, d];
    FrameShape(p);
    var lo, hi := FcsBytes(p)[0], FcsBytes(p)[1];
    assert p + FcsBytes(p) == [GO_CMD, a, b, c, d, lo, hi];
    if Special(a) && Special(b) && Special(c) && Special(d) {
      GoCheckPlain(a, b, c, d);
      FoldFive(a, b, c, d);
      FirstCheckOctet(p);
    }
    FiveAtMost(a, b, c, d, lo, hi);
  }

  lemma {:induction false} FirstCheckOctet(p: seq<bv8>)
    ensures FcsBytes(p)[0] == LowByte(!Register(p))
  {
  }

  lemma {:induction false} OnePlain(before: seq<bv8>, b: bv8, after: seq<bv8>)
    requires !Special(b)
    ensures Escapes([GO_CMD] + before + [b] + after) <= |before| + |after|
  {
    hide Escapes;
    EscapesConcat([GO_CMD] + before + [b], after);
    EscapesConcat([GO_CMD] + before, [b]);
    EscapesConcat([GO_CMD], before);
    EscapesOfOne(GO_CMD);
    EscapesOfOne(b);
    EscapesAtMost(before);
    EscapesAtMost(after);
  }

  lemma FiveAtMost(a: bv8, b: bv8, c: bv8, d: bv8, lo: bv8, hi: bv8)
    requires !(Special(a) && Special(b) && Special(c) && Special(d) && Special(lo))
    ensures Escapes([GO_CMD, a, b, c, d, lo, hi]) <= 5
  {
    hide Escapes, Special;
    var all := [GO_CMD, a, b, c, d, lo, hi];
    if !Special(a) {
      OnePlain([], a, [b, c, d, lo, hi]);
      assert [GO_CMD] + [] + [a] + [b, c, d, lo, hi] == all;
    } else if !Special(b) {
      OnePlain([a], b, [c, d, lo, hi]);
      assert [GO_CMD] + [a] + [b] + [c, d, lo, hi] == all;
    } else if !Special(c) {
      OnePlain([a, b], c, [d, lo, hi]);
      assert [GO_CMD] + [a, b] + [c] + [d, lo, hi] == all;
    } else if !Special(d) {
      OnePlain([a, b, c], d, [lo, hi]);
      assert [GO_CMD] + [a, b, c] + [d] + [lo, hi] == all;
    } else {
      OnePlain([a, b, c, d], lo, [hi]);
      assert [GO_CMD] + [a, b, c, d] + [lo] + [hi] == all;
    }
  }

  class ComState {
    const port: Port
    const recvBuffer: array<bv8>

    constructor (port: Port, recvBuffer: array<bv8>)
      requires recvBuffer.Length == RX_BUFFER_SIZE
      ensures this.port == port && this.recvBuffer == recvBuffer
    {
      this.port := port;
      this.recvBuffer := recvBuffer;
    }

    /** Send one encoded packet, wait for a reply, and check that it is an ACK. */
    method SendAndAwaitAck(encoded: array<bv8>, size: nat, turn: Turn) returns (rc: Rc)
      requires size <= encoded.Length && recvBuffer.Length == RX_BUFFER_SIZE
      modifies port`sent, recvBuffer
      ensures var wire := Padded(old(encoded[..size]), port.usingSdio);
              var (n, r, seen) := TurnRun(|wire|, turn, old(recvBuffer[1]));
              rc == r && recvBuffer[1] == seen && port.sent == old(port.sent) + UpTo(wire, n) &&
              (rc == Success ==> UpTo(wire, n) == wire)
    {
      hide Padded, WriteRun;
      ghost var wire := Padded(encoded[..size], port.usingSdio);
      WriteRunShape(|wire|, 0, turn.writes);
      ghost var n := WriteRun(|wire|, 0, turn.writes).0;
      assert UpTo(wire, n) == wire[..n] && wire[..|wire|] == wire;
      rc := port.TxData(encoded, size, turn.writes);
      if rc != Success {
        return;
      }
      if turn.selected < 0 {
        return Failed;
      }
      if turn.selected == 0 {
        return Failed;
      }
      if turn.reply.None? {
        return Failed;
      }
      var reply := turn.reply.value;
      forall i | 0 <= i < |reply| && i < recvBuffer.Length {
        recvBuffer[i] := reply[i];
      }
      if ACK != recvBuffer[1] {
        return Failed;
      }
      return Success;
    }

    /** Encode a packet and exchange it; the ghost arguments name what is still to come. */
    method Exchange(packet: array<bv8>, size: nat, encodedBuffer: array<bv8>, turn: Turn,
                    ghost rest: seq<seq<bv8>>, ghost left: seq<Turn>)
      returns (rc: Rc, ghost delta: seq<bv8>)
      requires size < 0x1_0000 && size <= packet.Length && packet != encodedBuffer
      requires |Frame(packet[..size])| <= encodedBuffer.Length
      requires recvBuffer.Length == RX_BUFFER_SIZE && encodedBuffer != recvBuffer && packet != recvBuffer
      modifies port`sent, recvBuffer, encodedBuffer
      ensures port.sent == old(port.sent) + delta
      ensures var before := ExchangeRun([packet[..size]] + rest, [turn] + left, old(recvBuffer[1]), port.usingSdio);
              var after := ExchangeRun(rest, left, recvBuffer[1], port.usingSdio);
              before == if rc == Success then (delta + after.0, after.1) else (delta, rc)
    {
      hide Frame, Padded, TurnRun;
      var encodedSize := HdlcEncode(packet, size, encodedBuffer);
      assert encodedBuffer[..encodedSize] == Frame(packet[..size]);
      ghost var wire := Padded(Frame(packet[..size]), port.usingSdio);
      delta := UpTo(wire, TurnRun(|wire|, turn, recvBuffer[1]).0);
      assert ([packet[..size]] + rest)[1..] == rest && ([turn] + left)[1..] == left;
      rc := SendAndAwaitAck(encodedBuffer, encodedSize, turn);
    }

    /** One WRITE packet laid out at the front of the packet buffer. */
    method FillWrite(packet: array<bv8>, address: nat, data: seq<bv8>)
      requires packet.Length == MAX_DMPACKET && |data| <= WRITE_SIZE_THRESHOLD
      modifies packet
      ensures packet[..WRITE_HEADER + |data|] == WritePacket(address, data)
    {
      hide ToByte;
      packet[0] := WRITE_CMD32;
      packet[1] := ToByte(address / 0x100_0000 % 256);
      packet[2] := ToByte(address / 0x1_0000 % 256);
      packet[3] := ToByte(address / 0x100 % 256);
      packet[4] := ToByte(address % 256);
      packet[5] := ToByte(|data| / 256 % 256);
      packet[6] := ToByte(|data| % 256);
      assert packet[..WRITE_HEADER] == [WRITE_CMD32] + Be32(address) + Be16(|data|);
      forall i | 0 <= i < |data| {
        packet[WRITE_HEADER + i] := data[i];
      }
      assert packet[WRITE_HEADER..WRITE_HEADER + |data|] == data;
    }

    /** upload_dbl_image. `file` is None when the image cannot be opened. */
    method UploadDblImage(file: Option<seq<bv8>>, stale: seq<bv8>, oldPbl: bool, turns: seq<Turn>) returns (rc: Rc)
      requires |stale| == HeaderSize(oldPbl) && recvBuffer.Length == RX_BUFFER_SIZE
      requires file.Some? ==> FramesFit(file.value, LoadAddress(file.value, stale, oldPbl))
      modifies port`sent, recvBuffer
      ensures file.None? ==> rc == Failed && port.sent == old(port.sent)
      ensures file.Some? ==>
                var packets := AllPackets(file.value, LoadAddress(file.value, stale, oldPbl));
                var (bytes, r) := ExchangeRun(packets, turns, old(recvBuffer[1]), port.usingSdio);
                rc == r && port.sent == old(port.sent) + bytes &&
                (rc == Success <==> Accepted(packets, turns, old(recvBuffer[1]), port.usingSdio)) &&
                (rc == Success ==> bytes == Wire(FrameEach(packets), port.usingSdio))
      ensures file.Some? && rc == Success && |file.value| < ADDRESS_SPACE ==>
                var execAddress := LoadAddress(file.value, stale, oldPbl);
                forall l, rx | Quiet(rx) :: Loads(l, rx, port.sent[|old(port.sent)|..], file.value, execAddress)
    {
      hide Frame, ExchangeRun, WritePackets, GoPacket, Loads, Quiet, Accepted;
      if file.None? {
        return Failed;
      }
      var image := file.value;
      var execAddress := LoadAddress(image, stale, oldPbl);
      ghost var packets, previous := AllPackets(image, execAddress), recvBuffer[1];
      ExchangeSucceedsIff(packets, turns, previous, port.usingSdio);
      if ExchangeRun(packets, turns, previous, port.usingSdio).1 == Success {
        ExchangeSuccess(packets, turns, previous, port.usingSdio);
        if |image| < ADDRESS_SPACE {
          forall l, rx | Quiet(rx)
            ensures Loads(l, rx, Wire(FrameEach(packets), port.usingSdio), image, execAddress)
          {
            EndToEnd(l, rx, image, execAddress, port.usingSdio);
          }
        }
      }
      var k;
      ghost var bytes, delta;
      rc, k, bytes := UploadChunks(image, execAddress, turns);
      if rc != Success {
        return;
      }
      if k == |turns| {
        ExchangeBlocked([GoPacket(execAddress)], recvBuffer[1], port.usingSdio);
        return Blocked;
      }
      assert turns[k..] == [turns[k]] + turns[k + 1..];
      rc, delta := Execute(execAddress, turns[k], turns[k + 1..]);
    }

    /** The do-while loop of upload_dbl_image: one record at a time. */
    method UploadChunks(image: seq<bv8>, execAddress: nat, turns: seq<Turn>)
      returns (rc: Rc, k: nat, ghost bytes: seq<bv8>)
      requires recvBuffer.Length == RX_BUFFER_SIZE
      requires forall p | p in WritePackets(image, execAddress, 0) :: |Frame(p)| <= ENCODED_WRITE_SIZE
      modifies port`sent, recvBuffer
      ensures k <= |turns| && port.sent == old(port.sent) + bytes
      ensures var go := [GoPacket(execAddress)];
              var all := ExchangeRun(WritePackets(image, execAddress, 0) + go, turns, old(recvBuffer[1]), port.usingSdio);
              if rc == Success then Midway(all, bytes, ExchangeRun(go, turns[k..], recvBuffer[1], port.usingSdio))
              else all == (bytes, rc)
    {
      hide Frame, ExchangeRun, WritePackets, WritePacket, GoPacket, Midway;
      ghost var go, sdio := [GoPacket(execAddress)], port.usingSdio;
      ghost var all := ExchangeRun(WritePackets(image, execAddress, 0) + go, turns, recvBuffer[1], sdio);
      bytes := [];
      MidwayStart(all);
      assert turns[0..] == turns;

      var encodedBuffer := new bv8[ENCODED_WRITE_SIZE];
      var packet := new bv8[MAX_DMPACKET](_ => 0);
      var currentAddress, bytesWritten: nat := execAddress % ADDRESS_SPACE, 0;
      k := 0;
      while true
        invariant k <= |turns| && (bytesWritten < |image| || bytesWritten == |image| == 0)
        invariant currentAddress == (execAddress + bytesWritten) % ADDRESS_SPACE
        invariant forall p | p in WritePackets(image, execAddress, bytesWritten) :: |Frame(p)| <= ENCODED_WRITE_SIZE
        invariant port.sent == old(port.sent) + bytes
        invariant Midway(all, bytes, ExchangeRun(WritePackets(image, execAddress, bytesWritten) + go, turns[k..],
                                                 recvBuffer[1], sdio))
        decreases |turns| - k
      {
        ghost var left := ExchangeRun(WritePackets(image, execAddress, bytesWritten) + go, turns[k..], recvBuffer[1], sdio);
        if k == |turns| {
          ExchangeBlocked(WritePackets(image, execAddress, bytesWritten) + go, recvBuffer[1], sdio);
          MidwayStop(all, bytes, left);
          return Blocked, k, bytes;
        }
        var bytesRemaining := |image| - bytesWritten;
        var writeSize := Min(WRITE_SIZE_THRESHOLD, bytesRemaining);
        ghost var rest, delta;
        assert turns[k..] == [turns[k]] + turns[k + 1..];
        rc, rest, delta := SendChunk(image, execAddress, currentAddress, bytesWritten, writeSize, packet, encodedBuffer,
                                     turns[k], go, turns[k + 1..]);
        currentAddress := (currentAddress + writeSize) % ADDRESS_SPACE;
        bytesWritten := bytesWritten + writeSize;
        k := k + 1;
        if rc != Success {
          MidwayStop(all, bytes, left);
          bytes := bytes + delta;
          return;
        }
        MidwayStep(all, bytes, left, delta, ExchangeRun(rest, turns[k..], recvBuffer[1], sdio));
        bytes := bytes + delta;
        if bytesWritten >= |image| {
          break;
        }
      }
    }

    /** One record: the next `writeSize` bytes of the file as a WRITE packet, exchanged. */
    method SendChunk(image: seq<bv8>, ghost execAddress: nat, currentAddress: nat, bytesWritten: nat, writeSize: nat,
                     packet: array<bv8>, encodedBuffer: array<bv8>, turn: Turn,
                     ghost go: seq<seq<bv8>>, ghost left: seq<Turn>)
      returns (rc: Rc, ghost rest: seq<seq<bv8>>, ghost delta: seq<bv8>)
      requires bytesWritten < |image| || bytesWritten == |image| == 0
      requires writeSize == ChunkSize(image, bytesWritten)
      requires currentAddress == (execAddress + bytesWritten) % ADDRESS_SPACE
      requires forall p | p in WritePackets(image, execAddress, bytesWritten) :: |Frame(p)| <= ENCODED_WRITE_SIZE
      requires packet.Length == MAX_DMPACKET && encodedBuffer.Length == ENCODED_WRITE_SIZE
      requires recvBuffer.Length == RX_BUFFER_SIZE
      requires packet != encodedBuffer && packet != recvBuffer && encodedBuffer != recvBuffer
      modifies port`sent, recvBuffer, packet, encodedBuffer
      ensures port.sent == old(port.sent) + delta
      ensures var w := bytesWritten + writeSize;
              rest == (if w < |image| then WritePackets(image, execAddress, w) else []) + go &&
              (w < |image| ==> forall p | p in WritePackets(image, execAddress, w) :: |Frame(p)| <= ENCODED_WRITE_SIZE)
      ensures bytesWritten + writeSize >= |image| ==> rest == go
      ensures var before := ExchangeRun(WritePackets(image, execAddress, bytesWritten) + go, [turn] + left,
                                        old(recvBuffer[1]), port.usingSdio);
              var after := ExchangeRun(rest, left, recvBuffer[1], port.usingSdio);
              before == if rc == Success then (delta + after.0, after.1) else (delta, rc)
    {
      hide Frame, ExchangeRun, WritePackets, WritePacket;
      assert WRITE_HEADER + writeSize <= packet.Length;
      var data := image[bytesWritten..bytesWritten + writeSize];
      rest := FirstChunk(image, execAddress, bytesWritten, go);
      FillWrite(packet, currentAddress, data);
      rc, delta := Exchange(packet, WRITE_HEADER + writeSize, encodedBuffer, turn, rest, left);
      assert [] + go == go;
    }

    /** dload_exec: the GO packet, as segment and offset. */
    method Execute(address: nat, turn: Turn, ghost left: seq<Turn>) returns (rc: Rc, ghost delta: seq<bv8>)
      requires address < ADDRESS_SPACE
      requires recvBuffer.Length == RX_BUFFER_SIZE
      modifies port`sent, recvBuffer
      ensures port.sent == old(port.sent) + delta
      ensures ExchangeRun([GoPacket(address)], [turn] + left, old(recvBuffer[1]), port.usingSdio) == (delta, rc)
    {
      hide Frame, ToByte;
      var segment, offset := address / 0x1_0000, address % 0x1_0000;
      var packet := new bv8[GO_LENGTH](_ => 0);
      packet[0] := GO_CMD;
      packet[1], packet[2] := ToByte(segment / 256 % 256), ToByte(segment % 256);
      packet[3], packet[4] := ToByte(offset / 256 % 256), ToByte(offset % 256);
      assert packet[..GO_LENGTH] == GoPacket(address);
      GoFrameFits(address);
      var encodedBuffer := new bv8[ENCODED_GO_SIZE];
      rc, delta := Exchange(packet, GO_LENGTH, encodedBuffer, turn, [], left);
      assert [GoPacket(address)] + [] == [GoPacket(address)] && delta + [] == delta;
    }
  }
}
