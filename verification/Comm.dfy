/** The byte transport of ks/comm.c: partial writes and reads, retries, and the padding
    to four bytes that an SDIO channel needs. The results of the system calls are a
    script; a call whose script runs out has not returned yet. */
module Comm {
  import opened Bytes
  import opened Numbers

  const MAX_READ_RETRY := 1000
  const MAX_READ := 1048576

  datatype Rc = Success | Failed | Blocked

  // ------------------------------------------------------------ specification

  /** How many bytes follow a transfer of `size` bytes to reach a multiple of four. */
  function Padding(size: nat, usingSdio: bool): nat {
    if usingSdio && size % 4 != 0 then 4 - size % 4 else 0
  }

  /** What one successful transmission puts on the wire. */
  function Padded(data: seq<bv8>, usingSdio: bool): (s: seq<bv8>)
    ensures |s| == |data| + Padding(|data|, usingSdio)
    ensures s[..|data|] == data
  {
    data + Zeros(Padding(|data|, usingSdio))
  }

  /** The write loop: `writes[k]` is what the k-th write() returns, negative for an
      error, and no write takes more than it was offered. */
  function WriteRun(total: nat, done: nat, writes: seq<int>): (nat, Rc)
    decreases writes
  {
    if done >= total then (done, Success)
    else if writes == [] then (done, Blocked)
    else if writes[0] < 0 then (done, Failed)
    else WriteRun(total, done + Min(writes[0], total - done), writes[1..])
  }

  lemma {:induction false} WriteRunShape(total: nat, done: nat, writes: seq<int>)
    requires done <= total
    ensures var (n, rc) := WriteRun(total, done, writes);
            done <= n <= total && (rc == Success <==> n == total)
    decreases writes
  {
    if done < total && writes != [] && writes[0] >= 0 {
      WriteRunShape(total, done + Min(writes[0], total - done), writes[1..]);
    }
  }

  /** What the writes of a script take before the first of them that fails. */
  function Taken(writes: seq<int>): nat {
    if writes == [] || writes[0] < 0 then 0 else writes[0] + Taken(writes[1..])
  }

  /** How a transmission ends, from the results of its writes alone: it sends what they take,
      and succeeds exactly if that is all; else it fails if one of them does. */
  lemma {:induction false} WriteOutcome(total: nat, done: nat, writes: seq<int>)
    requires done <= total
    ensures var (n, rc) := WriteRun(total, done, writes);
            && n == Min(total, done + Taken(writes))
            && (rc == Success <==> done + Taken(writes) >= total)
            && (rc == Failed <==> done + Taken(writes) < total && exists k | 0 <= k < |writes| :: writes[k] < 0)
    decreases writes
  {
    if done < total && writes != [] && writes[0] >= 0 {
      WriteOutcome(total, done + Min(writes[0], total - done), writes[1..]);
      if done + Taken(writes) < total {
        NegativeLater(writes);
      }
    }
  }

  lemma {:induction false} NegativeLater(writes: seq<int>)
    requires writes != [] && writes[0] >= 0
    ensures (exists k | 0 <= k < |writes| :: writes[k] < 0) <==>
            (exists k | 0 <= k < |writes[1..]| :: writes[1..][k] < 0)
  {
    if k :| 0 <= k < |writes| && writes[k] < 0 {
      assert writes[1..][k - 1] < 0;
    }
  }

  /** Nothing is added to a transfer but on SDIO, and there what completes a word. */
  lemma {:induction false} PaddedBytes(data: seq<bv8>)
    ensures Padded(data, false) == data
    ensures |data| % 4 == 0 ==> Padded(data, true) == data
    ensures |data| % 4 == 1 ==> Padded(data, true) == data + [0, 0, 0]
    ensures |data| % 4 == 2 ==> Padded(data, true) == data + [0, 0]
    ensures |data| % 4 == 3 ==> Padded(data, true) == data + [0]
  {
    assert data + Zeros(0) == data;
    assert Zeros(1) == [0] && Zeros(2) == [0, 0] && Zeros(3) == [0, 0, 0];
  }

  /** One pass of the receive loop: what select() and read() return, and whether a
      failing read() set EAGAIN. */
  datatype RxEvent = RxEvent(selected: int, ret: int, eagain: bool)

  /** Bytes a read() that returns `ret` delivers, asked for `want` with `available` waiting. */
  function Granted(ret: int, want: int, available: int): int {
    if ret <= 0 then ret else Min(ret, Min(want, available))
  }

  function Want(size: nat, padding: nat, done: nat): int {
    if done < size then Min(size - done, MAX_READ) else Min(size + padding - done, 3)
  }

  /** Bytes the next read() of a transfer delivers when `done` of them have come. */
  function Got(size: nat, padding: nat, done: nat, available: int, ret: int): int {
    if done < size + padding then Granted(ret, Want(size, padding, done), available) else 0
  }

  datatype Pass = Stop(rc: Rc) | Again(done: nat, readFail: nat)

  /** What one pass decides once read() has delivered `got` bytes. */
  function AfterRead(total: nat, usingSdio: bool, done: nat, readFail: nat, got: int, eagain: bool): Pass {
    if got > 0 then Again(done + got, 0)
    else if readFail + 1 == MAX_READ_RETRY || (got < 0 && !eagain) || (got == 0 && !usingSdio) then Stop(Failed)
    else Again(done, readFail + 1)
  }

  /** The receive loop, from a state where `done` of `size + padding` bytes have come,
      out of `available` that the other side has put on the wire. */
  function ReadRun(size: nat, padding: nat, usingSdio: bool, available: nat,
                   done: nat, readFail: nat, first: bool, events: seq<RxEvent>): (nat, Rc)
    decreases events
  {
    if events == [] then (done, Blocked)
    else if (first || !usingSdio) && events[0].selected <= 0 then (done, Failed)
    else
      match AfterRead(size + padding, usingSdio, done, readFail,
                      Got(size, padding, done, available - done, events[0].ret), events[0].eagain)
      case Stop(rc) => (done, rc)
      case Again(done', readFail') =>
        if done' < size + padding then
          ReadRun(size, padding, usingSdio, available, done', readFail', false, events[1..])
        else (done', Success)
  }

  lemma {:induction false} ReadRunShape(size: nat, padding: nat, usingSdio: bool, available: nat,
                                        done: nat, readFail: nat, first: bool, events: seq<RxEvent>)
    requires done <= size + padding && done <= available
    ensures var (n, rc) := ReadRun(size, padding, usingSdio, available, done, readFail, first, events);
            done <= n <= size + padding && n <= available && (rc == Success ==> n == size + padding)
    decreases events
  {
    if events != [] {
      var got := Got(size, padding, done, available - done, events[0].ret);
      match AfterRead(size + padding, usingSdio, done, readFail, got, events[0].eagain) {
        case Stop(_) =>
        case Again(done', readFail') =>
          ReadRunShape(size, padding, usingSdio, available, done', readFail', false, events[1..]);
      }
    }
  }

  /** A pass that brings nothing and is tried again: EAGAIN, or an empty read over SDIO. */
  predicate Stalls(e: RxEvent, usingSdio: bool) {
    (e.ret < 0 && e.eagain) || (e.ret == 0 && usingSdio)
  }

  /** After `n` passes in a row that brought nothing, no thousand of them come in a row. */
  predicate Patient(events: seq<RxEvent>, n: nat) {
    events == [] || (if events[0].ret > 0 then Patient(events[1..], 0) else n + 1 < 1000 && Patient(events[1..], n + 1))
  }

  function Deliveries(events: seq<RxEvent>): nat {
    if events == [] then 0 else (if events[0].ret > 0 then 1 else 0) + Deliveries(events[1..])
  }

  /** A receive succeeds however its bytes are cut up, and however often it has to try again
      in between, if that is less than a thousand times in a row: nothing but a failing
      select() or read() stops it. */
  lemma {:induction false} ReadSucceeds(size: nat, padding: nat, usingSdio: bool, available: nat,
                                        done: nat, readFail: nat, first: bool, events: seq<RxEvent>)
    requires done < size + padding <= available && padding <= 3
    requires forall e | e in events :: e.selected > 0 && (e.ret > 0 || Stalls(e, usingSdio))
    requires Patient(events, readFail) && done + Deliveries(events) >= size + padding
    ensures ReadRun(size, padding, usingSdio, available, done, readFail, first, events) == (size + padding, Success)
    decreases events
  {
    var e := events[0];
    assert e in events;
    var got := Got(size, padding, done, available - done, e.ret);
    if e.ret > 0 {
      assert got > 0 && done + got <= size + padding;
      if done + got < size + padding {
        ReadSucceeds(size, padding, usingSdio, available, done + got, 0, false, events[1..]);
      }
    } else {
      assert got == e.ret;
      ReadSucceeds(size, padding, usingSdio, available, done, readFail + 1, false, events[1..]);
    }
  }

  /** What ends a receive: select() finds nothing, where it is called, or read() fails for
      good, or is empty other than over SDIO. */
  predicate Fatal(e: RxEvent, first: bool, usingSdio: bool) {
    || ((first || !usingSdio) && e.selected <= 0)
    || (e.ret < 0 && !e.eagain)
    || (e.ret == 0 && !usingSdio)
  }

  /** No more than all that the reads of a script ask for. */
  function Offered(events: seq<RxEvent>): nat {
    if events == [] then 0 else Max(events[0].ret, 0) + Offered(events[1..])
  }

  /** A pass that is fatal before everything has come fails the receive. */
  lemma {:induction false} ReadFails(size: nat, padding: nat, usingSdio: bool, available: nat,
                                     done: nat, readFail: nat, first: bool, events: seq<RxEvent>, k: nat)
    requires done < size + padding <= available && readFail < 1000 && k < |events|
    requires Fatal(events[k], first && k == 0, usingSdio) && done + Offered(events[..k]) < size + padding
    requires forall j | 0 <= j < k :: !Fatal(events[j], first && j == 0, usingSdio)
    ensures ReadRun(size, padding, usingSdio, available, done, readFail, first, events).1 == Failed
    decreases k
  {
    hide Offered;
    var e, rest := events[0], events[1..];
    var got := Got(size, padding, done, available - done, e.ret);
    if k > 0 {
      assert !Fatal(events[0], first && 0 == 0, usingSdio);
      assert events[..k][0] == e && events[..k][1..] == rest[..k - 1];
      OfferedFirst(events[..k]);
      assert got <= Max(e.ret, 0) && (got > 0 <==> e.ret > 0);
      forall j | 0 <= j < k - 1 ensures !Fatal(rest[j], false && j == 0, usingSdio) {
        assert rest[j] == events[j + 1];
        assert !Fatal(events[j + 1], first && j + 1 == 0, usingSdio);
      }
      if got > 0 {
        ReadFails(size, padding, usingSdio, available, done + got, 0, false, rest, k - 1);
      } else if readFail + 1 < 1000 {
        ReadFails(size, padding, usingSdio, available, done, readFail + 1, false, rest, k - 1);
      }
    }
  }

  lemma {:induction false} OfferedFirst(events: seq<RxEvent>)
    requires events != []
    ensures Offered(events) == Max(events[0].ret, 0) + Offered(events[1..])
  {
  }

  /** The thousandth pass in a row that brings nothing fails. */
  lemma {:induction false} ReadGivesUp(size: nat, padding: nat, usingSdio: bool, available: nat,
                                       done: nat, readFail: nat, first: bool, events: seq<RxEvent>)
    requires done < size + padding && readFail < 1000 <= readFail + |events|
    requires forall e | e in events :: Stalls(e, usingSdio)
    ensures ReadRun(size, padding, usingSdio, available, done, readFail, first, events) == (done, Failed)
    decreases events
  {
    var e := events[0];
    assert e in events;
    assert Got(size, padding, done, available - done, e.ret) == e.ret;
    if readFail + 1 < 1000 {
      ReadGivesUp(size, padding, usingSdio, available, done, readFail + 1, false, events[1..]);
    }
  }

  /** The first `n` bytes of a stream have landed at the front of a buffer. */
  ghost predicate Landed(contents: seq<bv8>, before: seq<bv8>, stream: seq<bv8>, n: int) {
    0 <= n <= |stream| && n <= |before| && contents == stream[..n] + before[n..]
  }

  lemma {:induction false} LandedNothing(before: seq<bv8>, stream: seq<bv8>)
    ensures Landed(before, before, stream, 0)
  {
  }

  lemma {:induction false} LandedAll(before: seq<bv8>, stream: seq<bv8>, size: nat)
    ensures forall contents | Landed(contents, before, stream, size) ::
              size <= |before| && size <= |stream| && contents == stream[..size] + before[size..]
  {
  }

  // --------------------------------------------------------------- round trip

  function Wire(packets: seq<seq<bv8>>, usingSdio: bool): seq<bv8> {
    if packets == [] then [] else Padded(packets[0], usingSdio) + Wire(packets[1..], usingSdio)
  }

  /** One side sends packets one after another, each under its own script of write()
      results: the bytes that reach the wire, and how the last transmission ended. */
  function SendRun(packets: seq<seq<bv8>>, scripts: seq<seq<int>>, usingSdio: bool): (seq<bv8>, Rc)
    decreases packets
  {
    if packets == [] then ([], Success)
    else if scripts == [] then ([], Blocked)
    else
      var wire := Padded(packets[0], usingSdio);
      var (n, rc) := WriteRun(|wire|, 0, scripts[0]);
      WriteRunShape(|wire|, 0, scripts[0]);
      if rc != Success then (wire[..n], rc)
      else
        var (rest, r) := SendRun(packets[1..], scripts[1..], usingSdio);
        (wire + rest, r)
  }

  /** The other side receives packets of given sizes, each under its own script of select()
      and read() results: the packets, what is left on the wire, and how the last receive
      ended. */
  function ReceiveRun(stream: seq<bv8>, sizes: seq<nat>, scripts: seq<seq<RxEvent>>, usingSdio: bool)
    : (seq<seq<bv8>>, seq<bv8>, Rc)
    decreases sizes
  {
    if sizes == [] then ([], stream, Success)
    else if scripts == [] then ([], stream, Blocked)
    else
      var size, padding := sizes[0], Padding(sizes[0], usingSdio);
      var (n, rc) := ReadRun(size, padding, usingSdio, |stream|, 0, 0, true, scripts[0]);
      ReadRunShape(size, padding, usingSdio, |stream|, 0, 0, true, scripts[0]);
      if rc != Success then ([], stream[n..], rc)
      else
        var (packets, left, r) := ReceiveRun(stream[n..], sizes[1..], scripts[1..], usingSdio);
        ([stream[..size]] + packets, left, r)
  }

  function Sizes(packets: seq<seq<bv8>>): (s: seq<nat>)
    ensures |s| == |packets|
  {
    if packets == [] then [] else [|packets[0]|] + Sizes(packets[1..])
  }

  /** Transport round trip, under every fragmentation of reads and writes and every pattern
      of retries in which both sides succeed: receives of the sizes that were sent return
      the packets that were sent, and leave the wire exactly at what follows them. */
  lemma {:induction false} TransportRoundTrip(packets: seq<seq<bv8>>, puts: seq<seq<int>>, gets: seq<seq<RxEvent>>,
                                              next: seq<bv8>, usingSdio: bool)
    requires SendRun(packets, puts, usingSdio).1 == Success
    requires ReceiveRun(SendRun(packets, puts, usingSdio).0 + next, Sizes(packets), gets, usingSdio).2 == Success
    ensures var (received, left, _) :=
              ReceiveRun(SendRun(packets, puts, usingSdio).0 + next, Sizes(packets), gets, usingSdio);
            received == packets && left == next
    decreases packets
  {
    hide Padded, Padding, WriteRun, ReadRun;
    var stream := SendRun(packets, puts, usingSdio).0 + next;
    if packets == [] {
      assert stream == next;
    } else {
      var p, wire := packets[0], Padded(packets[0], usingSdio);
      var rest := SendRun(packets[1..], puts[1..], usingSdio).0 + next;
      assert stream == wire + rest;
      ReadRunShape(|p|, Padding(|p|, usingSdio), usingSdio, |stream|, 0, 0, true, gets[0]);
      assert stream[|wire|..] == rest && stream[..|p|] == wire[..|p|] == p;
      assert Sizes(packets)[1..] == Sizes(packets[1..]);
      TransportRoundTrip(packets[1..], puts[1..], gets[1..], next, usingSdio);
    }
  }

  /** What succeeds in being sent is the padded packets, end to end. */
  lemma {:induction false} SentIsWire(packets: seq<seq<bv8>>, writes: seq<seq<int>>, usingSdio: bool)
    requires SendRun(packets, writes, usingSdio).1 == Success
    ensures SendRun(packets, writes, usingSdio).0 == Wire(packets, usingSdio)
    decreases packets
  {
    hide Padded, WriteRun;
    if packets != [] {
      SentIsWire(packets[1..], writes[1..], usingSdio);
    }
  }

  // ------------------------------------------- the finest fragmentation succeeds

  function ByteWrites(n: nat): (s: seq<int>)
    ensures |s| == n
  {
    if n == 0 then [] else [1] + ByteWrites(n - 1)
  }

  function ByteReads(n: nat): (s: seq<RxEvent>)
    ensures |s| == n
  {
    if n == 0 then [] else [RxEvent(1, 1, false)] + ByteReads(n - 1)
  }

  function WriteScripts(packets: seq<seq<bv8>>, usingSdio: bool): seq<seq<int>> {
    if packets == [] then []
    else [ByteWrites(|Padded(packets[0], usingSdio)|)] + WriteScripts(packets[1..], usingSdio)
  }

  function ReadScripts(packets: seq<seq<bv8>>, usingSdio: bool): seq<seq<RxEvent>> {
    if packets == [] then []
    else [ByteReads(|Padded(packets[0], usingSdio)|)] + ReadScripts(packets[1..], usingSdio)
  }

  lemma {:induction false} ByteWritesSucceed(total: nat, done: nat)
    requires done <= total
    ensures WriteRun(total, done, ByteWrites(total - done)) == (total, Success)
    decreases total - done
  {
    if done < total {
      assert ByteWrites(total - done)[1..] == ByteWrites(total - (done + 1));
      ByteWritesSucceed(total, done + 1);
    }
  }

  lemma {:induction false} ByteReadsSucceed(size: nat, padding: nat, usingSdio: bool, available: nat, done: nat,
                                            first: bool)
    requires done < size + padding <= available
    ensures ReadRun(size, padding, usingSdio, available, done, 0, first, ByteReads(size + padding - done)) ==
            (size + padding, Success)
    decreases size + padding - done
  {
    assert ByteReads(size + padding - done)[1..] == ByteReads(size + padding - (done + 1));
    if done + 1 < size + padding {
      ByteReadsSucceed(size, padding, usingSdio, available, done + 1, false);
    }
  }

  lemma {:induction false} SendsByByte(packets: seq<seq<bv8>>, usingSdio: bool)
    ensures SendRun(packets, WriteScripts(packets, usingSdio), usingSdio).1 == Success
    decreases packets
  {
    hide Padded, WriteRun, ByteWrites;
    if packets != [] {
      assert WriteScripts(packets, usingSdio)[1..] == WriteScripts(packets[1..], usingSdio);
      SendsByByte(packets[1..], usingSdio);
      ByteWritesSucceed(|Padded(packets[0], usingSdio)|, 0);
    }
  }

  lemma {:induction false} NothingToReceive(stream: seq<bv8>, usingSdio: bool)
    ensures ReceiveRun(stream, [], [], usingSdio) == ([], stream, Success)
  {
  }

  lemma {:induction false} ReceiveFirst(p: seq<bv8>, rest: seq<bv8>, sizes: seq<nat>, script: seq<RxEvent>,
                                        scripts: seq<seq<RxEvent>>, usingSdio: bool)
    requires var wire := Padded(p, usingSdio);
             ReadRun(|p|, Padding(|p|, usingSdio), usingSdio, |wire + rest|, 0, 0, true, script) == (|wire|, Success)
    ensures var (packets, left, rc) := ReceiveRun(rest, sizes, scripts, usingSdio);
            ReceiveRun(Padded(p, usingSdio) + rest, [|p|] + sizes, [script] + scripts, usingSdio)
            == ([p] + packets, left, rc)
  {
    hide Padded, Padding, ReadRun;
    var wire := Padded(p, usingSdio);
    assert (wire + rest)[|wire|..] == rest && (wire + rest)[..|p|] == wire[..|p|] == p;
    assert ([|p|] + sizes)[1..] == sizes && ([script] + scripts)[1..] == scripts;
  }

  lemma {:induction false} ReceivesByByte(packets: seq<seq<bv8>>, next: seq<bv8>, usingSdio: bool)
    requires forall i | 0 <= i < |packets| :: |packets[i]| > 0
    ensures ReceiveRun(Wire(packets, usingSdio) + next, Sizes(packets), ReadScripts(packets, usingSdio), usingSdio).2
            == Success
    decreases packets
  {
    hide Padded, Padding, ReadRun, ByteReads, ReceiveRun;
    if packets == [] {
      NothingToReceive(Wire(packets, usingSdio) + next, usingSdio);
    } else {
      var p, wire, rest := packets[0], Padded(packets[0], usingSdio), Wire(packets[1..], usingSdio) + next;
      ReceivesByByte(packets[1..], next, usingSdio);
      ByteReadsSucceed(|p|, Padding(|p|, usingSdio), usingSdio, |wire + rest|, 0, true);
      ReceiveFirst(p, rest, Sizes(packets[1..]), ByteReads(|wire|), ReadScripts(packets[1..], usingSdio), usingSdio);
      assert Wire(packets, usingSdio) + next == wire + rest;
    }
  }

  /** Any non-empty packets get across one byte at a time. */
  lemma {:induction false} ByteByByte(packets: seq<seq<bv8>>, next: seq<bv8>, usingSdio: bool)
    requires forall i | 0 <= i < |packets| :: |packets[i]| > 0
    ensures var (wire, sent) := SendRun(packets, WriteScripts(packets, usingSdio), usingSdio);
            sent == Success &&
            ReceiveRun(wire + next, Sizes(packets), ReadScripts(packets, usingSdio), usingSdio).2 == Success
  {
    hide SendRun, ReceiveRun;
    SendsByByte(packets, usingSdio);
    SentIsWire(packets, WriteScripts(packets, usingSdio), usingSdio);
    ReceivesByByte(packets, next, usingSdio);
  }

  /** Every transfer over SDIO is a whole number of four-byte words, and at most three
      bytes longer than its packet. */
  lemma {:induction false} WireAligned(packets: seq<seq<bv8>>)
    ensures |Wire(packets, true)| % 4 == 0
    ensures forall p | p in packets :: |Padded(p, true)| < |p| + 4
  {
    hide Padded, Wire;
    forall p | p in packets ensures |Padded(p, true)| < |p| + 4 {
      PaddedAligned(p);
    }
    WholeWords(packets);
  }

  lemma {:induction false} WholeWords(packets: seq<seq<bv8>>)
    ensures |Wire(packets, true)| % 4 == 0
    decreases |packets|
  {
    hide Padded;
    if packets != [] {
      PaddedAligned(packets[0]);
      WholeWords(packets[1..]);
      SumOfWords(|Padded(packets[0], true)|, |Wire(packets[1..], true)|);
    }
  }

  lemma SumOfWords(a: nat, b: nat)
    requires a % 4 == 0 && b % 4 == 0
    ensures (a + b) % 4 == 0
  {
  }

  lemma {:induction false} PaddedAligned(p: seq<bv8>)
    ensures |Padded(p, true)| % 4 == 0 && |Padded(p, true)| < |p| + 4
  {
    hide Zeros;
  }

  // -------------------------------------------------------------- the C code

  class Port {
    const usingSdio: bool
    var sent: seq<bv8>      // bytes write() has taken
    var incoming: seq<bv8>  // bytes the other side has sent that read() has not delivered

    constructor (usingSdio: bool, incoming: seq<bv8>)
      ensures this.usingSdio == usingSdio && sent == [] && this.incoming == incoming
    {
      this.usingSdio := usingSdio;
      sent := [];
      this.incoming := incoming;
    }

    /** tx_data. */
    method TxData(data: array<bv8>, size: nat, writes: seq<int>) returns (rc: Rc)
      requires size <= data.Length
      modifies this`sent
      ensures var wire := Padded(data[..size], usingSdio);
              var (n, r) := WriteRun(|wire|, 0, writes);
              rc == r && n <= |wire| && sent == old(sent) + wire[..n]
      ensures rc == Success <==> Taken(writes) >= |Padded(data[..size], usingSdio)|
      ensures rc == Success ==> sent == old(sent) + Padded(data[..size], usingSdio)
    {
      hide Padded, Padding, Taken;
      ghost var wire := Padded(data[..size], usingSdio);
      var buffer, bufferSize := PadForSdio(data, size);
      WriteRunShape(bufferSize, 0, writes);
      WriteOutcome(bufferSize, 0, writes);
      var bytesWritten: nat, k: nat := 0, 0;
      while bytesWritten < bufferSize
        invariant bytesWritten <= bufferSize && k <= |writes|
        invariant buffer[..bufferSize] == wire && sent == old(sent) + wire[..bytesWritten]
        invariant WriteRun(bufferSize, bytesWritten, writes[k..]) == WriteRun(bufferSize, 0, writes)
        decreases |writes| - k
      {
        if k == |writes| {
          return Blocked;
        }
        var nRet := writes[k];
        k := k + 1;
        if nRet < 0 {
          return Failed;
        }
        var taken := Min(nRet, bufferSize - bytesWritten);
        sent := sent + buffer[..bufferSize][bytesWritten..bytesWritten + taken];
        assert wire[..bytesWritten] + wire[bytesWritten..bytesWritten + taken] == wire[..bytesWritten + taken];
        bytesWritten := bytesWritten + taken;
      }
      assert wire[..bytesWritten] == wire;
      return Success;
    }

    /** The copy tx_data makes when an SDIO transfer is not a multiple of four bytes. */
    method PadForSdio(data: array<bv8>, size: nat) returns (buffer: array<bv8>, bufferSize: nat)
      requires size <= data.Length
      ensures bufferSize <= buffer.Length && buffer[..bufferSize] == Padded(data[..size], usingSdio)
    {
      buffer, bufferSize := data, size;
      var padding := size % 4;
      if padding != 0 && usingSdio {
        padding := 4 - padding;
        buffer := new bv8[size + padding](_ => 0);
        forall i | 0 <= i < size {
          buffer[i] := data[i];
        }
        bufferSize := bufferSize + padding;
      }
    }

    /** rx_data with a fixed size (is_command_packet 0). */
    method RxData(buffer: array<bv8>, size: nat, events: seq<RxEvent>) returns (rc: Rc)
      requires size <= buffer.Length
      modifies this`incoming, buffer
      ensures var p := Padding(size, usingSdio);
              var (n, r) := ReadRun(size, p, usingSdio, |old(incoming)|, 0, 0, true, events);
              rc == r && n <= size + p && n <= |old(incoming)| &&
              Landed(buffer[..], old(buffer[..]), old(incoming), Min(n, size)) &&
              (incoming == old(incoming)[n..] || (rc == Failed && incoming == []))
      ensures rc == Success ==>
                size + Padding(size, usingSdio) <= |old(incoming)| &&
                buffer[..] == old(incoming)[..size] + old(buffer[size..]) &&
                incoming == old(incoming)[size + Padding(size, usingSdio)..]
    {
      hide ReadRun, Landed, Padded;
      var padding := 0;
      if usingSdio {
        padding := size % 4;
        if padding != 0 {
          padding := 4 - padding;
        }
      }
      ReadRunShape(size, padding, usingSdio, |incoming|, 0, 0, true, events);
      LandedAll(buffer[..], incoming, size);
      rc := ReceiveLoop(buffer, size, padding, events);
    }

    /** The do-while loop of rx_data. */
    method ReceiveLoop(buffer: array<bv8>, size: nat, padding: nat, events: seq<RxEvent>) returns (rc: Rc)
      requires size <= buffer.Length
      modifies this`incoming, buffer
      ensures var (n, r) := ReadRun(size, padding, usingSdio, |old(incoming)|, 0, 0, true, events);
              rc == r && n <= |old(incoming)| &&
              Landed(buffer[..], old(buffer[..]), old(incoming), Min(n, size)) &&
              (incoming == old(incoming)[n..] || (rc == Failed && incoming == []))
    {
      hide Got, Landed, Granted, Want;
      ghost var stream, before := incoming, buffer[..];
      LandedNothing(before, stream);
      var bytesRead: nat, readFail: nat, firstReadChunk := 0, 0, true;
      for k := 0 to |events|
        invariant bytesRead <= |stream| && (bytesRead < size + padding || bytesRead == size + padding == 0)
        invariant incoming == stream[bytesRead..]
        invariant Landed(buffer[..], before, stream, Min(bytesRead, size))
        invariant ReadRun(size, padding, usingSdio, |stream|, bytesRead, readFail, firstReadChunk, events[k..])
               == ReadRun(size, padding, usingSdio, |stream|, 0, 0, true, events)
      {
        var event := events[k];
        ghost var left := events[k..];
        assert left[0] == event && left[1..] == events[k + 1..];
        if firstReadChunk || !usingSdio {
          if event.selected <= 0 {
            return Failed;
          }
        }
        var nRet := ReadChunk(buffer, size, padding, bytesRead, event.ret, before, stream);
        firstReadChunk := false;
        if nRet <= 0 {
          readFail := readFail + 1;
          if readFail == MAX_READ_RETRY {
            incoming := [];  // tcflush
            return Failed;
          }
          if nRet < 0 && !event.eagain {
            return Failed;
          }
          if nRet == 0 && !usingSdio {
            return Failed;
          }
        } else {
          readFail := 0;
          bytesRead := bytesRead + nRet;
        }
        if bytesRead >= size + padding {
          return Success;
        }
      }
      return Blocked;
    }

    /** The read() of one pass: into the caller's buffer until that is full, then into
        the three-byte padding buffer. */
    method ReadChunk(buffer: array<bv8>, size: nat, padding: nat, bytesRead: nat, ret: int,
                     ghost before: seq<bv8>, ghost stream: seq<bv8>) returns (nRet: int)
      requires size <= buffer.Length && bytesRead <= size + padding && bytesRead <= |stream|
      requires incoming == stream[bytesRead..] && Landed(buffer[..], before, stream, Min(bytesRead, size))
      modifies this`incoming, buffer
      ensures nRet == Got(size, padding, bytesRead, |stream| - bytesRead, ret)
      ensures var n := if nRet > 0 then bytesRead + nRet else bytesRead;
              n <= |stream| && n <= size + padding && incoming == stream[n..] &&
              Landed(buffer[..], before, stream, Min(n, size))
    {
      nRet := 0;
      if bytesRead < size {
        nRet := Granted(ret, Min(size - bytesRead, MAX_READ), |incoming|);
        forall i | 0 <= i < nRet {
          buffer[bytesRead + i] := incoming[i];
        }
      } else if bytesRead < size + padding {
        var paddingBufferSize := 3;
        nRet := Granted(ret, Min(size + padding - bytesRead, paddingBufferSize), |incoming|);
      }
      if nRet > 0 {
        incoming := incoming[nRet..];
      }
    }
  }
}
