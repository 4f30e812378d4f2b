/** The Sahara host of ks/sahara_protocol.c, as a state machine against an arbitrary
    target. One iteration of its main loop receives once and sends at most once, and is
    one `Exchange` of the trace; the theorems are about the traces of all runs. */
module Sahara {
  import opened Options
  import opened Bytes
  import opened MemoryDump
  import opened Numbers

  const HELLO_ID := 0x01
  const READ_DATA_ID := 0x03
  const END_IMAGE_TX_ID := 0x04
  const DONE_RESP_ID := 0x06
  const RESET_RESP_ID := 0x08
  const MEMORY_DEBUG_ID := 0x09
  const CMD_READY_ID := 0x0B

  const VERSION := 2
  const STATUS_SUCCESS := 0
  const NAK_INVALID_TARGET_PROTOCOL := 3

  const MODE_IMAGE_TX_PENDING := 0
  const MODE_IMAGE_TX_COMPLETE := 1
  const MODE_MEMORY_DEBUG := 2
  const MODE_LAST := 4

  const MAX_SAHARA_TX_BUFFER_SIZE := 0x100000

  // ------------------------------------------------------------------ messages

  /** The five words of a received command packet but its length; which of them are an
      image id, an offset, a length, a status or an address depends on `id`. */
  datatype Command = Command(id: nat, word2: nat, word3: nat, word4: nat)

  datatype Got =
    | Hello(version: nat, mode: nat)
    | NotHello(id: nat)
    | Asked(command: Command)
    | TableData
    | RegionData(arrived: bool)
    | DoneWait(id: nat, status: nat)    // what arrives after DONE, whatever it is
    | ResetWait(id: nat)                // what arrives after RESET

  datatype Msg =
    | HelloResp(status: nat, mode: nat)
    | Raw(data: seq<bv8>)
    | Done
    | Reset
    | MemoryRead(read: Read)
    | SwitchMode(mode: nat)
    | CmdExec   // the CMD_EXEC exchange, when all of it succeeds

  /** One iteration: what was received, and what was then handed to tx_data. */
  datatype Exchange = Exchange(got: Got, sent: Option<Msg>)

  // --------------------------------------------------------------- environment

  datatype File = File(bytes: seq<bv8>, regular: bool)

  datatype Config = Config(mode: nat, memdebugImage: int, images: nat -> Option<File>)

  type Stream = nat -> bv8

  /** What one iteration meets: the bytes that arrive, unless rx_data fails, and the
      results of the other calls. `newMemory` is what newly allocated memory holds. */
  datatype Env = Env(rx: Option<Stream>, txOk: bool, openOk: bool, readOk: bool, cmdOk: bool, dirOk: bool,
                     io: Io, newMemory: Stream)

  function Word(rx: Stream, k: nat): nat {
    FromLe([rx(4 * k), rx(4 * k + 1), rx(4 * k + 2), rx(4 * k + 3)])
  }

  /** A word of a packet is the number the target put there, least significant byte first. */
  lemma {:induction false} WordRoundTrip(rx: Stream, k: nat, n: nat)
    requires n < ADDRESS_SPACE && forall i | 0 <= i < 4 :: rx(4 * k + i) == Le32(n)[i]
    ensures Word(rx, k) == n
  {
    hide Le32, FromLe;
    assert rx(4 * k + 0) == rx(4 * k);
    assert [rx(4 * k), rx(4 * k + 1), rx(4 * k + 2), rx(4 * k + 3)] == Le32(n);
    Le32RoundTrip(n);
  }

  function FirstBytes(rx: Stream, n: nat): (s: seq<bv8>)
    ensures |s| == n
  {
    seq(n, i requires 0 <= i => rx(i))
  }

  // --------------------------------------------------------------------- state

  datatype State = WaitHello | WaitCommand | WaitResetResp | WaitDoneResp | WaitMemoryTable | WaitMemoryRegion

  datatype Host = Host(
    state: State,
    helloMode: nat,        // helloRx.mode
    armed: bool,           // cmds_executed == EFAILED
    started: bool,         // started_raw_image_transfer == SUCCESS
    file: Option<File>,    // id_mapped_file
    fd: Option<File>,
    rawBuffer: seq<bv8>,   // sahara_raw_tx_buffer
    tableLength: nat,      // memory_table_length
    dump: DumpState,
    trace: seq<Exchange>)

  datatype Outcome = Running | Success | Failed | Exit5

  predicate WellFormed(h: Host) {
    && |h.rawBuffer| >= MAX_SAHARA_TX_BUFFER_SIZE
    && (h.state == WaitMemoryRegion ==> 0 <= h.dump.num < |h.dump.table|)
  }

  function Start(cfg: Config, rawBuffer: seq<bv8>, disk: Disk): Host {
    Host(WaitHello, cfg.mode, cfg.memdebugImage == -1, false, None, None, rawBuffer, 0,
         DumpState([], -1, 0, 0, None, disk, []), [])
  }

  // ----------------------------------------------------------- one iteration

  function Log(h: Host, got: Got, sent: Option<Msg>): Host {
    h.(trace := h.trace + [Exchange(got, sent)])
  }

  /** Answer and move on, unless the answer cannot be sent. */
  function Respond(h: Host, got: Got, msg: Msg, next: State, env: Env): (Host, Outcome) {
    var h1 := Log(h, got, Some(msg));
    if env.txOk then (h1.(state := next), Running) else (h1, Failed)
  }

  function ReplyMode(h: Host, cfg: Config, mode: nat): nat {
    if cfg.mode < MODE_LAST && h.armed then cfg.mode else mode
  }

  function OnHello(h: Host, cfg: Config, rx: Stream, env: Env): (Host, Outcome) {
    var h1 := h.(started := false);
    var command, version, mode := Word(rx, 0), Word(rx, 2), Word(rx, 5);
    if command != HELLO_ID then Respond(h1, NotHello(command), Reset, WaitResetResp, env)
    else
      var reply := ReplyMode(h, cfg, mode);
      var status := if version == VERSION then STATUS_SUCCESS else NAK_INVALID_TARGET_PROTOCOL;
      Respond(h1.(helloMode := reply, armed := h.armed && cfg.mode >= MODE_LAST),
              Hello(version, mode), HelloResp(status, reply), WaitCommand, env)
  }

  predicate Rearms(c: Command, cfg: Config) {
    c.word2 == cfg.memdebugImage % ADDRESS_SPACE
  }

  function OnEndImage(h: Host, cfg: Config, c: Command, env: Env): (Host, Outcome) {
    if c.word3 == STATUS_SUCCESS then
      (Log(h, Asked(c), Some(Done)).(armed := h.armed || Rearms(c, cfg), state := WaitDoneResp), Running)
    else Respond(h, Asked(c), Reset, WaitResetResp, env)
  }

  function OnMemoryDebug(h: Host, c: Command, env: Env): (Host, Outcome) {
    if !IsValidMemoryTable(c.word3) then Respond(h, Asked(c), Reset, WaitResetResp, env)
    else Respond(h.(tableLength := c.word3), Asked(c), MemoryRead(Read(c.word2, c.word3)), WaitMemoryTable, env)
  }

  function OnCmdReady(h: Host, c: Command, env: Env): (Host, Outcome) {
    if env.cmdOk then (Log(h, Asked(c), Some(CmdExec)).(state := WaitHello), Running)
    else Respond(h, Asked(c), Reset, WaitResetResp, env)
  }

  function OnCommand(h: Host, cfg: Config, c: Command, env: Env): (Host, Outcome)
    requires WellFormed(h)
  {
    if c.id == END_IMAGE_TX_ID then OnEndImage(h, cfg, c, env)
    else if c.id == READ_DATA_ID then OnReadData(h, cfg, c, env)
    else if c.id == MEMORY_DEBUG_ID then OnMemoryDebug(h, c, env)
    else if c.id == CMD_READY_ID then OnCmdReady(h, c, env)
    else if c.id == HELLO_ID then (Log(h, Asked(c), None).(state := WaitHello), Running)
    else Respond(h, Asked(c), Reset, WaitResetResp, env)
  }

  function OnReadData(h: Host, cfg: Config, c: Command, env: Env): (Host, Outcome)
    requires WellFormed(h)
  {
    if h.started then
      if h.file.Some? then StartImageTransfer(h, c, env) else (Log(h, Asked(c), None), Running)
    else
      var file := cfg.images(c.word2);
      if file.None? then (Log(h.(file := None), Asked(c), Some(Reset)).(state := WaitCommand), Running)
      else StartImageTransfer(h.(file := file, fd := if env.openOk then file else None, started := true), c, env)
  }

  /** realloc: what fits is kept, and what is new is whatever memory held. */
  function Resized(buffer: seq<bv8>, n: nat, newMemory: Stream): (s: seq<bv8>)
    ensures |s| == n
    ensures forall i | 0 <= i < n && i < |buffer| :: s[i] == buffer[i]
  {
    if n <= |buffer| then buffer[..n] else buffer + seq(n - |buffer|, i requires 0 <= i => newMemory(i))
  }

  /** The buffer a request of `n` bytes is read into. */
  function RawBuffer(buffer: seq<bv8>, n: nat, newMemory: Stream): (s: seq<bv8>)
    requires |buffer| >= MAX_SAHARA_TX_BUFFER_SIZE
    ensures |s| >= n && |s| >= MAX_SAHARA_TX_BUFFER_SIZE
  {
    if n > MAX_SAHARA_TX_BUFFER_SIZE then Resized(buffer, n, newMemory) else buffer
  }

  /** The bytes read() finds at `offset`, at most `n` of them. */
  function ReadAt(bytes: seq<bv8>, offset: nat, n: nat): (s: seq<bv8>)
    ensures |s| <= n
    ensures offset + n <= |bytes| ==> s == bytes[offset..offset + n]
  {
    if offset >= |bytes| then [] else bytes[offset..Min(offset + n, |bytes|)]
  }

  predicate ValidRequest(file: File, n: nat) {
    n != 0 && !(file.regular && n > |file.bytes|)
  }

  function StartImageTransfer(h: Host, c: Command, env: Env): (Host, Outcome)
    requires WellFormed(h)
  {
    var n := c.word4;
    if h.fd.None? || !ValidRequest(h.fd.value, n) then (Log(h, Asked(c), None), Failed)
    else
      var h1 := h.(rawBuffer := RawBuffer(h.rawBuffer, n, env.newMemory));
      if !env.readOk then (Log(h1, Asked(c), None), Failed)
      else
        var data := ReadAt(h.fd.value.bytes, c.word3, n);
        var h2 := h1.(rawBuffer := data + h1.rawBuffer[|data|..]);
        Respond(h2, Asked(c), Raw(h2.rawBuffer[..n]), h.state, env)
  }

  /** The request just made by the dump, if it made one. */
  function LastRead(d: DumpState): Option<Msg> {
    if d.trace != [] && d.trace[|d.trace| - 1].Requested? then Some(MemoryRead(d.trace[|d.trace| - 1].read)) else None
  }

  function AfterDump(h: Host, cfg: Config, got: Got, d: DumpState, rc: Rc, env: Env): (Host, Outcome) {
    var h1 := h.(dump := d);
    match rc
    case Fail => (Log(h1, got, None), Failed)
    case Continue => (Log(h1, got, LastRead(d)).(state := WaitMemoryRegion), Running)
    case Finished =>
      if cfg.mode != MODE_MEMORY_DEBUG then Respond(h1, got, SwitchMode(MODE_IMAGE_TX_PENDING), WaitHello, env)
      else Respond(h1, got, Reset, WaitResetResp, env)
  }

  lemma {:induction false} DumpBounds(d: DumpState, rx: Option<seq<bv8>>, table: seq<Region>, io: Io)
    ensures var (d', rc) := Enter(d, table, io);
            rc == Continue ==> 0 <= d'.num < |d'.table|
    ensures 0 <= d.num < |d.table| ==>
              var (d', rc) := Pass(d, rx, io);
              && (rc == Continue ==> 0 <= d'.num < |d'.table|)
              && (rc == Finished ==> d'.failures == 0)
  {
  }

  function OnTable(h: Host, cfg: Config, rx: Stream, env: Env): (r: (Host, Outcome))
    requires WellFormed(h)
    ensures r.1 == Running ==> WellFormed(r.0)
  {
    if !env.dirOk then (Log(h, TableData, None), Failed)
    else
      var table := TableOf(FirstBytes(rx, h.tableLength));
      var (d, rc) := Enter(h.dump, table, env.io);
      DumpBounds(h.dump, None, table, env.io);
      AfterDump(h, cfg, TableData, d, rc, env)
  }

  function OnRegion(h: Host, cfg: Config, env: Env): (r: (Host, Outcome))
    requires WellFormed(h) && h.state == WaitMemoryRegion
    ensures r.1 == Running ==> WellFormed(r.0)
  {
    var rx := if env.rx.Some? then Some(FirstBytes(env.rx.value, h.dump.pending)) else None;
    var (d, rc) := Pass(h.dump, rx, env.io);
    DumpBounds(h.dump, rx, [], env.io);
    AfterDump(h, cfg, RegionData(env.rx.Some?), d, rc, env)
  }

  function OnDoneResp(h: Host, rx: Stream): (Host, Outcome) {
    var status := Word(rx, 2);
    var h1 := Log(h, DoneWait(Word(rx, 0), status), None);
    if status == MODE_IMAGE_TX_PENDING then (h1.(state := WaitHello), Running)
    else if status == MODE_IMAGE_TX_COMPLETE then (h1, Success)
    else (h1, Failed)
  }

  function OnResetResp(h: Host, cfg: Config, rx: Stream): (Host, Outcome) {
    var command := Word(rx, 0);
    var h1 := Log(h, ResetWait(command), None);
    if command != RESET_RESP_ID then (h1, Running)
    else if cfg.mode != h.helloMode then (h1, Exit5)
    else (h1, Success)
  }

  function CommandOf(rx: Stream): Command {
    Command(Word(rx, 0), Word(rx, 2), Word(rx, 3), Word(rx, 4))
  }

  function Step(h: Host, cfg: Config, env: Env): (r: (Host, Outcome))
    requires WellFormed(h)
    ensures r.1 == Running ==> WellFormed(r.0)
  {
    if h.state == WaitMemoryRegion then OnRegion(h, cfg, env)
    else if env.rx.None? then (h, Failed)
    else
      match h.state
      case WaitHello => OnHello(h, cfg, env.rx.value, env)
      case WaitCommand => OnCommand(h, cfg, CommandOf(env.rx.value), env)
      case WaitResetResp => OnResetResp(h, cfg, env.rx.value)
      case WaitDoneResp => OnDoneResp(h, env.rx.value)
      case WaitMemoryTable => OnTable(h, cfg, env.rx.value, env)
  }

  function Run(h: Host, cfg: Config, envs: seq<Env>): (Host, Outcome)
    requires WellFormed(h)
    decreases envs
  {
    if envs == [] then (h, Running)
    else
      var (h1, outcome) := Step(h, cfg, envs[0]);
      if outcome != Running then (h1, outcome) else Run(h1, cfg, envs[1..])
  }

  // ------------------------------------------------------- what a trace determines

  function Front(trace: seq<Exchange>): seq<Exchange>
    requires trace != []
  {
    trace[..|trace| - 1]
  }

  function Last(trace: seq<Exchange>): Exchange
    requires trace != []
  {
    trace[|trace| - 1]
  }

  predicate EndsImage(got: Got) {
    got.Asked? && got.command.id == END_IMAGE_TX_ID && got.command.word3 == STATUS_SUCCESS
  }

  /** A packet received after DONE whose third word is IMAGE_TX_COMPLETE. */
  predicate SaysComplete(got: Got) {
    got.DoneWait? && got.status == MODE_IMAGE_TX_COMPLETE
  }

  predicate ReadsData(got: Got) {
    got.Asked? && got.command.id == READ_DATA_ID
  }

  function NextMode(mode: nat, x: Exchange): nat {
    match x.sent
    case Some(HelloResp(_, m)) => m
    case _ => mode
  }

  function NextSent(sent: Option<Msg>, x: Exchange): Option<Msg> {
    if x.sent.Some? then x.sent else sent
  }

  function NextArmed(armed: bool, x: Exchange, cfg: Config): bool {
    if x.got.Hello? then armed && cfg.mode >= MODE_LAST
    else armed || (EndsImage(x.got) && Rearms(x.got.command, cfg))
  }

  function NextServed(served: Option<File>, x: Exchange, cfg: Config): Option<File> {
    if x.got.Hello? || x.got.NotHello? then None
    else if ReadsData(x.got) && served.None? then cfg.images(x.got.command.word2)
    else served
  }

  /** The mode last answered in a HELLO_RESP; before any, the one asked for. */
  function LastMode(trace: seq<Exchange>, requested: nat): nat {
    if trace == [] then requested else NextMode(LastMode(Front(trace), requested), Last(trace))
  }

  function LastSent(trace: seq<Exchange>): Option<Msg> {
    if trace == [] then None else NextSent(LastSent(Front(trace)), Last(trace))
  }

  /** Does the next HELLO force the requested mode? Armed at the start unless a
      memory-debug image is named, and again whenever that image ends; each HELLO disarms. */
  function Armed(trace: seq<Exchange>, cfg: Config): bool {
    if trace == [] then cfg.memdebugImage == -1 else NextArmed(Armed(Front(trace), cfg), Last(trace), cfg)
  }

  /** The file being served: the one registered for the first registered id asked for
      since the host last waited for a HELLO. */
  function Served(trace: seq<Exchange>, cfg: Config): Option<File> {
    if trace == [] then None else NextServed(Served(Front(trace), cfg), Last(trace), cfg)
  }

  // -------------------------------------------------------------------- safety

  /** What READ_DATA is answered with when `file` is served: nothing, as the run ends, for
      an invalid request; else as many bytes as asked, which are the file's own whenever
      the file reaches that far. */
  ghost predicate ServedFrom(file: File, c: Command, sent: Option<Msg>) {
    && (sent.Some? ==>
          && ValidRequest(file, c.word4)
          && sent.value.Raw?
          && |sent.value.data| == c.word4
          && sent.value.data[..|ReadAt(file.bytes, c.word3, c.word4)|] == ReadAt(file.bytes, c.word3, c.word4)
          && (c.word3 + c.word4 <= |file.bytes| ==> sent.value.data == file.bytes[c.word3..c.word3 + c.word4]))
  }

  /** What is allowed of one exchange, when `armed` before it and `served` counting it. */
  ghost predicate Proper(armed: bool, served: Option<File>, x: Exchange, cfg: Config) {
    && (x.sent == Some(Done) <==> EndsImage(x.got))
    && (x.sent.Some? && x.sent.value.Raw? ==> ReadsData(x.got))
    && (x.sent.Some? && x.sent.value.HelloResp? ==> x.got.Hello?)
    && (x.got.Hello? ==>
          x.sent == Some(HelloResp(
            if x.got.version == VERSION then STATUS_SUCCESS else NAK_INVALID_TARGET_PROTOCOL,
            if cfg.mode < MODE_LAST && armed then cfg.mode else x.got.mode)))
    && (ReadsData(x.got) ==>
          if served.None? then x.sent == Some(Reset) else ServedFrom(served.value, x.got.command, x.sent))
  }

  ghost predicate Safe(trace: seq<Exchange>, cfg: Config) {
    forall i | 0 <= i < |trace| :: Proper(Armed(trace[..i], cfg), Served(trace[..i + 1], cfg), trace[i], cfg)
  }

  /** No READ_DATA has gone unanswered. */
  ghost predicate AllAnswered(trace: seq<Exchange>) {
    forall i | 0 <= i < |trace| && ReadsData(trace[i].got) :: trace[i].sent.Some?
  }

  /** How a run may end. SUCCESS needs a packet just after a DONE whose status word says that
      all images are complete, or a RESET_RESP when the mode last answered is the one asked
      for. */
  ghost predicate EndsWell(trace: seq<Exchange>, outcome: Outcome, cfg: Config) {
    match outcome
    case Success =>
      && trace != []
      && ((SaysComplete(Last(trace).got) && LastSent(trace) == Some(Done))
          || (Last(trace).got == ResetWait(RESET_RESP_ID) && LastSent(trace) == Some(Reset)
              && LastMode(trace, cfg.mode) == cfg.mode))
    case Exit5 =>
      && trace != [] && Last(trace).got == ResetWait(RESET_RESP_ID) && LastSent(trace) == Some(Reset)
      && LastMode(trace, cfg.mode) != cfg.mode
    case _ => true
  }

  // ------------------------------------------------------- the host's variables

  function ServedBy(h: Host): Option<File> {
    if h.started then h.file else None
  }

  /** The host's own variables are what its trace determines. */
  ghost predicate Recorded(h: Host, cfg: Config) {
    && h.helloMode == LastMode(h.trace, cfg.mode)
    && h.armed == Armed(h.trace, cfg)
    && ServedBy(h) == Served(h.trace, cfg)
    && (h.started ==> h.file.Some? && h.fd == h.file)
    && (h.state == WaitDoneResp ==> LastSent(h.trace) == Some(Done))
    && (h.state == WaitResetResp ==> LastSent(h.trace) == Some(Reset))
  }

  /** What one exchange owes, said of the variables alone. */
  ghost predicate Follows(h: Host, x: Exchange, h1: Host, outcome: Outcome, cfg: Config) {
    && h1.trace == h.trace + [x]
    && Proper(h.armed, NextServed(ServedBy(h), x, cfg), x, cfg)
    && (outcome != Failed && ReadsData(x.got) ==> x.sent.Some?)
    && match outcome
       case Running =>
         && h1.helloMode == NextMode(h.helloMode, x)
         && h1.armed == NextArmed(h.armed, x, cfg)
         && ServedBy(h1) == NextServed(ServedBy(h), x, cfg)
         && (h1.started ==> h1.file.Some? && h1.fd == h1.file)
         && (h1.state == WaitDoneResp ==> x.sent == Some(Done))
         && (h1.state == WaitResetResp ==> x.sent == Some(Reset) || (x.sent.None? && h.state == WaitResetResp))
       case Success =>
         x.sent.None? &&
         ((h.state == WaitDoneResp && SaysComplete(x.got))
          || (h.state == WaitResetResp && x.got == ResetWait(RESET_RESP_ID) && h.helloMode == cfg.mode))
       case Exit5 =>
         x.sent.None? && h.state == WaitResetResp && x.got == ResetWait(RESET_RESP_ID) && h.helloMode != cfg.mode
       case Failed => true
  }

  lemma {:induction false} HelloFollows(h: Host, cfg: Config, rx: Stream, env: Env)
    ensures var (h1, outcome) := OnHello(h, cfg, rx, env);
            h1.trace != [] && Follows(h, Last(h1.trace), h1, outcome, cfg)
  {
    hide Word;
  }

  lemma {:induction false} TransferFollows(h: Host, cfg: Config, c: Command, env: Env)
    requires WellFormed(h) && h.state == WaitCommand && h.started && h.file.Some? && c.id == READ_DATA_ID
    requires h.fd == h.file || h.fd == None
    ensures var (h1, outcome) := StartImageTransfer(h, c, env);
            && h1.trace != []
            && var x := Last(h1.trace);
            && h1.trace == h.trace + [x] && x.got == Asked(c) && (x.sent.None? || x.sent.value.Raw?)
            && ServedFrom(h.file.value, c, x.sent)
            && (outcome == Running || outcome == Failed)
            && (outcome == Running ==>
                  && h.fd == h.file && x.sent.Some?
                  && h1 == h.(trace := h1.trace, rawBuffer := h1.rawBuffer))
  {
    hide RawBuffer, ReadAt, ValidRequest;
    var n := c.word4;
    if h.fd.None? || !ValidRequest(h.fd.value, n) || !env.readOk {
      LastLogged(h.trace, Exchange(Asked(c), None));
    } else {
      var data, buffer := ReadAt(h.fd.value.bytes, c.word3, n), RawBuffer(h.rawBuffer, n, env.newMemory);
      LastLogged(h.trace, Exchange(Asked(c), Some(Raw((data + buffer[|data|..])[..n]))));
    }
  }

  lemma {:induction false} LastLogged(trace: seq<Exchange>, x: Exchange)
    ensures trace + [x] != [] && Last(trace + [x]) == x
  {
  }

  lemma {:induction false} ReadDataFollows(h: Host, cfg: Config, c: Command, env: Env)
    requires WellFormed(h) && h.state == WaitCommand && c.id == READ_DATA_ID
    requires h.started ==> h.file.Some? && h.fd == h.file
    ensures var (h1, outcome) := OnReadData(h, cfg, c, env);
            h1.trace != [] && Follows(h, Last(h1.trace), h1, outcome, cfg)
  {
    hide StartImageTransfer, ServedFrom;
    if h.started {
      TransferFollows(h, cfg, c, env);
    } else {
      var file := cfg.images(c.word2);
      if file.Some? {
        var h2 := h.(file := file, fd := if env.openOk then file else None, started := true);
        TransferFollows(h2, cfg, c, env);
      }
    }
  }

  lemma {:induction false} EndImageFollows(h: Host, cfg: Config, c: Command, env: Env)
    requires c.id == END_IMAGE_TX_ID && (h.started ==> h.file.Some? && h.fd == h.file)
    ensures var (h1, outcome) := OnEndImage(h, cfg, c, env);
            h1.trace != [] && Follows(h, Last(h1.trace), h1, outcome, cfg)
  {
  }

  lemma {:induction false} MemoryDebugFollows(h: Host, cfg: Config, c: Command, env: Env)
    requires c.id == MEMORY_DEBUG_ID && (h.started ==> h.file.Some? && h.fd == h.file)
    ensures var (h1, outcome) := OnMemoryDebug(h, c, env);
            h1.trace != [] && Follows(h, Last(h1.trace), h1, outcome, cfg)
  {
    hide IsValidMemoryTable;
  }

  lemma {:induction false} CommandFollows(h: Host, cfg: Config, c: Command, env: Env)
    requires WellFormed(h) && h.state == WaitCommand
    requires h.started ==> h.file.Some? && h.fd == h.file
    ensures var (h1, outcome) := OnCommand(h, cfg, c, env);
            h1.trace != [] && Follows(h, Last(h1.trace), h1, outcome, cfg)
  {
    hide OnReadData, ServedFrom, OnMemoryDebug, OnEndImage;
    if c.id == READ_DATA_ID {
      ReadDataFollows(h, cfg, c, env);
    } else if c.id == END_IMAGE_TX_ID {
      EndImageFollows(h, cfg, c, env);
    } else if c.id == MEMORY_DEBUG_ID {
      MemoryDebugFollows(h, cfg, c, env);
    }
  }

  lemma {:induction false} AsksForMemory(d: DumpState)
    ensures LastRead(d).Some? ==> LastRead(d).value.MemoryRead?
  {
  }

  /** An exchange of the dump phase concerns none of the variables that safety is about. */
  lemma {:induction false} DumpExchangeFollows(h: Host, x: Exchange, h1: Host, outcome: Outcome, cfg: Config)
    requires x.got.TableData? || x.got.RegionData?
    requires x.sent.Some? ==> x.sent.value.MemoryRead? || x.sent.value.SwitchMode? || x.sent.value.Reset?
    requires h.started ==> h.file.Some? && h.fd == h.file
    requires h1 == h.(trace := h.trace + [x], dump := h1.dump, state := h1.state)
    requires outcome == Failed || (outcome == Running && h1.state != WaitDoneResp)
    requires outcome == Running && h1.state == WaitResetResp ==> x.sent == Some(Reset)
    ensures Follows(h, x, h1, outcome, cfg)
  {
    hide ServedFrom, Rearms;
  }

  lemma {:induction false} AfterDumpFollows(h: Host, cfg: Config, got: Got, d: DumpState, rc: Rc, env: Env)
    requires got.TableData? || got.RegionData?
    requires h.started ==> h.file.Some? && h.fd == h.file
    ensures var (h1, outcome) := AfterDump(h, cfg, got, d, rc, env);
            h1.trace != [] && Follows(h, Last(h1.trace), h1, outcome, cfg)
  {
    hide LastRead, Follows;
    AsksForMemory(d);
    var (h1, outcome) := AfterDump(h, cfg, got, d, rc, env);
    var x := Exchange(got, match rc
                           case Fail => None
                           case Continue => LastRead(d)
                           case Finished =>
                             Some(if cfg.mode != MODE_MEMORY_DEBUG then SwitchMode(MODE_IMAGE_TX_PENDING) else Reset));
    assert h1.trace == h.trace + [x];
    DumpExchangeFollows(h, x, h1, outcome, cfg);
  }

  lemma {:induction false} DoneRespFollows(h: Host, cfg: Config, rx: Stream)
    requires h.state == WaitDoneResp && (h.started ==> h.file.Some? && h.fd == h.file)
    ensures var (h1, outcome) := OnDoneResp(h, rx);
            h1.trace != [] && Follows(h, Last(h1.trace), h1, outcome, cfg)
  {
    hide Word, ServedFrom;
  }

  lemma {:induction false} ResetRespFollows(h: Host, cfg: Config, rx: Stream)
    requires h.state == WaitResetResp && (h.started ==> h.file.Some? && h.fd == h.file)
    ensures var (h1, outcome) := OnResetResp(h, cfg, rx);
            h1.trace != [] && Follows(h, Last(h1.trace), h1, outcome, cfg)
  {
    hide Word, ServedFrom;
  }

  lemma {:induction false} TableFollows(h: Host, cfg: Config, rx: Stream, env: Env)
    requires WellFormed(h) && (h.started ==> h.file.Some? && h.fd == h.file)
    ensures var (h1, outcome) := OnTable(h, cfg, rx, env);
            h1.trace != [] && Follows(h, Last(h1.trace), h1, outcome, cfg)
  {
    hide Enter, TableOf, AfterDump, Follows;
    if !env.dirOk {
      DumpExchangeFollows(h, Exchange(TableData, None), Log(h, TableData, None), Failed, cfg);
    }
    var (d, rc) := Enter(h.dump, TableOf(FirstBytes(rx, h.tableLength)), env.io);
    AfterDumpFollows(h, cfg, TableData, d, rc, env);
  }

  /** Every step makes one exchange, and that is as owed; only a lost packet makes none. */
  lemma {:induction false} StepFollows(h: Host, cfg: Config, env: Env)
    requires WellFormed(h) && (h.started ==> h.file.Some? && h.fd == h.file)
    ensures var (h1, outcome) := Step(h, cfg, env);
            if env.rx.None? && h.state != WaitMemoryRegion then h1 == h && outcome == Failed
            else h1.trace != [] && Follows(h, Last(h1.trace), h1, outcome, cfg)
  {
    hide OnHello, OnCommand, OnTable, OnDoneResp, OnResetResp, AfterDump, CommandOf, Pass, Follows;
    if h.state == WaitMemoryRegion {
      var rx := if env.rx.Some? then Some(FirstBytes(env.rx.value, h.dump.pending)) else None;
      var (d, rc) := Pass(h.dump, rx, env.io);
      AfterDumpFollows(h, cfg, RegionData(env.rx.Some?), d, rc, env);
    } else if env.rx.Some? {
      match h.state {
        case WaitHello => HelloFollows(h, cfg, env.rx.value, env);
        case WaitCommand => CommandFollows(h, cfg, CommandOf(env.rx.value), env);
        case WaitResetResp => ResetRespFollows(h, cfg, env.rx.value);
        case WaitDoneResp => DoneRespFollows(h, cfg, env.rx.value);
        case WaitMemoryTable => TableFollows(h, cfg, env.rx.value, env);
      }
    }
  }

  // ------------------------------------------------------------------ all runs

  ghost predicate RunInv(h: Host, cfg: Config) {
    && WellFormed(h) && Recorded(h, cfg) && Safe(h.trace, cfg) && AllAnswered(h.trace)
    && (h.state != WaitMemoryRegion ==> h.dump.failures == 0)
  }

  lemma {:induction false} TraceGrows(trace: seq<Exchange>, x: Exchange, cfg: Config)
    ensures LastMode(trace + [x], cfg.mode) == NextMode(LastMode(trace, cfg.mode), x)
    ensures LastSent(trace + [x]) == NextSent(LastSent(trace), x)
    ensures Armed(trace + [x], cfg) == NextArmed(Armed(trace, cfg), x, cfg)
    ensures Served(trace + [x], cfg) == NextServed(Served(trace, cfg), x, cfg)
  {
    assert Front(trace + [x]) == trace && Last(trace + [x]) == x;
  }

  lemma {:induction false} SafeGrows(trace: seq<Exchange>, x: Exchange, cfg: Config)
    requires Safe(trace, cfg) && Proper(Armed(trace, cfg), NextServed(Served(trace, cfg), x, cfg), x, cfg)
    ensures Safe(trace + [x], cfg)
  {
    hide Proper, Armed, Served, NextArmed, NextServed;
    var t := trace + [x];
    forall i | 0 <= i < |t| ensures Proper(Armed(t[..i], cfg), Served(t[..i + 1], cfg), t[i], cfg) {
      assert t[..i] == trace[..i];
      if i == |trace| {
        assert trace[..i] == trace && t[..i + 1] == t;
        TraceGrows(trace, x, cfg);
      } else {
        assert t[..i + 1] == trace[..i + 1];
      }
    }
  }

  lemma {:induction false} FollowsKeeps(h: Host, x: Exchange, h1: Host, outcome: Outcome, cfg: Config)
    requires Recorded(h, cfg) && Safe(h.trace, cfg) && AllAnswered(h.trace) && Follows(h, x, h1, outcome, cfg)
    ensures Safe(h1.trace, cfg) && EndsWell(h1.trace, outcome, cfg) && (outcome != Failed ==> AllAnswered(h1.trace))
    ensures outcome == Running ==> Recorded(h1, cfg)
  {
    hide Proper, Safe, LastMode, LastSent, Armed, Served, NextArmed, NextServed;
    TraceGrows(h.trace, x, cfg);
    SafeGrows(h.trace, x, cfg);
  }

  /** Nothing but the dump phase touches the dump. */
  lemma {:induction false} CommandLeavesDump(h: Host, cfg: Config, c: Command, env: Env)
    requires WellFormed(h)
    ensures OnCommand(h, cfg, c, env).0.dump == h.dump
  {
    hide OnReadData, ReadAt, RawBuffer, ValidRequest, IsValidMemoryTable, Rearms;
    if c.id == READ_DATA_ID {
      ReadDataLeavesDump(h, cfg, c, env);
    }
  }

  lemma {:induction false} ReadDataLeavesDump(h: Host, cfg: Config, c: Command, env: Env)
    requires WellFormed(h)
    ensures OnReadData(h, cfg, c, env).0.dump == h.dump
  {
    hide ReadAt, RawBuffer, ValidRequest;
  }

  /** Outside the region phase no failed receive is held against the target. */
  lemma {:induction false} StepFailures(h: Host, cfg: Config, env: Env)
    requires WellFormed(h) && (h.state != WaitMemoryRegion ==> h.dump.failures == 0)
    ensures var (h1, outcome) := Step(h, cfg, env);
            outcome == Running && h1.state != WaitMemoryRegion ==> h1.dump.failures == 0
  {
    hide Pass, Word, TableOf, OnCommand, CommandOf, LastRead;
    if h.state == WaitMemoryRegion {
      var rx := if env.rx.Some? then Some(FirstBytes(env.rx.value, h.dump.pending)) else None;
      DumpBounds(h.dump, rx, [], env.io);
    } else if h.state == WaitCommand && env.rx.Some? {
      CommandLeavesDump(h, cfg, CommandOf(env.rx.value), env);
    }
  }

  lemma {:induction false} StepKeepsInv(h: Host, cfg: Config, env: Env)
    requires RunInv(h, cfg)
    ensures var (h1, outcome) := Step(h, cfg, env);
            && Safe(h1.trace, cfg) && EndsWell(h1.trace, outcome, cfg)
            && (outcome != Failed ==> AllAnswered(h1.trace))
            && (outcome == Running ==> RunInv(h1, cfg))
  {
    hide Step, WellFormed, Safe, Follows, LastMode, LastSent, Armed, Served;
    var (h1, outcome) := Step(h, cfg, env);
    StepFollows(h, cfg, env);
    StepFailures(h, cfg, env);
    if env.rx.Some? || h.state == WaitMemoryRegion {
      FollowsKeeps(h, Last(h1.trace), h1, outcome, cfg);
    }
  }

  lemma {:induction false} RunKeepsInv(h: Host, cfg: Config, envs: seq<Env>)
    requires RunInv(h, cfg)
    ensures var (h1, outcome) := Run(h, cfg, envs);
            && Safe(h1.trace, cfg) && EndsWell(h1.trace, outcome, cfg)
            && (outcome != Failed ==> AllAnswered(h1.trace))
            && (outcome == Running ==> RunInv(h1, cfg))
    decreases envs
  {
    hide Step, WellFormed, Recorded, Safe, AllAnswered;
    if envs != [] {
      StepKeepsInv(h, cfg, envs[0]);
      var (h1, outcome) := Step(h, cfg, envs[0]);
      if outcome == Running {
        RunKeepsInv(h1, cfg, envs[1..]);
      }
    }
  }

  /** Every run, of any length, against any target, is safe. */
  lemma {:induction false} RunSafety(cfg: Config, rawBuffer: seq<bv8>, disk: Disk, envs: seq<Env>)
    requires |rawBuffer| == MAX_SAHARA_TX_BUFFER_SIZE
    ensures var (h, outcome) := Run(Start(cfg, rawBuffer, disk), cfg, envs);
            && Safe(h.trace, cfg) && EndsWell(h.trace, outcome, cfg)
            && (outcome != Failed ==> AllAnswered(h.trace))
  {
    RunKeepsInv(Start(cfg, rawBuffer, disk), cfg, envs);
  }

  // ---------------------------------------------------------- ending on DONE_RESP

  predicate IsDoneResp(got: Got) {
    got.DoneWait? && got.id == DONE_RESP_ID
  }

  /** While the host waits for DONE_RESP it succeeds exactly when the third word of whatever
      arrives is IMAGE_TX_COMPLETE. So it succeeds on a DONE_RESP exactly when the first word
      is that packet's id as well, which the host does not look at. */
  lemma {:induction false} SuccessAfterDone(h: Host, cfg: Config, env: Env)
    requires WellFormed(h) && h.state == WaitDoneResp
    ensures var (h1, outcome) := Step(h, cfg, env);
            && (outcome == Success <==> env.rx.Some? && Word(env.rx.value, 2) == MODE_IMAGE_TX_COMPLETE)
            && (outcome == Success ==>
                  (h1.trace != [] && (IsDoneResp(Last(h1.trace).got) <==> Word(env.rx.value, 0) == DONE_RESP_ID)))
  {
    hide Word;
  }

  /** The bytes of a packet of words below 2^32. */
  function Packet(words: seq<nat>): Stream
    requires forall w | w in words :: w < ADDRESS_SPACE
  {
    (i: nat) => if i / 4 < |words| then Le32(words[i / 4])[i % 4] else 0
  }

  lemma {:induction false} PacketWords(words: seq<nat>, k: nat)
    requires k < |words| && forall w | w in words :: w < ADDRESS_SPACE
    ensures Word(Packet(words), k) == words[k]
  {
    hide Le32, Word;
    assert words[k] in words;
    forall i | 0 <= i < 4 ensures Packet(words)(4 * k + i) == Le32(words[k])[i] {
      assert (4 * k + i) / 4 == k && (4 * k + i) % 4 == i;
    }
    WordRoundTrip(Packet(words), k, words[k]);
  }

  /** An iteration in which a packet arrives and every call of the host succeeds. */
  function Arrives(words: seq<nat>): Env
    requires forall w | w in words :: w < ADDRESS_SPACE
  {
    Env(Some(Packet(words)), true, true, true, true, true, Io(MAXMEMREAD, true, true, true), (i: nat) => 0)
  }

  lemma {:induction false} ToDoneWait(cfg: Config, rawBuffer: seq<bv8>, disk: Disk)
    requires |rawBuffer| == MAX_SAHARA_TX_BUFFER_SIZE
    ensures var (h, outcome) := Run(Start(cfg, rawBuffer, disk), cfg,
                                    [Arrives([HELLO_ID, 48, VERSION, VERSION, 0, 0]), Arrives([END_IMAGE_TX_ID, 16, 7, 0])]);
            outcome == Running && WellFormed(h) && h.state == WaitDoneResp
  {
    hide Word, Packet, ReplyMode, Rearms;
    var hello, end := [HELLO_ID, 48, VERSION, VERSION, 0, 0], [END_IMAGE_TX_ID, 16, 7, 0];
    var envs := [Arrives(hello), Arrives(end)];
    PacketWords(hello, 0);
    PacketWords(end, 0);
    PacketWords(end, 3);
    var h0 := Start(cfg, rawBuffer, disk);
    var (h1, o1) := Step(h0, cfg, envs[0]);
    assert o1 == Running && h1.state == WaitCommand;
    var (h2, o2) := Step(h1, cfg, envs[1]);
    assert o2 == Running && h2.state == WaitDoneResp;
    assert envs[1..] == [envs[1]] && envs[1..][1..] == [];
    assert Run(h2, cfg, []) == (h2, Running);
    assert Run(h1, cfg, [envs[1]]) == (h2, Running) by { assert [envs[1]][1..] == []; }
  }

  lemma {:induction false} RunThen(h: Host, cfg: Config, envs: seq<Env>, last: Env)
    requires WellFormed(h) && Run(h, cfg, envs).1 == Running
    ensures WellFormed(Run(h, cfg, envs).0)
    ensures Run(h, cfg, envs + [last]) == Step(Run(h, cfg, envs).0, cfg, last)
    decreases envs
  {
    hide Step, WellFormed;
    if envs == [] {
      assert [] + [last] == [last] && [last][1..] == [];
    } else {
      assert (envs + [last])[0] == envs[0] && (envs + [last])[1..] == envs[1..] + [last];
      RunThen(Step(h, cfg, envs[0]).0, cfg, envs[1..], last);
    }
  }

  /** A run, whatever the configuration, that returns SUCCESS without a DONE_RESP: HELLO,
      END_IMAGE_TX, and then a READ_DATA whose image id is 1. */
  lemma {:induction false} SuccessWithoutDoneResp(cfg: Config, rawBuffer: seq<bv8>, disk: Disk)
    requires |rawBuffer| == MAX_SAHARA_TX_BUFFER_SIZE
    ensures var (h, outcome) := Run(Start(cfg, rawBuffer, disk), cfg,
                                    [Arrives([HELLO_ID, 48, VERSION, VERSION, 0, 0]), Arrives([END_IMAGE_TX_ID, 16, 7, 0])] +
                                    [Arrives([READ_DATA_ID, 20, 1, 0, 64])]);
            && outcome == Success && h.trace != []
            && Last(h.trace).got == DoneWait(READ_DATA_ID, MODE_IMAGE_TX_COMPLETE) && !IsDoneResp(Last(h.trace).got)
  {
    hide Run, Word, Packet;
    var envs := [Arrives([HELLO_ID, 48, VERSION, VERSION, 0, 0]), Arrives([END_IMAGE_TX_ID, 16, 7, 0])];
    var last := [READ_DATA_ID, 20, 1, 0, 64];
    ToDoneWait(cfg, rawBuffer, disk);
    RunThen(Start(cfg, rawBuffer, disk), cfg, envs, Arrives(last));
    PacketWords(last, 0);
    PacketWords(last, 2);
  }

  // --------------------------------------------------------- the image service

  /** What goes out for a request of `n` bytes at `offset`: the file's bytes as far as it
      reaches, then what the buffer holds behind them. */
  function AnswerBytes(bytes: seq<bv8>, offset: nat, n: nat, buffer: seq<bv8>, newMemory: Stream): (s: seq<bv8>)
    requires |buffer| >= MAX_SAHARA_TX_BUFFER_SIZE
    ensures |s| == n
  {
    var data := ReadAt(bytes, offset, n);
    data + RawBuffer(buffer, n, newMemory)[|data|..n]
  }

  /** READ_DATA while a file is served, when the host's own calls succeed: a request the
      host holds valid is answered, with these bytes, and the run goes on; any other ends it. */
  lemma {:induction false} ReadDataAnswer(h: Host, cfg: Config, c: Command, env: Env)
    requires WellFormed(h) && h.started && h.file.Some? && h.fd == h.file
    requires c.id == READ_DATA_ID && env.readOk && env.txOk
    ensures var (h1, outcome) := OnCommand(h, cfg, c, env);
            var answer := AnswerBytes(h.file.value.bytes, c.word3, c.word4, h.rawBuffer, env.newMemory);
            && (outcome == Running <==> ValidRequest(h.file.value, c.word4))
            && (outcome == Running ==> h1.trace == h.trace + [Exchange(Asked(c), Some(Raw(answer)))])
  {
    hide ReadAt, RawBuffer;
    var n := c.word4;
    var data, buffer := ReadAt(h.file.value.bytes, c.word3, n), RawBuffer(h.rawBuffer, n, env.newMemory);
    assert (data + buffer[|data|..])[..n] == data + buffer[|data|..n];
  }

  /** The answer depends on nothing but the file exactly when the request lies within it;
      and then it is those bytes. */
  lemma {:induction false} AnswerIndependent(bytes: seq<bv8>, offset: nat, n: nat)
    requires n > 0
    ensures (forall b0: seq<bv8>, b1: seq<bv8>, m0: Stream, m1: Stream |
               |b0| >= MAX_SAHARA_TX_BUFFER_SIZE && |b1| >= MAX_SAHARA_TX_BUFFER_SIZE ::
               AnswerBytes(bytes, offset, n, b0, m0) == AnswerBytes(bytes, offset, n, b1, m1))
            <==> offset + n <= |bytes|
    ensures offset + n <= |bytes| ==>
              forall b: seq<bv8>, m: Stream | |b| >= MAX_SAHARA_TX_BUFFER_SIZE ::
                AnswerBytes(bytes, offset, n, b, m) == bytes[offset..offset + n]
  {
    if offset + n > |bytes| {
      var size := if n > MAX_SAHARA_TX_BUFFER_SIZE then n else MAX_SAHARA_TX_BUFFER_SIZE;
      var b0, b1 := seq(size, _ => 0), seq(size, _ => 1);
      var m: Stream := (i: nat) => 0;
      LastByteIsBuffer(bytes, offset, n, b0, m);
      LastByteIsBuffer(bytes, offset, n, b1, m);
      assert AnswerBytes(bytes, offset, n, b0, m)[n - 1] != AnswerBytes(bytes, offset, n, b1, m)[n - 1];
    } else {
      forall b: seq<bv8>, m: Stream | |b| >= MAX_SAHARA_TX_BUFFER_SIZE
        ensures AnswerBytes(bytes, offset, n, b, m) == bytes[offset..offset + n]
      {
        InRangeAnswer(bytes, offset, n, b, m);
      }
    }
  }

  lemma {:induction false} LastByteIsBuffer(bytes: seq<bv8>, offset: nat, n: nat, buffer: seq<bv8>, newMemory: Stream)
    requires n > 0 && offset + n > |bytes| && |buffer| >= MAX_SAHARA_TX_BUFFER_SIZE && |buffer| >= n
    ensures AnswerBytes(bytes, offset, n, buffer, newMemory)[n - 1] == buffer[n - 1]
  {
    var data := ReadAt(bytes, offset, n);
    assert |data| < n && RawBuffer(buffer, n, newMemory)[n - 1] == buffer[n - 1];
  }

  lemma {:induction false} InRangeAnswer(bytes: seq<bv8>, offset: nat, n: nat, buffer: seq<bv8>, newMemory: Stream)
    requires offset + n <= |bytes| && |buffer| >= MAX_SAHARA_TX_BUFFER_SIZE
    ensures AnswerBytes(bytes, offset, n, buffer, newMemory) == bytes[offset..offset + n]
  {
    hide RawBuffer, ReadAt;
    var data := ReadAt(bytes, offset, n);
    assert |data| == n && RawBuffer(buffer, n, newMemory)[n..n] == [];
  }

  /** A whole run that does so, for every file of every configuration: after HELLO, a request
      that begins at or past the end of the file is answered with the front of the buffer. */
  lemma {:induction false} StaleBytesSent(cfg: Config, rawBuffer: seq<bv8>, disk: Disk, id: nat, offset: nat, n: nat)
    requires |rawBuffer| == MAX_SAHARA_TX_BUFFER_SIZE
    requires id < ADDRESS_SPACE && offset < ADDRESS_SPACE && cfg.images(id).Some?
    requires |cfg.images(id).value.bytes| <= offset && 0 < n <= MAX_SAHARA_TX_BUFFER_SIZE
    requires n <= |cfg.images(id).value.bytes|
    ensures var (h, outcome) := Run(Start(cfg, rawBuffer, disk), cfg,
                                    [Arrives([HELLO_ID, 48, VERSION, VERSION, 0, 0])] +
                                    [Arrives([READ_DATA_ID, 20, id, offset, n])]);
            && outcome == Running && h.trace != []
            && Last(h.trace) == Exchange(Asked(Command(READ_DATA_ID, id, offset, n)), Some(Raw(rawBuffer[..n])))
  {
    hide Run, Word, Packet, ReplyMode;
    var hello, ask := [HELLO_ID, 48, VERSION, VERSION, 0, 0], [READ_DATA_ID, 20, id, offset, n];
    var h0 := Start(cfg, rawBuffer, disk);
    PacketWords(hello, 0);
    var h1 := Step(h0, cfg, Arrives(hello)).0;
    OneRun(h0, cfg, Arrives(hello));
    RunThen(h0, cfg, [Arrives(hello)], Arrives(ask));
    PacketWords(ask, 0);
    PacketWords(ask, 2);
    PacketWords(ask, 3);
    PacketWords(ask, 4);
    assert h1.state == WaitCommand && h1.rawBuffer == rawBuffer && !h1.started;
    assert [] + rawBuffer[0..] == rawBuffer;
  }

  lemma {:induction false} OneRun(h: Host, cfg: Config, env: Env)
    requires WellFormed(h)
    ensures Run(h, cfg, [env]) == Step(h, cfg, env)
  {
    hide Step, WellFormed;
    assert [env][1..] == [];
  }

  /** The raw bytes of a stretch of the trace, in the order they were sent. */
  function RawOf(trace: seq<Exchange>): seq<bv8> {
    if trace == [] then []
    else RawOf(Front(trace)) + match Last(trace).sent
                               case Some(Raw(data)) => data
                               case _ => []
  }

  /** How far the requests of a stretch reach, if each starts where the one before ended. */
  function Reach(trace: seq<Exchange>): Option<nat> {
    if trace == [] then Some(0)
    else
      var before, x := Reach(Front(trace)), Last(trace);
      if before.None? || !(ReadsData(x.got) && x.sent.Some? && x.sent.value.Raw?) then before
      else if x.got.command.word3 == before.value then Some(before.value + x.got.command.word4)
      else None
  }

  predicate NoHello(trace: seq<Exchange>) {
    forall x | x in trace :: !x.got.Hello? && !x.got.NotHello?
  }

  lemma {:induction false} SafeShrinks(front: seq<Exchange>, x: Exchange, cfg: Config)
    requires Safe(front + [x], cfg)
    ensures Safe(front, cfg)
    ensures Proper(Armed(front, cfg), NextServed(Served(front, cfg), x, cfg), x, cfg)
  {
    hide Proper, Armed, Served, NextServed;
    var trace := front + [x];
    var n := |front|;
    assert trace[..n] == front && trace[..n + 1] == trace && trace[n] == x;
    TraceGrows(front, x, cfg);
    forall i | 0 <= i < n ensures Proper(Armed(front[..i], cfg), Served(front[..i + 1], cfg), front[i], cfg) {
      assert trace[..i] == front[..i] && trace[..i + 1] == front[..i + 1] && trace[i] == front[i];
    }
  }

  /** What is sent of the file being served, and how far its requests reach. */
  ghost predicate SentOf(served: Option<File>, trace: seq<Exchange>) {
    match served
    case None => RawOf(trace) == [] && Reach(trace) == Some(0)
    case Some(file) =>
      Reach(trace).Some? && Reach(trace).value <= |file.bytes| ==> RawOf(trace) == file.bytes[..Reach(trace).value]
  }

  /** Between two HELLOs all data come from one file, and requests that tile it bring it
      across: what has been sent is the file up to where the requests have reached. */
  lemma {:induction false} ImageReassembled(before: seq<Exchange>, stretch: seq<Exchange>, cfg: Config)
    requires Safe(before + stretch, cfg) && NoHello(stretch) && Served(before, cfg).None?
    ensures SentOf(Served(before + stretch, cfg), stretch)
    decreases |stretch|
  {
    hide Safe, Armed, Served, Proper, NextServed, RawOf, Reach;
    if stretch == [] {
      assert before + stretch == before;
      NothingRaw();
    } else {
      var x, front := Last(stretch), before + Front(stretch);
      assert before + stretch == front + [x] && x in stretch;
      SafeShrinks(front, x, cfg);
      ImageReassembled(before, Front(stretch), cfg);
      TraceGrows(front, x, cfg);
      RawStep(Front(stretch), x, Served(front, cfg), Armed(front, cfg), cfg);
      assert stretch == Front(stretch) + [x];
    }
  }

  lemma {:induction false} NothingRaw()
    ensures RawOf([]) == [] && Reach([]) == Some(0)
  {
  }

  lemma {:induction false} RawStep(trace: seq<Exchange>, x: Exchange, served: Option<File>, armed: bool, cfg: Config)
    requires SentOf(served, trace) && !x.got.Hello? && !x.got.NotHello?
    requires Proper(armed, NextServed(served, x, cfg), x, cfg)
    ensures SentOf(NextServed(served, x, cfg), trace + [x])
  {
    hide ReadAt, ValidRequest;
    assert Front(trace + [x]) == trace && Last(trace + [x]) == x;
  }

  // ------------------------------------------------------------- forcing a mode

  ghost predicate Forced(trace: seq<Exchange>, cfg: Config, i: nat)
    requires i < |trace|
  {
    trace[i].got.Hello? && cfg.mode < MODE_LAST && Armed(trace[..i], cfg)
  }

  ghost predicate RearmedAt(trace: seq<Exchange>, cfg: Config, k: nat)
    requires k < |trace|
  {
    EndsImage(trace[k].got) && Rearms(trace[k].got.command, cfg)
  }

  lemma {:induction false} ArmedAgain(trace: seq<Exchange>, cfg: Config, i: nat, j: nat)
    requires i < j <= |trace| && trace[i].got.Hello? && cfg.mode < MODE_LAST && Armed(trace[..j], cfg)
    ensures exists k | i < k < j :: RearmedAt(trace, cfg, k)
    decreases j
  {
    hide Rearms;
    assert Front(trace[..j]) == trace[..j - 1] && Last(trace[..j]) == trace[j - 1];
    if !RearmedAt(trace, cfg, j - 1) {
      if j - 1 > i {
        ArmedAgain(trace, cfg, i, j - 1);
      }
    }
  }

  /** A mode is forced at most once per arming: between two forced answers the end of the
      memory-debug image has been acknowledged. */
  lemma {:induction false} ForcedOnce(trace: seq<Exchange>, cfg: Config, i: nat, j: nat)
    requires i < j < |trace| && Forced(trace, cfg, i) && Forced(trace, cfg, j)
    ensures exists k | i < k < j :: RearmedAt(trace, cfg, k)
  {
    ArmedAgain(trace, cfg, i, j);
  }

  // ------------------------------------------------------------ dumps within runs

  /** The host's region phase: steps until it leaves the state. */
  function WhileRegion(h: Host, cfg: Config, envs: seq<Env>): (Host, Outcome)
    requires WellFormed(h)
    decreases envs
  {
    if envs == [] || h.state != WaitMemoryRegion then (h, Running)
    else
      var (h1, outcome) := Step(h, cfg, envs[0]);
      if outcome != Running then (h1, outcome) else WhileRegion(h1, cfg, envs[1..])
  }

  /** What arrives, whenever it arrives, is the target's memory. */
  ghost predicate Honest(h: Host, cfg: Config, memory: int -> bv8, envs: seq<Env>)
    requires WellFormed(h)
    decreases envs
  {
    envs == [] || h.state != WaitMemoryRegion ||
    (&& (envs[0].rx.Some? ==>
           FirstBytes(envs[0].rx.value, h.dump.pending) ==
           Slice(memory, h.dump.table[h.dump.num].base, h.dump.pending))
     && var (h1, outcome) := Step(h, cfg, envs[0]);
     (outcome == Running ==> Honest(h1, cfg, memory, envs[1..])))
  }

  function Answers(envs: seq<Env>): (answers: seq<Answer>)
    ensures |answers| == |envs|
  {
    if envs == [] then [] else [Answer(envs[0].rx.Some?, envs[0].io)] + Answers(envs[1..])
  }

  lemma {:induction false} RegionStep(h: Host, cfg: Config, memory: int -> bv8, env: Env)
    requires WellFormed(h) && h.state == WaitMemoryRegion && Honest(h, cfg, memory, [env])
    ensures var a := Answer(env.rx.Some?, env.io);
            var (d, rc) := Pass(h.dump, Reply(h.dump, memory, a), env.io);
            var (h1, outcome) := Step(h, cfg, env);
            && h1.dump == d
            && (outcome == Running ==> (h1.state == WaitMemoryRegion <==> rc == Continue))
            && (rc == Continue ==> outcome == Running)
            && (rc == Fail ==> outcome == Failed)
  {
    hide Pass, Slice;
  }

  /** Against an honest target the region phase is a run of MemoryDump. */
  lemma {:induction false} RegionIsRun(h: Host, cfg: Config, memory: int -> bv8, envs: seq<Env>)
    requires WellFormed(h) && h.state == WaitMemoryRegion && Honest(h, cfg, memory, envs)
    ensures var (d, rc) := DumpRun(h.dump, memory, Answers(envs));
            var (h1, outcome) := WhileRegion(h, cfg, envs);
            h1.dump == d && (outcome == Running && h1.state != WaitMemoryRegion ==> rc == Finished)
    decreases envs
  {
    hide Step, Pass, Reply, Slice;
    if envs != [] {
      var a := Answer(envs[0].rx.Some?, envs[0].io);
      RegionStep(h, cfg, memory, envs[0]);
      DumpBounds(h.dump, Reply(h.dump, memory, a), [], envs[0].io);
      assert Answers(envs)[0] == a && Answers(envs)[1..] == Answers(envs[1..]);
      var (h1, outcome) := Step(h, cfg, envs[0]);
      if outcome == Running && h1.state == WaitMemoryRegion {
        RegionIsRun(h1, cfg, memory, envs[1..]);
      }
    }
  }

  lemma {:induction false} TableStep(h: Host, cfg: Config, env: Env)
    requires WellFormed(h) && h.state == WaitMemoryTable && env.rx.Some?
    ensures var (d, rc) := Enter(h.dump, TableOf(FirstBytes(env.rx.value, h.tableLength)), env.io);
            var (h0, outcome) := Step(h, cfg, env);
            outcome == Running ==> h0.dump == d && (h0.state == WaitMemoryRegion <==> rc == Continue) && rc != Fail
  {
    hide Enter, TableOf, LastRead;
  }

  /** A dump within a run: if the target's answers, when they come, are its memory, and the
      host leaves the region phase with the run still going, no write having been short, every
      region has been saved. */
  lemma {:induction false} DumpWithinRun(h: Host, cfg: Config, memory: int -> bv8, env: Env, envs: seq<Env>)
    requires RunInv(h, cfg) && h.state == WaitMemoryTable && env.rx.Some?
    requires forall r | r in TableOf(FirstBytes(env.rx.value, h.tableLength)) :: r.length != 0
    requires Step(h, cfg, env).1 == Running
    requires Honest(Step(h, cfg, env).0, cfg, memory, envs)
    ensures var table := TableOf(FirstBytes(env.rx.value, h.tableLength));
            var (h1, outcome) := WhileRegion(Step(h, cfg, env).0, cfg, envs);
            && Requests(h1.dump.trace) <= MAXDUMPFAIL * TotalPieces(table)
            && FollowsPlan(h1.dump.trace, PlanOf(table))
            && (outcome == Running && h1.state != WaitMemoryRegion &&
                PhaseWhole(h.dump, memory, table, env.io, Answers(envs)) ==>
                  forall j | 0 <= j < |table| && (forall i | 0 <= i < j :: table[i].filename != table[j].filename) ::
                    Exact(h1.dump.disk, memory, table, j))
  {
    hide Enter, TableOf, Step, Slice, Safe, Recorded, AllAnswered, DumpRun, Requests, FollowsPlan, Honest;
    var bytes := FirstBytes(env.rx.value, h.tableLength);
    var table := TableOf(bytes);
    TableValid(bytes);
    TableStep(h, cfg, env);
    DumpTerminates(h.dump, memory, table, env.io, Answers(envs));
    var h0 := Step(h, cfg, env).0;
    if h0.state == WaitMemoryRegion {
      RegionIsRun(h0, cfg, memory, envs);
    }
    if Phase(h.dump, memory, table, env.io, Answers(envs)).1 == Finished {
      DumpExact(h.dump, memory, table, env.io, Answers(envs));
    }
  }

  // --------------------------------------------------------- the code, in place

  /** One call of start_sahara_based_transfer: its parameters and locals, and the fields
      of `com_state` that it works on. */
  class Transfer {
    const saharaMode: nat
    const memdebugImage: int
    const images: nat -> Option<File>

    var saharaState: State
    var helloRxMode: nat
    var cmdsExecuted: bool
    var startedRawImageTransfer: bool
    var idMappedFile: Option<File>
    var fd: Option<File>
    var saharaRawTxBuffer: array<bv8>
    var memoryTableLength: nat
    const dumper: Dumper
    ghost var trace: seq<Exchange>

    ghost function Cfg(): Config {
      Config(saharaMode, memdebugImage, images)
    }

    ghost function Now(): Host
      reads this, saharaRawTxBuffer, dumper, dumper.debugInfo
    {
      Host(saharaState, helloRxMode, !cmdsExecuted, startedRawImageTransfer, idMappedFile, fd, saharaRawTxBuffer[..],
           memoryTableLength, dumper.State(), trace)
    }

    /** The raw buffer and the region table are different allocations. */
    ghost predicate Separate()
      reads this, dumper
    {
      saharaRawTxBuffer as object != dumper.debugInfo as object
    }

    constructor (saharaMode: nat, memdebugImage: int, images: nat -> Option<File>,
                 saharaRawTxBuffer: array<bv8>, disk: Disk)
      requires saharaRawTxBuffer.Length == MAX_SAHARA_TX_BUFFER_SIZE
      ensures Cfg() == Config(saharaMode, memdebugImage, images)
      ensures Now() == Start(Cfg(), saharaRawTxBuffer[..], disk) && RunInv(Now(), Cfg())
      ensures this.saharaRawTxBuffer == saharaRawTxBuffer && fresh(dumper) && fresh(dumper.debugInfo) && Separate()
    {
      this.saharaMode, this.memdebugImage, this.images := saharaMode, memdebugImage, images;
      saharaState, helloRxMode, cmdsExecuted := WaitHello, saharaMode, memdebugImage != -1;
      startedRawImageTransfer, idMappedFile, fd := false, None, None;
      this.saharaRawTxBuffer, memoryTableLength, trace := saharaRawTxBuffer, 0, [];
      var d := new Dumper(disk);
      dumper := d;
    }

    /** Send a packet in answer to `got` and enter a state, or fail. */
    method Answer(got: Got, msg: Msg, next: State, env: Env) returns (outcome: Outcome)
      modifies `saharaState, `trace
      ensures (Now(), outcome) == Respond(old(Now()), got, msg, next, env)
    {
      trace := trace + [Exchange(got, Some(msg))];
      if !env.txOk {
        return Failed;
      }
      saharaState := next;
      outcome := Running;
    }

    method ReceiveHello(rx: Stream, env: Env) returns (outcome: Outcome)
      modifies `saharaState, `trace, `startedRawImageTransfer, `helloRxMode, `cmdsExecuted
      ensures (Now(), outcome) == OnHello(old(Now()), Cfg(), rx, env)
    {
      hide Word;
      startedRawImageTransfer := false;
      if Word(rx, 0) != HELLO_ID {
        outcome := Answer(NotHello(Word(rx, 0)), Reset, WaitResetResp, env);
        return;
      }
      var version, mode := Word(rx, 2), Word(rx, 5);
      var status := STATUS_SUCCESS;
      if !(version <= VERSION && version >= VERSION) {
        status := NAK_INVALID_TARGET_PROTOCOL;
      }
      if saharaMode < MODE_LAST && !cmdsExecuted {
        helloRxMode := saharaMode;
        cmdsExecuted := true;
      } else {
        helloRxMode := mode;
      }
      outcome := Answer(Hello(version, mode), HelloResp(status, helloRxMode), WaitCommand, env);
    }

    method ReceiveCommand(rx: Stream, env: Env) returns (outcome: Outcome)
      requires WellFormed(Now()) && Separate() && saharaState == WaitCommand
      modifies this, saharaRawTxBuffer
      ensures saharaRawTxBuffer == old(saharaRawTxBuffer) || fresh(saharaRawTxBuffer)
      ensures (Now(), outcome) == OnCommand(old(Now()), Cfg(), CommandOf(rx), env)
    {
      var payload := Command(Word(rx, 0), Word(rx, 2), Word(rx, 3), Word(rx, 4));
      if payload.id == END_IMAGE_TX_ID {
        outcome := ReceiveEndImage(payload, env);
      } else if payload.id == READ_DATA_ID {
        outcome := ReceiveReadData(payload, env);
      } else if payload.id == MEMORY_DEBUG_ID {
        outcome := ReceiveMemoryDebug(payload, env);
      } else if payload.id == CMD_READY_ID {
        if env.cmdOk {
          trace := trace + [Exchange(Asked(payload), Some(CmdExec))];
          saharaState := WaitHello;
          outcome := Running;
        } else {
          outcome := Answer(Asked(payload), Reset, WaitResetResp, env);
        }
      } else if payload.id == HELLO_ID {
        trace := trace + [Exchange(Asked(payload), None)];
        saharaState := WaitHello;
        outcome := Running;
      } else {
        outcome := Answer(Asked(payload), Reset, WaitResetResp, env);
      }
    }

    method ReceiveEndImage(payload: Command, env: Env) returns (outcome: Outcome)
      modifies `saharaState, `trace, `cmdsExecuted
      ensures (Now(), outcome) == OnEndImage(old(Now()), Cfg(), payload, env)
    {
      if payload.word3 != STATUS_SUCCESS {
        outcome := Answer(Asked(payload), Reset, WaitResetResp, env);
        return;
      }
      if payload.word2 == memdebugImage % ADDRESS_SPACE {
        cmdsExecuted := false;
      }
      trace := trace + [Exchange(Asked(payload), Some(Done))];
      saharaState := WaitDoneResp;
      outcome := Running;
    }

    method ReceiveMemoryDebug(payload: Command, env: Env) returns (outcome: Outcome)
      modifies `saharaState, `trace, `memoryTableLength
      ensures (Now(), outcome) == OnMemoryDebug(old(Now()), payload, env)
    {
      if !IsValidMemoryTable(payload.word3) {
        outcome := Answer(Asked(payload), Reset, WaitResetResp, env);
        return;
      }
      memoryTableLength := payload.word3;
      outcome := Answer(Asked(payload), MemoryRead(Read(payload.word2, payload.word3)), WaitMemoryTable, env);
    }

    method ReceiveReadData(payload: Command, env: Env) returns (outcome: Outcome)
      requires WellFormed(Now()) && Separate() && saharaState == WaitCommand
      modifies this, saharaRawTxBuffer
      ensures saharaRawTxBuffer == old(saharaRawTxBuffer) || fresh(saharaRawTxBuffer)
      ensures (Now(), outcome) == OnReadData(old(Now()), Cfg(), payload, env)
    {
      if !startedRawImageTransfer {
        idMappedFile := images(payload.word2);
        if idMappedFile.None? {
          trace := trace + [Exchange(Asked(payload), Some(Reset))];
          saharaState := WaitCommand;
          return Running;
        }
        fd := if env.openOk then idMappedFile else None;
        startedRawImageTransfer := true;
      }
      if idMappedFile.Some? {
        outcome := SendImage(payload, env);
      } else {
        trace := trace + [Exchange(Asked(payload), None)];
        outcome := Running;
      }
    }

    /** start_image_transfer */
    method SendImage(payload: Command, env: Env) returns (outcome: Outcome)
      requires WellFormed(Now()) && Separate()
      modifies this, saharaRawTxBuffer
      ensures saharaRawTxBuffer == old(saharaRawTxBuffer) || fresh(saharaRawTxBuffer)
      ensures (Now(), outcome) == StartImageTransfer(old(Now()), payload, env)
    {
      var n := payload.word4;
      if fd.None? || n == 0 || (fd.value.regular && n > |fd.value.bytes|) {
        trace := trace + [Exchange(Asked(payload), None)];
        return Failed;
      }
      if n > MAX_SAHARA_TX_BUFFER_SIZE {
        saharaRawTxBuffer := Realloc(saharaRawTxBuffer, n, env.newMemory);
      }
      assert saharaRawTxBuffer[..] == RawBuffer(old(saharaRawTxBuffer[..]), n, env.newMemory);
      if !env.readOk {
        trace := trace + [Exchange(Asked(payload), None)];
        return Failed;
      }
      ReadImage(fd.value.bytes, payload.word3, n, saharaRawTxBuffer);
      assert saharaRawTxBuffer[..n] == saharaRawTxBuffer[..][..n];
      outcome := Answer(Asked(payload), Raw(saharaRawTxBuffer[..n]), saharaState, env);
    }

    static method Realloc(was: array<bv8>, n: nat, newMemory: Stream) returns (buffer: array<bv8>)
      ensures fresh(buffer) && buffer[..] == Resized(was[..], n, newMemory)
    {
      buffer := new bv8[n](i requires 0 <= i reads was =>
        if i < was.Length then was[i] else newMemory(i - was.Length));
    }

    /** lseek and read: at most `n` bytes of the file, to the front of the buffer. */
    static method ReadImage(bytes: seq<bv8>, offset: nat, n: nat, buffer: array<bv8>)
      requires n <= buffer.Length
      modifies buffer
      ensures var data := ReadAt(bytes, offset, n);
              buffer[..] == data + old(buffer[..])[|data|..]
    {
      var data := ReadAt(bytes, offset, n);
      forall i | 0 <= i < |data| {
        buffer[i] := data[i];
      }
    }

    method FinishDumpPass(got: Got, rc: Rc, env: Env) returns (outcome: Outcome)
      modifies `saharaState, `trace
      ensures (Now(), outcome) == AfterDump(old(Now()), Cfg(), got, dumper.State(), rc, env)
    {
      if rc == Fail {
        trace := trace + [Exchange(got, None)];
        outcome := Failed;
      } else if rc == Continue {
        trace := trace + [Exchange(got, LastRead(dumper.State()))];
        saharaState := WaitMemoryRegion;
        outcome := Running;
      } else if saharaMode != MODE_MEMORY_DEBUG {
        outcome := Answer(got, SwitchMode(MODE_IMAGE_TX_PENDING), WaitHello, env);
      } else {
        outcome := Answer(got, Reset, WaitResetResp, env);
      }
    }

    method ReceiveTable(rx: Stream, env: Env) returns (outcome: Outcome)
      requires WellFormed(Now())
      modifies `saharaState, `trace, dumper
      ensures dumper.debugInfo == old(dumper.debugInfo) || fresh(dumper.debugInfo)
      ensures (Now(), outcome) == OnTable(old(Now()), Cfg(), rx, env)
    {
      if !env.dirOk {
        trace := trace + [Exchange(TableData, None)];
        return Failed;
      }
      var recvBuffer := new bv8[memoryTableLength](i requires 0 <= i => rx(i));
      assert recvBuffer[..] == FirstBytes(rx, memoryTableLength);
      var rc := dumper.ReceiveTable(recvBuffer, env.io);
      outcome := FinishDumpPass(TableData, rc, env);
    }

    method ReceiveRegion(env: Env) returns (outcome: Outcome)
      requires WellFormed(Now()) && saharaState == WaitMemoryRegion && Separate()
      modifies `saharaState, `trace, dumper, dumper.debugInfo
      ensures dumper.debugInfo == old(dumper.debugInfo)
      ensures (Now(), outcome) == OnRegion(old(Now()), Cfg(), env)
    {
      var rx := if env.rx.Some? then Some(FirstBytes(env.rx.value, dumper.recvBufferSize)) else None;
      var rc := dumper.ReceiveRegion(rx, env.io);
      outcome := FinishDumpPass(RegionData(env.rx.Some?), rc, env);
    }

    /** One iteration of the main loop. */
    method Iterate(env: Env) returns (outcome: Outcome)
      requires WellFormed(Now()) && Separate()
      modifies this, saharaRawTxBuffer, dumper, dumper.debugInfo
      ensures Separate()
      ensures saharaRawTxBuffer == old(saharaRawTxBuffer) || fresh(saharaRawTxBuffer)
      ensures dumper.debugInfo == old(dumper.debugInfo) || fresh(dumper.debugInfo)
      ensures (Now(), outcome) == Step(old(Now()), Cfg(), env)
    {
      hide OnHello, OnCommand, OnTable, OnRegion;
      if saharaState == WaitMemoryRegion {
        outcome := ReceiveRegion(env);
        return;
      }
      if env.rx.None? {
        return Failed;
      }
      var rx := env.rx.value;
      match saharaState {
        case WaitHello => outcome := ReceiveHello(rx, env);
        case WaitCommand => outcome := ReceiveCommand(rx, env);
        case WaitMemoryTable => outcome := ReceiveTable(rx, env);
        case WaitDoneResp =>
          var status := Word(rx, 2);
          trace := trace + [Exchange(DoneWait(Word(rx, 0), status), None)];
          if status == MODE_IMAGE_TX_PENDING {
            saharaState := WaitHello;
            outcome := Running;
          } else {
            outcome := if status == MODE_IMAGE_TX_COMPLETE then Success else Failed;
          }
        case WaitResetResp =>
          var command := Word(rx, 0);
          trace := trace + [Exchange(ResetWait(command), None)];
          if command != RESET_RESP_ID {
            outcome := Running;
          } else {
            outcome := if saharaMode != helloRxMode then Exit5 else Success;
          }
      }
    }

    /** The main loop, for as long as the environment lasts: it runs as specified, and so
        safely. */
    method StartSaharaBasedTransfer(envs: seq<Env>) returns (outcome: Outcome)
      requires RunInv(Now(), Cfg()) && Separate()
      modifies this, saharaRawTxBuffer, dumper, dumper.debugInfo
      ensures (Now(), outcome) == Run(old(Now()), Cfg(), envs)
      ensures Safe(trace, Cfg()) && EndsWell(trace, outcome, Cfg())
    {
      hide Step, Safe, Recorded, AllAnswered, EndsWell;
      RunKeepsInv(Now(), Cfg(), envs);
      outcome := Running;
      var k := 0;
      while k < |envs| && outcome == Running
        invariant 0 <= k <= |envs| && Separate()
        invariant saharaRawTxBuffer == old(saharaRawTxBuffer) || fresh(saharaRawTxBuffer)
        invariant dumper.debugInfo == old(dumper.debugInfo) || fresh(dumper.debugInfo)
        invariant outcome == Running ==>
                    WellFormed(Now()) && Run(Now(), Cfg(), envs[k..]) == Run(old(Now()), Cfg(), envs)
        invariant outcome != Running ==> (Now(), outcome) == Run(old(Now()), Cfg(), envs)
      {
        assert envs[k..][1..] == envs[k + 1..];
        outcome := Iterate(envs[k]);
        k := k + 1;
      }
    }
  }
}
