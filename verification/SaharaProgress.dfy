/** How far the Sahara host of ks/sahara_protocol.c gets with a target that plays its part:
    whole transfers of any number of images, whole memory dumps, and the reset handshake
    that ends all else. Packets are given as the numbers in their words. */
module SaharaProgress {
  import opened Options
  import opened Bytes
  import opened Numbers
  import opened MemoryDump
  import opened Sahara

  // ------------------------------------------------------------ what the target says

  /** A packet with these words arrives, and the calls of the host succeed. */
  ghost predicate Brings(env: Env, words: seq<nat>) {
    && env.rx.Some? && (forall k | 0 <= k < |words| :: Word(env.rx.value, k) == words[k])
    && env.txOk && env.openOk && env.readOk
  }

  ghost predicate BringsAll(envs: seq<Env>, script: seq<seq<nat>>) {
    |envs| == |script| && forall k | 0 <= k < |script| :: Brings(envs[k], script[k])
  }

  /** Every script of 32-bit words can be brought. */
  lemma {:induction false} CanBring(words: seq<nat>)
    requires forall w | w in words :: w < ADDRESS_SPACE
    ensures Brings(Arrives(words), words)
  {
    hide Word, Packet;
    forall k | 0 <= k < |words| ensures Word(Packet(words), k) == words[k] {
      PacketWords(words, k);
    }
  }

  /** An image as the target takes it: the mode of its HELLO, the image id, and the lengths
      of its requests. */
  datatype Part = Part(mode: nat, id: nat, slices: seq<nat>)

  function Total(slices: seq<nat>): nat {
    if slices == [] then 0 else slices[0] + Total(slices[1..])
  }

  /** READ_DATA for one slice after another. */
  function AskWords(id: nat, offset: nat, slices: seq<nat>): (script: seq<seq<nat>>)
    ensures |script| == |slices|
    decreases slices
  {
    if slices == [] then [] else [[3, 20, id, offset, slices[0]]] + AskWords(id, offset + slices[0], slices[1..])
  }

  /** HELLO, the requests, END_IMAGE_TX with status 0, and DONE_RESP. */
  function ImageWords(part: Part, complete: nat): seq<seq<nat>> {
    [[1, 48, 2, 2, 0, part.mode]] + AskWords(part.id, 0, part.slices) + [[4, 16, part.id, 0]] + [[6, 12, complete]]
  }

  /** DONE_RESP says 0 while images are pending, and 1 after the last. */
  function TransferWords(parts: seq<Part>): seq<seq<nat>> {
    if parts == [] then []
    else ImageWords(parts[0], if |parts| == 1 then 1 else 0) + TransferWords(parts[1..])
  }

  /** The image is registered and the slices are of it all. */
  predicate Whole(cfg: Config, part: Part) {
    && cfg.images(part.id).Some? && Total(part.slices) == |cfg.images(part.id).value.bytes|
    && forall n | n in part.slices :: n > 0
  }

  // ------------------------------------------------------------ what the host answers

  /** HELLO is answered by HELLO_RESP with status 0, a request by the bytes of the file it
      asks for, END_IMAGE_TX by DONE, and DONE_RESP by nothing. */
  predicate AnswerTo(cfg: Config, words: seq<nat>, x: Exchange) {
    if |words| == 6 && words[0] == 1 then
      x.got == Hello(words[2], words[5]) && x.sent.Some? && x.sent.value.HelloResp? && x.sent.value.status == 0
    else if |words| == 5 && words[0] == 3 then
      && cfg.images(words[2]).Some? && words[3] + words[4] <= |cfg.images(words[2]).value.bytes|
      && x.got == Asked(Command(3, words[2], words[3], words[4]))
      && x.sent == Some(Raw(cfg.images(words[2]).value.bytes[words[3]..words[3] + words[4]]))
    else if |words| == 4 && words[0] == 4 then
      x.got.Asked? && x.got.command.id == 4 && x.sent == Some(Done)
    else
      |words| == 3 && x.got == DoneWait(words[0], words[2]) && x.sent == None
  }

  ghost predicate Answered(cfg: Config, script: seq<seq<nat>>, stretch: seq<Exchange>) {
    |stretch| == |script| && forall k | 0 <= k < |script| :: AnswerTo(cfg, script[k], stretch[k])
  }

  lemma {:induction false} AnsweredBoth(cfg: Config, a: seq<seq<nat>>, s: seq<Exchange>, b: seq<seq<nat>>, t: seq<Exchange>)
    requires Answered(cfg, a, s) && Answered(cfg, b, t)
    ensures Answered(cfg, a + b, s + t)
  {
    hide AnswerTo;
  }

  lemma {:induction false} NothingAnswered(cfg: Config)
    ensures Answered(cfg, [], [])
  {
  }

  lemma {:induction false} AnsweredOne(cfg: Config, words: seq<nat>, x: Exchange)
    requires AnswerTo(cfg, words, x)
    ensures Answered(cfg, [words], [x])
  {
  }

  lemma {:induction false} RawLast(s: seq<Exchange>, x: Exchange)
    ensures RawOf(s + [x]) == RawOf(s) + (if x.sent.Some? && x.sent.value.Raw? then x.sent.value.data else [])
  {
    assert Front(s + [x]) == s && Last(s + [x]) == x;
  }

  lemma {:induction false} RawOne(x: Exchange)
    ensures RawOf([x]) == if x.sent.Some? && x.sent.value.Raw? then x.sent.value.data else []
  {
    hide RawOf;
    RawLast([], x);
    NothingRaw();
    assert [] + [x] == [x];
  }

  lemma {:induction false} RawBoth(s: seq<Exchange>, t: seq<Exchange>)
    ensures RawOf(s + t) == RawOf(s) + RawOf(t)
    decreases |t|
  {
    hide RawOf;
    if t == [] {
      NothingRaw();
      assert s + t == s;
    } else {
      var front, x := Front(t), Last(t);
      assert t == front + [x] && s + t == s + front + [x];
      RawBoth(s, front);
      RawLast(front, x);
      RawLast(s + front, x);
    }
  }

  // ------------------------------------------------------------ one packet

  lemma {:induction false} RunOn(h: Host, cfg: Config, envs: seq<Env>)
    requires WellFormed(h) && envs != []
    ensures var (h1, outcome) := Step(h, cfg, envs[0]);
            Run(h, cfg, envs) == if outcome != Running then (h1, outcome) else Run(h1, cfg, envs[1..])
  {
    hide Step, WellFormed;
  }

  lemma {:induction false} HelloStep(h: Host, cfg: Config, env: Env, mode: nat)
    requires WellFormed(h) && h.state == WaitHello && Brings(env, [1, 48, 2, 2, 0, mode])
    ensures var (h1, outcome) := Step(h, cfg, env);
            && outcome == Running && h1.state == WaitCommand && !h1.started
            && h1.trace == h.trace + [Last(h1.trace)] && h1.dump == h.dump
            && AnswerTo(cfg, [1, 48, 2, 2, 0, mode], Last(h1.trace))
            && (cfg.mode < 4 && h.armed ==> h1.helloMode == cfg.mode)
  {
    hide Word;
    var words := [1, 48, 2, 2, 0, mode];
    assert Word(env.rx.value, 0) == words[0] && Word(env.rx.value, 2) == words[2] && Word(env.rx.value, 5) == words[5];
  }

  lemma {:induction false} AskStep(h: Host, cfg: Config, env: Env, id: nat, offset: nat, n: nat)
    requires WellFormed(h) && h.state == WaitCommand && Brings(env, [3, 20, id, offset, n])
    requires cfg.images(id).Some? && 0 < n && offset + n <= |cfg.images(id).value.bytes|
    requires h.started ==> h.file == cfg.images(id) && h.fd == h.file
    ensures var (h1, outcome) := Step(h, cfg, env);
            && outcome == Running && h1.state == WaitCommand
            && h1.started && h1.file == cfg.images(id) && h1.fd == h1.file
            && h1.trace == h.trace + [Last(h1.trace)]
            && AnswerTo(cfg, [3, 20, id, offset, n], Last(h1.trace))
  {
    hide Word, AnswerBytes, RawBuffer, ReadAt;
    var words := [3, 20, id, offset, n];
    var rx, file := env.rx.value, cfg.images(id);
    assert Word(rx, 0) == words[0] && Word(rx, 2) == words[2] && Word(rx, 3) == words[3] && Word(rx, 4) == words[4];
    var c := Command(3, id, offset, n);
    var g := h.(file := file, fd := file, started := true);
    ReadDataAnswer(g, cfg, c, env);
    InRangeAnswer(file.value.bytes, offset, n, h.rawBuffer, env.newMemory);
    assert Step(h, cfg, env) == OnReadData(h, cfg, c, env) == OnReadData(g, cfg, c, env);
    LastLogged(h.trace, Exchange(Asked(c), Some(Raw(file.value.bytes[offset..offset + n]))));
  }

  lemma {:induction false} EndStep(h: Host, cfg: Config, env: Env, id: nat)
    requires WellFormed(h) && h.state == WaitCommand && Brings(env, [4, 16, id, 0])
    ensures var (h1, outcome) := Step(h, cfg, env);
            && outcome == Running && h1.state == WaitDoneResp
            && h1.trace == h.trace + [Last(h1.trace)]
            && AnswerTo(cfg, [4, 16, id, 0], Last(h1.trace))
  {
    hide Word;
    var words := [4, 16, id, 0];
    assert Word(env.rx.value, 0) == words[0] && Word(env.rx.value, 3) == words[3];
  }

  /** DONE_RESP says whether there is another image to come. */
  lemma {:induction false} DoneStep(h: Host, cfg: Config, env: Env, complete: nat)
    requires WellFormed(h) && h.state == WaitDoneResp && Brings(env, [6, 12, complete]) && complete <= 1
    ensures var (h1, outcome) := Step(h, cfg, env);
            && (if complete == 1 then outcome == Success else outcome == Running && h1.state == WaitHello)
            && h1.trace == h.trace + [Last(h1.trace)]
            && AnswerTo(cfg, [6, 12, complete], Last(h1.trace))
  {
    hide Word;
    var words := [6, 12, complete];
    assert Word(env.rx.value, 0) == words[0] && Word(env.rx.value, 2) == words[2];
  }

  // ------------------------------------------------------------ whole transfers

  lemma {:induction false} ScriptOn(envs: seq<Env>, words: seq<nat>, later: seq<seq<nat>>)
    requires |later| + 1 <= |envs| && BringsAll(envs[..|later| + 1], [words] + later)
    ensures Brings(envs[0], words) && BringsAll(envs[1..][..|later|], later)
  {
    hide Brings;
    var front, script := envs[..|later| + 1], [words] + later;
    assert Brings(front[0], script[0]);
    forall k | 0 <= k < |later| ensures Brings(envs[1..][..|later|][k], later[k]) {
      assert Brings(front[k + 1], script[k + 1]);
    }
  }

  lemma {:induction false} SlicesCross(h: Host, cfg: Config, id: nat, offset: nat, slices: seq<nat>, envs: seq<Env>)
    returns (h1: Host, stretch: seq<Exchange>)
    requires WellFormed(h) && h.state == WaitCommand && cfg.images(id).Some?
    requires h.started ==> h.file == cfg.images(id) && h.fd == h.file
    requires offset + Total(slices) <= |cfg.images(id).value.bytes| && forall n | n in slices :: n > 0
    requires |slices| <= |envs| && BringsAll(envs[..|slices|], AskWords(id, offset, slices))
    ensures WellFormed(h1) && h1.state == WaitCommand && h1.trace == h.trace + stretch
    ensures Run(h, cfg, envs) == Run(h1, cfg, envs[|slices|..])
    ensures Answered(cfg, AskWords(id, offset, slices), stretch)
    ensures RawOf(stretch) == cfg.images(id).value.bytes[offset..offset + Total(slices)]
    decreases slices
  {
    hide Step, Run, WellFormed, Brings, BringsAll, AnswerTo, Answered, RawOf;
    var bytes := cfg.images(id).value.bytes;
    if slices == [] {
      h1, stretch := h, [];
      NothingRaw();
      assert Answered(cfg, AskWords(id, offset, []), []) by { NothingAnswered(cfg); }
      assert h.trace + [] == h.trace && envs[0..] == envs;
    } else {
      var n, script := slices[0], AskWords(id, offset, slices);
      var left, later := envs[1..], AskWords(id, offset + n, slices[1..]);
      assert n in slices && script == [[3, 20, id, offset, n]] + later;
      ScriptOn(envs, script[0], later);
      AskStep(h, cfg, envs[0], id, offset, n);
      RunOn(h, cfg, envs);
      var g, x := Step(h, cfg, envs[0]).0, Last(Step(h, cfg, envs[0]).0.trace);
      assert forall m | m in slices[1..] :: m in slices;
      var rest;
      h1, rest := SlicesCross(g, cfg, id, offset + n, slices[1..], left);
      stretch := [x] + rest;
      assert h.trace + [x] + rest == h.trace + stretch && left[|slices| - 1..] == envs[|slices|..];
      AnsweredOne(cfg, script[0], x);
      AnsweredBoth(cfg, [script[0]], [x], later, rest);
      RawOne(x);
      RawBoth([x], rest);
      assert x.sent == Some(Raw(bytes[offset..offset + n])) by { AskedBytes(cfg, id, offset, n, x); }
      assert bytes[offset..offset + n] + bytes[offset + n..offset + Total(slices)] == bytes[offset..offset + Total(slices)];
    }
  }

  lemma {:induction false} AskedBytes(cfg: Config, id: nat, offset: nat, n: nat, x: Exchange)
    requires AnswerTo(cfg, [3, 20, id, offset, n], x)
    ensures cfg.images(id).Some? && offset + n <= |cfg.images(id).value.bytes|
    ensures x.sent == Some(Raw(cfg.images(id).value.bytes[offset..offset + n]))
  {
  }

  /** What the others send is no part of an image. */
  lemma {:induction false} NoBytes(cfg: Config, words: seq<nat>, x: Exchange)
    requires AnswerTo(cfg, words, x) && |words| != 5
    ensures RawOf([x]) == []
  {
    RawOne(x);
  }

  lemma {:induction false} ImageCrosses(h: Host, cfg: Config, part: Part, complete: nat, envs: seq<Env>)
    returns (h1: Host, stretch: seq<Exchange>)
    requires WellFormed(h) && h.state == WaitHello && Whole(cfg, part) && complete <= 1
    requires var n := |ImageWords(part, complete)|;
             n <= |envs| && BringsAll(envs[..n], ImageWords(part, complete))
    ensures h1.trace == h.trace + stretch && Answered(cfg, ImageWords(part, complete), stretch)
    ensures cfg.images(part.id).Some? && RawOf(stretch) == cfg.images(part.id).value.bytes
    ensures if complete == 1 then Run(h, cfg, envs) == (h1, Success)
            else WellFormed(h1) && h1.state == WaitHello &&
                 Run(h, cfg, envs) == Run(h1, cfg, envs[|ImageWords(part, complete)|..])
  {
    hide Step, Run, WellFormed, Brings, AnswerTo, RawOf, Answered, BringsAll;
    var script, m := ImageWords(part, complete), |part.slices|;
    var hello, asks, end, done :=
      [1, 48, 2, 2, 0, part.mode], AskWords(part.id, 0, part.slices), [4, 16, part.id, 0], [6, 12, complete];
    assert script == [hello] + asks + [end] + [done] && |script| == m + 3;
    ImageBrought(envs, hello, asks, end, done);
    HelloStep(h, cfg, envs[0], part.mode);
    RunOn(h, cfg, envs);
    var g0 := Step(h, cfg, envs[0]).0;
    var g1, sent := SlicesCross(g0, cfg, part.id, 0, part.slices, envs[1..]);
    var later := envs[1..][m..];
    assert later == envs[m + 1..] && later[0] == envs[m + 1] && later[1..] == envs[m + 2..];
    EndStep(g1, cfg, later[0], part.id);
    RunOn(g1, cfg, later);
    var g2 := Step(g1, cfg, later[0]).0;
    assert later[1..][0] == envs[m + 2] && later[1..][1..] == envs[m + 3..];
    DoneStep(g2, cfg, later[1..][0], complete);
    RunOn(g2, cfg, later[1..]);
    h1 := Step(g2, cfg, later[1..][0]).0;
    var x, y, z := Last(g0.trace), Last(g2.trace), Last(h1.trace);
    stretch := [x] + sent + [y] + [z];
    assert h1.trace == h.trace + stretch;
    AnsweredOne(cfg, hello, x);
    AnsweredOne(cfg, end, y);
    AnsweredOne(cfg, done, z);
    AnsweredBoth(cfg, [hello], [x], asks, sent);
    AnsweredBoth(cfg, [hello] + asks, [x] + sent, [end], [y]);
    AnsweredBoth(cfg, [hello] + asks + [end], [x] + sent + [y], [done], [z]);
    NoBytes(cfg, hello, x);
    NoBytes(cfg, end, y);
    NoBytes(cfg, done, z);
    RawBoth([x], sent);
    RawBoth([x] + sent, [y]);
    RawBoth([x] + sent + [y], [z]);
    var bytes := cfg.images(part.id).value.bytes;
    assert [] + bytes[0..|bytes|] + [] + [] == bytes;
  }

  lemma {:induction false} ImageBrought(envs: seq<Env>, hello: seq<nat>, asks: seq<seq<nat>>, end: seq<nat>, done: seq<nat>)
    requires var script := [hello] + asks + [end] + [done];
             |script| <= |envs| && BringsAll(envs[..|script|], script)
    ensures Brings(envs[0], hello) && Brings(envs[|asks| + 1], end) && Brings(envs[|asks| + 2], done)
    ensures BringsAll(envs[1..][..|asks|], asks)
  {
    hide Brings;
    var script, front := [hello] + asks + [end] + [done], envs[..|asks| + 3];
    assert Brings(front[0], script[0]) && Brings(front[|asks| + 1], script[|asks| + 1]) &&
           Brings(front[|asks| + 2], script[|asks| + 2]);
    forall k | 0 <= k < |asks| ensures Brings(envs[1..][..|asks|][k], asks[k]) {
      assert Brings(front[k + 1], script[k + 1]);
    }
  }

  function Joined(stretches: seq<seq<Exchange>>): seq<Exchange> {
    if stretches == [] then [] else stretches[0] + Joined(stretches[1..])
  }

  /** How the trace of a transfer falls into the images: each has been sent, byte for byte. */
  ghost predicate Crossed(cfg: Config, parts: seq<Part>, trace: seq<Exchange>, stretches: seq<seq<Exchange>>) {
    && |stretches| == |parts| && trace == Joined(stretches)
    && forall k | 0 <= k < |parts| ::
         && cfg.images(parts[k].id).Some? && RawOf(stretches[k]) == cfg.images(parts[k].id).value.bytes
         && Answered(cfg, ImageWords(parts[k], if k == |parts| - 1 then 1 else 0), stretches[k])
  }

  lemma {:induction false} PartsCross(h: Host, cfg: Config, parts: seq<Part>, envs: seq<Env>)
    returns (h1: Host, stretches: seq<seq<Exchange>>)
    requires WellFormed(h) && h.state == WaitHello && parts != [] && forall part | part in parts :: Whole(cfg, part)
    requires BringsAll(envs, TransferWords(parts))
    ensures Run(h, cfg, envs) == (h1, Success)
    ensures |stretches| == |parts| && h1.trace == h.trace + Joined(stretches)
    ensures Crossed(cfg, parts, Joined(stretches), stretches)
    decreases parts
  {
    hide Run, WellFormed, Whole, RawOf, Answered, Brings, ImageWords;
    var complete := if |parts| == 1 then 1 else 0;
    var script, rest := ImageWords(parts[0], complete), TransferWords(parts[1..]);
    var n := |script|;
    assert parts[0] in parts && TransferWords(parts) == script + rest;
    forall k | 0 <= k < n ensures Brings(envs[..n][k], script[k]) {
      assert (script + rest)[k] == script[k];
    }
    var g, stretch := ImageCrosses(h, cfg, parts[0], complete, envs);
    if |parts| == 1 {
      h1, stretches := g, [stretch];
      assert Joined(stretches) == stretch + Joined([]) == stretch by { assert stretches[1..] == []; }
    } else {
      forall k | 0 <= k < |rest| ensures Brings(envs[n..][k], rest[k]) {
        assert (script + rest)[n + k] == rest[k];
      }
      var more;
      h1, more := PartsCross(g, cfg, parts[1..], envs[n..]);
      stretches := [stretch] + more;
      assert stretches[1..] == more;
      assert g.trace + Joined(more) == h.trace + (stretch + Joined(more));
      forall k | 0 < k < |parts|
        ensures cfg.images(parts[k].id).Some? && RawOf(stretches[k]) == cfg.images(parts[k].id).value.bytes
        ensures Answered(cfg, ImageWords(parts[k], if k == |parts| - 1 then 1 else 0), stretches[k])
      {
        assert parts[k] == parts[1..][k - 1] && stretches[k] == more[k - 1];
      }
    }
  }

  /** Any list of registered images gets across. If for each the target says HELLO, asks for
      slices that make up the file, ends with status 0 and answers DONE, with 0 while images are
      pending and with 1 after the last, then the run ends in SUCCESS, every packet has been
      answered as it should, and what was sent for each image is that file. */
  lemma {:induction false} ImagesCross(cfg: Config, rawBuffer: seq<bv8>, disk: Disk, parts: seq<Part>, envs: seq<Env>)
    returns (stretches: seq<seq<Exchange>>)
    requires |rawBuffer| == 0x100000 && parts != [] && forall part | part in parts :: Whole(cfg, part)
    requires BringsAll(envs, TransferWords(parts))
    ensures var (h, outcome) := Run(Start(cfg, rawBuffer, disk), cfg, envs);
            outcome == Success && Crossed(cfg, parts, h.trace, stretches)
  {
    hide Run, Whole, Brings, Crossed, TransferWords;
    var h;
    h, stretches := PartsCross(Start(cfg, rawBuffer, disk), cfg, parts, envs);
    assert [] + Joined(stretches) == Joined(stretches);
  }

  // ------------------------------------------------------------ the reset handshake

  /** What the host refuses: anything but HELLO when it waits for one; else an image that has
      failed, a region table of a length that no table has, a command that cannot be carried
      out, and what it does not know. */
  predicate Refused(state: State, rx: Stream, cmdOk: bool) {
    var id, word3 := Word(rx, 0), Word(rx, 3);
    if state == WaitHello then id != 1
    else if id == 4 then word3 != 0
    else if id == 9 then word3 % 52 != 0
    else if id == 11 then !cmdOk
    else id != 1 && id != 3
  }

  /** A packet is answered by RESET and the wait for RESET_RESP exactly if it is one of those. */
  lemma {:induction false} RefusedIff(h: Host, cfg: Config, env: Env)
    requires WellFormed(h) && (h.state == WaitHello || h.state == WaitCommand) && env.rx.Some? && env.txOk
    ensures var (h1, outcome) := Step(h, cfg, env);
            && (Refused(h.state, env.rx.value, env.cmdOk) <==> outcome == Running && h1.state == WaitResetResp)
            && (Refused(h.state, env.rx.value, env.cmdOk) ==>
                  h1.helloMode == h.helloMode && h1.trace != [] && Last(h1.trace).sent == Some(Reset))
  {
    hide Word, AnswerBytes, RawBuffer, ReadAt, Resized;
  }

  /** Where a packet that does not end the run leads. */
  lemma {:induction false} MovesTo(h: Host, cfg: Config, env: Env)
    requires WellFormed(h) && (h.state == WaitHello || h.state == WaitCommand) && env.rx.Some?
    requires Step(h, cfg, env).1 == Running
    ensures var next, id, word3 := Step(h, cfg, env).0.state, Word(env.rx.value, 0), Word(env.rx.value, 3);
            if h.state == WaitHello then next == if id == 1 then WaitCommand else WaitResetResp
            else
              && (next == WaitHello <==> id == 1 || (id == 11 && env.cmdOk))
              && (next == WaitCommand <==> id == 3)
              && (next == WaitDoneResp <==> id == 4 && word3 == 0)
              && (next == WaitMemoryTable <==> id == 9 && word3 % 52 == 0)
              && next != WaitMemoryRegion
  {
    hide Word, AnswerBytes, RawBuffer, ReadAt, Resized;
  }

  lemma {:induction false} ResetEnds(h: Host, cfg: Config, envs: seq<Env>)
    requires WellFormed(h) && h.state == WaitResetResp && envs != []
    requires forall env | env in envs :: env.rx.Some?
    requires forall k | 0 <= k < |envs| :: Word(envs[k].rx.value, 0) == 8 <==> k == |envs| - 1
    ensures Run(h, cfg, envs).1 == if cfg.mode == h.helloMode then Success else Exit5
    decreases envs
  {
    hide Word;
    assert envs[0] in envs;
    RunOn(h, cfg, envs);
    if |envs| > 1 {
      var h1 := Step(h, cfg, envs[0]).0;
      assert h1 == h.(trace := h1.trace);
      forall k | 0 <= k < |envs| - 1 ensures Word(envs[1..][k].rx.value, 0) == 8 <==> k == |envs| - 2 {
        assert envs[1..][k] == envs[k + 1];
      }
      ResetEnds(h1, cfg, envs[1..]);
    }
  }

  /** A refusal ends the run: once RESET is answered, whatever comes before that, it returns
      SUCCESS if the mode last answered is the one asked for, and exits with 5 if not. */
  lemma {:induction false} RefusalEnds(h: Host, cfg: Config, env: Env, envs: seq<Env>)
    requires WellFormed(h) && (h.state == WaitHello || h.state == WaitCommand)
    requires env.rx.Some? && env.txOk && Refused(h.state, env.rx.value, env.cmdOk)
    requires envs != [] && forall e | e in envs :: e.rx.Some?
    requires forall k | 0 <= k < |envs| :: Word(envs[k].rx.value, 0) == 8 <==> k == |envs| - 1
    ensures Run(h, cfg, [env] + envs).1 == if cfg.mode == h.helloMode then Success else Exit5
  {
    hide Word, Step, Refused, WellFormed;
    RefusedIff(h, cfg, env);
    RunOn(h, cfg, [env] + envs);
    assert ([env] + envs)[1..] == envs;
    ResetEnds(Step(h, cfg, env).0, cfg, envs);
  }

  // ------------------------------------------------------------ whole memory dumps

  /** MEMORY_DEBUG names the region table: the host reads exactly that. */
  lemma {:induction false} DebugStep(h: Host, cfg: Config, env: Env, address: nat, length: nat)
    requires WellFormed(h) && h.state == WaitCommand && Brings(env, [9, 16, address, length]) && length % 52 == 0
    ensures var (h1, outcome) := Step(h, cfg, env);
            && outcome == Running && h1.state == WaitMemoryTable && h1.tableLength == length
            && h1.dump == h.dump && h1.helloMode == h.helloMode
            && h1.trace != [] && Last(h1.trace).sent == Some(MemoryRead(Read(address, length)))
  {
    hide Word;
    var words := [9, 16, address, length];
    assert Word(env.rx.value, 0) == words[0] && Word(env.rx.value, 2) == words[2] && Word(env.rx.value, 3) == words[3];
  }

  /** No five receives in a row fail, after `n` that did. */
  predicate Attentive(answers: seq<Answer>, n: nat) {
    answers == [] ||
    (if answers[0].arrives then Attentive(answers[1..], 0) else n + 1 < 5 && Attentive(answers[1..], n + 1))
  }

  /** The calls of an iteration succeed, and write() takes all it is given. */
  predicate Serves(io: Io) {
    io.wrote >= 0x100000 && io.pathOk && io.openOk && io.txOk
  }

  lemma {:induction false} ServedPass(d: DumpState, memory: int -> bv8, a: Answer)
    requires 0 <= d.num < |d.table| && d.fd.Some? && d.pending <= 0x100000 && Serves(a.io)
    requires a.arrives || d.failures + 1 < 5
    ensures var (d1, rc) := Pass(d, Reply(d, memory, a), a.io);
            && rc != Fail && !Short(d, a)
            && (rc == Continue ==>
                  && 0 <= d1.num < |d1.table| && d1.fd.Some? && d1.pending <= 0x100000
                  && d1.failures == if a.arrives then 0 else d.failures + 1)
  {
    hide Slice;
  }

  lemma {:induction false} ServedRun(d: DumpState, memory: int -> bv8, answers: seq<Answer>)
    requires 0 <= d.num < |d.table| && d.fd.Some? && d.pending <= 0x100000
    requires Attentive(answers, d.failures) && forall a | a in answers :: Serves(a.io)
    ensures DumpRun(d, memory, answers).1 != Fail && WritesWhole(d, memory, answers)
    decreases answers
  {
    hide Pass, Reply, Serves, Short;
    if answers != [] {
      var a := answers[0];
      assert a in answers;
      ServedPass(d, memory, a);
      var (d1, rc) := Pass(d, Reply(d, memory, a), a.io);
      if rc == Continue {
        assert forall b | b in answers[1..] :: b in answers;
        ServedRun(d1, memory, answers[1..]);
      }
    }
  }

  lemma {:induction false} ServedPhase(d: DumpState, memory: int -> bv8, table: seq<Region>, io: Io, answers: seq<Answer>)
    requires d.failures == 0 && ValidTable(table) && Serves(io) && forall a | a in answers :: Serves(a.io)
    requires Attentive(answers, 0) && |answers| >= 5 * TotalPieces(table)
    ensures Phase(d, memory, table, io, answers).1 == Finished && PhaseWhole(d, memory, table, io, answers)
  {
    hide DumpRun, WritesWhole, Attentive, FollowsPlan, MemoryDump.Requests, TotalPieces;
    DumpTerminates(d, memory, table, io, answers);
    var (d1, rc) := Enter(d, table, io);
    if rc == Continue {
      ServedRun(d1, memory, answers);
    }
  }

  /** The dump is over: the target is told to switch modes and say HELLO again, or, if the host
      was asked for a dump, to reset. */
  predicate DumpEnded(h: Host, cfg: Config) {
    h.trace != [] &&
    if cfg.mode != 2 then h.state == WaitHello && Last(h.trace).sent == Some(SwitchMode(0))
    else h.state == WaitResetResp && Last(h.trace).sent == Some(Reset)
  }

  lemma {:induction false} RegionEnd(h: Host, cfg: Config, memory: int -> bv8, env: Env)
    requires WellFormed(h) && h.state == WaitMemoryRegion && Honest(h, cfg, memory, [env]) && env.txOk
    ensures var a := Answer(env.rx.Some?, env.io);
            var (d, rc) := Pass(h.dump, Reply(h.dump, memory, a), env.io);
            var (h1, outcome) := Step(h, cfg, env);
            && h1.dump == d && h1.helloMode == h.helloMode
            && (rc == Continue ==> outcome == Running && h1.state == WaitMemoryRegion)
            && (rc == Finished ==> outcome == Running && DumpEnded(h1, cfg))
  {
    hide Pass, Slice;
  }

  lemma {:induction false} RegionsEnd(h: Host, cfg: Config, memory: int -> bv8, envs: seq<Env>)
    returns (n: nat, h1: Host)
    requires WellFormed(h) && h.state == WaitMemoryRegion && Honest(h, cfg, memory, envs)
    requires DumpRun(h.dump, memory, Answers(envs)).1 == Finished && forall env | env in envs :: env.txOk
    ensures n <= |envs| && Run(h, cfg, envs[..n]) == (h1, Running)
    ensures DumpEnded(h1, cfg) && h1.dump == DumpRun(h.dump, memory, Answers(envs)).0 && h1.helloMode == h.helloMode
    decreases envs
  {
    hide Step, Pass, Reply, Slice, DumpEnded;
    var a := Answers(envs)[0];
    assert envs[0] in envs && Answers(envs)[1..] == Answers(envs[1..]);
    RegionEnd(h, cfg, memory, envs[0]);
    DumpBounds(h.dump, Reply(h.dump, memory, a), [], envs[0].io);
    var g := Step(h, cfg, envs[0]).0;
    if Pass(h.dump, Reply(h.dump, memory, a), a.io).1 == Finished {
      n, h1 := 1, g;
      assert envs[..1] == [envs[0]];
      OneRun(h, cfg, envs[0]);
    } else {
      assert forall env | env in envs[1..] :: env in envs;
      n, h1 := RegionsEnd(g, cfg, memory, envs[1..]);
      n := n + 1;
      RunOn(h, cfg, envs[..n]);
      assert envs[..n][1..] == envs[1..][..n - 1];
    }
  }

  lemma {:induction false} TableEnd(h: Host, cfg: Config, env: Env)
    requires WellFormed(h) && h.state == WaitMemoryTable && env.rx.Some? && env.dirOk && env.txOk
    ensures var table := TableOf(FirstBytes(env.rx.value, h.tableLength));
            var (d, rc) := Enter(h.dump, table, env.io);
            var (h1, outcome) := Step(h, cfg, env);
            && h1.dump == d && h1.helloMode == h.helloMode
            && (rc == Continue ==> outcome == Running && h1.state == WaitMemoryRegion)
            && (rc == Finished ==> outcome == Running && DumpEnded(h1, cfg))
  {
    hide Enter, TableOf;
  }

  lemma {:induction false} TableDumped(h: Host, cfg: Config, memory: int -> bv8, env: Env, envs: seq<Env>)
    returns (n: nat, h1: Host)
    requires WellFormed(h) && h.state == WaitMemoryTable && h.dump.failures == 0
    requires env.rx.Some? && env.dirOk && env.txOk && Serves(env.io)
    requires forall e | e in envs :: e.txOk && Serves(e.io)
    requires var table := TableOf(FirstBytes(env.rx.value, h.tableLength));
             && (forall r | r in table :: r.length != 0)
             && Attentive(Answers(envs), 0) && |envs| >= 5 * TotalPieces(table)
    requires var h0 := Step(h, cfg, env).0;
             WellFormed(h0) ==> Honest(h0, cfg, memory, envs)
    ensures n <= |envs| && Run(h, cfg, [env] + envs[..n]) == (h1, Running)
    ensures DumpEnded(h1, cfg) && h1.helloMode == h.helloMode
    ensures var table := TableOf(FirstBytes(env.rx.value, h.tableLength));
            forall j | 0 <= j < |table| && (forall i | 0 <= i < j :: table[i].filename != table[j].filename) ::
              Exact(h1.dump.disk, memory, table, j)
  {
    hide Enter, TableOf, Step, Serves, Honest, DumpRun, PhaseWhole, Attentive, DumpEnded, Exact;
    var bytes := FirstBytes(env.rx.value, h.tableLength);
    var table := TableOf(bytes);
    TableValid(bytes);
    AnswersServe(envs);
    ServedPhase(h.dump, memory, table, env.io, Answers(envs));
    DumpExact(h.dump, memory, table, env.io, Answers(envs));
    TableEnd(h, cfg, env);
    DumpBounds(h.dump, None, table, env.io);
    var g := Step(h, cfg, env).0;
    if Enter(h.dump, table, env.io).1 == Continue {
      n, h1 := RegionsEnd(g, cfg, memory, envs);
    } else {
      n, h1 := 0, g;
      assert envs[..0] == [];
      NothingRuns(g, cfg);
    }
    RunOn(h, cfg, [env] + envs[..n]);
    assert ([env] + envs[..n])[1..] == envs[..n];
  }

  lemma {:induction false} NothingRuns(h: Host, cfg: Config)
    requires WellFormed(h)
    ensures Run(h, cfg, []) == (h, Running)
  {
  }

  lemma {:induction false} AnswersServe(envs: seq<Env>)
    requires forall e | e in envs :: Serves(e.io)
    ensures forall a | a in Answers(envs) :: Serves(a.io)
  {
    hide Serves;
    if envs != [] {
      assert envs[0] in envs && forall e | e in envs[1..] :: e in envs;
      AnswersServe(envs[1..]);
    }
  }

  lemma {:induction false} RunBoth(h: Host, cfg: Config, a: seq<Env>, b: seq<Env>)
    requires WellFormed(h) && Run(h, cfg, a).1 == Running
    ensures WellFormed(Run(h, cfg, a).0) && Run(h, cfg, a + b) == Run(Run(h, cfg, a).0, cfg, b)
    decreases a
  {
    hide Step, WellFormed;
    if a == [] {
      assert a + b == b;
    } else {
      assert (a + b)[1..] == a[1..] + b;
      RunBoth(Step(h, cfg, a[0]).0, cfg, a[1..], b);
    }
  }

  lemma {:induction false} TableAsked(cfg: Config, rawBuffer: seq<bv8>, disk: Disk, mode: nat, address: nat, length: nat,
                                      hello: Env, debug: Env)
    requires |rawBuffer| == 0x100000 && length % 52 == 0
    requires Brings(hello, [1, 48, 2, 2, 0, mode]) && Brings(debug, [9, 16, address, length])
    ensures WellFormed(Start(cfg, rawBuffer, disk))
    ensures var (h, outcome) := Run(Start(cfg, rawBuffer, disk), cfg, [hello, debug]);
            && outcome == Running && WellFormed(h) && h.state == WaitMemoryTable && h.tableLength == length
            && h.trace != [] && Last(h.trace).sent == Some(MemoryRead(Read(address, length)))
            && h.dump.failures == 0
            && (cfg.mode < 4 && cfg.memdebugImage == -1 ==> h.helloMode == cfg.mode)
  {
    hide Step, Brings, Run;
    var h0, envs := Start(cfg, rawBuffer, disk), [hello, debug];
    HelloStep(h0, cfg, hello, mode);
    RunOn(h0, cfg, envs);
    assert envs[1..] == [debug];
    var h1 := Step(h0, cfg, hello).0;
    DebugStep(h1, cfg, debug, address, length);
    OneRun(h1, cfg, debug);
  }

  /** A whole memory dump. HELLO, MEMORY_DEBUG, the table, then the target's memory whenever
      something comes: if no five receives in a row fail, then within five receives for every
      piece the dump has ended with every region in its file, and the run goes on to HELLO or
      to the reset. A host that was asked for the dump then returns SUCCESS on RESET_RESP. */
  lemma {:induction false} DumpCrosses(cfg: Config, rawBuffer: seq<bv8>, disk: Disk, memory: int -> bv8,
                                       mode: nat, address: nat, length: nat,
                                       hello: Env, debug: Env, env: Env, envs: seq<Env>) returns (n: nat, h: Host)
    requires |rawBuffer| == 0x100000 && length % 52 == 0
    requires Brings(hello, [1, 48, 2, 2, 0, mode]) && Brings(debug, [9, 16, address, length])
    requires env.rx.Some? && env.dirOk && env.txOk && Serves(env.io)
    requires forall e | e in envs :: e.txOk && Serves(e.io)
    requires var table := TableOf(FirstBytes(env.rx.value, length));
             && (forall r | r in table :: r.length != 0)
             && Attentive(Answers(envs), 0) && |envs| >= 5 * TotalPieces(table)
    requires var h0 := Run(Start(cfg, rawBuffer, disk), cfg, [hello, debug] + [env]).0;
             WellFormed(h0) ==> Honest(h0, cfg, memory, envs)
    ensures n <= |envs| && Run(Start(cfg, rawBuffer, disk), cfg, [hello, debug] + ([env] + envs[..n])) == (h, Running)
    ensures DumpEnded(h, cfg)
    ensures var table := TableOf(FirstBytes(env.rx.value, length));
            forall j | 0 <= j < |table| && (forall i | 0 <= i < j :: table[i].filename != table[j].filename) ::
              Exact(h.dump.disk, memory, table, j)
    ensures cfg.mode == 2 && cfg.memdebugImage == -1 ==>
              WellFormed(h) &&
              forall last: Env | last.rx.Some? && Word(last.rx.value, 0) == 8 :: Run(h, cfg, [last]).1 == Success
  {
    hide Step, Brings, Run, Serves, Attentive, Honest, TableOf, Exact, WellFormed, Word;
    var h0 := Start(cfg, rawBuffer, disk);
    TableAsked(cfg, rawBuffer, disk, mode, address, length, hello, debug);
    RunThen(h0, cfg, [hello, debug], env);
    var g := Run(h0, cfg, [hello, debug]).0;
    n, h := TableDumped(g, cfg, memory, env, envs);
    RunBoth(h0, cfg, [hello, debug], [env] + envs[..n]);
    RunBoth(g, cfg, [env] + envs[..n], []);
    if cfg.mode == 2 && cfg.memdebugImage == -1 {
      forall last: Env | last.rx.Some? && Word(last.rx.value, 0) == 8 ensures Run(h, cfg, [last]).1 == Success {
        ResetEnds(h, cfg, [last]);
      }
    }
  }

  // ------------------------------------------------------------ when a run fails

  predicate BadRequest(file: File, n: nat) {
    n == 0 || (file.regular && n > |file.bytes|)
  }

  /** The file a READ_DATA is about: the one being served, or the one its id names. */
  function Wanted(h: Host, cfg: Config, id: nat): Option<File> {
    if h.started then h.file else cfg.images(id)
  }

  /** An iteration fails exactly if nothing is received, except a piece of a dump that has failed
      fewer than four times before; if an answer cannot be sent; if a file cannot be opened, read
      or written, a request is for no bytes or for more than a regular file has, the folder or the
      name of a dump file cannot be made; or if DONE is answered with neither 0 nor 1. DONE
      itself, and the RESET for an image that nobody registered, may fail to be sent. */
  lemma {:induction false} FailsIff(h: Host, cfg: Config, env: Env)
    requires WellFormed(h) && (h.started ==> h.file.Some? && h.fd == h.file)
    ensures Step(h, cfg, env).1 == Failed <==>
            if h.state == WaitMemoryRegion then
              var d := h.dump;
              var last := env.rx.Some? && (d.table[d.num].length - d.pending) % 0x1_0000_0000 == 0;
              || (env.rx.None? && d.failures + 1 == 5)
              || (env.rx.Some? && (env.io.wrote < 0 || d.fd.None?))
              || (if last && d.num == 0 then !env.txOk else !env.io.txOk || (last && !env.io.pathOk))
            else
              env.rx.None? ||
              var id, word2, word3, word4 :=
                Word(env.rx.value, 0), Word(env.rx.value, 2), Word(env.rx.value, 3), Word(env.rx.value, 4);
              match h.state
              case WaitDoneResp => word2 > 1
              case WaitHello => !env.txOk
              case WaitCommand =>
                if id == 3 then
                  && Wanted(h, cfg, word2).Some?
                  && (BadRequest(Wanted(h, cfg, word2).value, word4) || !env.readOk || !env.txOk ||
                      (!h.started && !env.openOk))
                else if id == 4 && word3 == 0 then false
                else if id == 11 && env.cmdOk then false
                else id != 1 && !env.txOk
              case WaitMemoryTable =>
                !env.dirOk || (if h.tableLength < 52 then !env.txOk else !env.io.pathOk || !env.io.txOk)
              case _ => false
  {
    hide Word, AnswerBytes, RawBuffer, ReadAt, Resized, Pass, Enter, TableOf;
    if h.state == WaitMemoryRegion {
      var rx := if env.rx.Some? then Some(FirstBytes(env.rx.value, h.dump.pending)) else None;
      PassFailsIff(h.dump, rx, env.io);
      PassEnds(h.dump, rx, env.io);
    } else if h.state == WaitMemoryTable && env.rx.Some? {
      var table := TableOf(FirstBytes(env.rx.value, h.tableLength));
      EnterFailsIff(h.dump, table, env.io);
      assert |table| == h.tableLength / 52;
    }
  }

  lemma {:induction false} PassEnds(d: DumpState, rx: Option<seq<bv8>>, io: Io)
    requires 0 <= d.num < |d.table|
    ensures Pass(d, rx, io).1 == Finished <==>
            rx.Some? && io.wrote >= 0 && d.fd.Some? && d.num == 0 && (d.table[d.num].length - d.pending) % 0x1_0000_0000 == 0
  {
  }

  /** What HELLO is answered with: status 3 unless the target speaks version 2, and the mode asked
      for, if it is still to be forced, or else the target's own. */
  lemma {:induction false} HelloAnswer(h: Host, cfg: Config, env: Env)
    requires WellFormed(h) && h.state == WaitHello && env.rx.Some? && Word(env.rx.value, 0) == 1
    ensures var h1 := Step(h, cfg, env).0;
            var mode := if cfg.mode < 4 && h.armed then cfg.mode else Word(env.rx.value, 5);
            && h1.trace != [] && h1.helloMode == mode && !h1.started && h1.armed == (h.armed && cfg.mode >= 4)
            && Last(h1.trace).sent == Some(HelloResp(if Word(env.rx.value, 2) == 2 then 0 else 3, mode))
  {
    hide Word;
  }
}
