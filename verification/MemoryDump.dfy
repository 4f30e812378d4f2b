/** The memory-dump phase of ks/sahara_protocol.c: for each entry of the target's region
    table, last entry first, MEMORY_READs of at most one mebibyte, each repeated until
    its data arrive or the fifth attempt in a row fails.

    `Plan` says which reads a table calls for. The loop is proved to follow the plan
    whatever the target does, and a completed phase to leave each file equal to memory. */
module MemoryDump {
  import opened Options
  import opened Bytes
  import opened Numbers

  const MAXMEMREAD := 1048576
  const MAXDUMPFAIL := 5

  type Name = seq<bv8>
  type Disk = map<Name, seq<bv8>>

  datatype Region = Region(base: nat, length: nat, filename: Name)

  datatype Read = Read(address: nat, length: nat)

  // --------------------------------------------------------------- the plan

  function Pieces(base: nat, length: nat): seq<Read>
    decreases length
  {
    if length <= MAXMEMREAD then [Read(base, length)]
    else [Read(base, MAXMEMREAD)] + Pieces((base + MAXMEMREAD) % ADDRESS_SPACE, length - MAXMEMREAD)
  }

  /** The reads for entries `num`, `num - 1`, ..., 0. */
  function Plan(table: seq<Region>, num: int): seq<Read>
    requires num < |table|
    decreases num + 1
  {
    if num < 0 then [] else Pieces(table[num].base, table[num].length) + Plan(table, num - 1)
  }

  function PlanOf(table: seq<Region>): seq<Read> {
    Plan(table, |table| - 1)
  }

  /** Target memory from `base` on, wrapping at 32 bits. */
  function Slice(memory: int -> bv8, base: nat, length: nat): (s: seq<bv8>)
    ensures |s| == length
  {
    seq(length, i => memory((base + i) % ADDRESS_SPACE))
  }

  /** The files after entries `num` to the last have been dumped over `disk`: each entry
      truncates the file of its name, so of two entries with one name the lower wins. */
  function Saved(table: seq<Region>, memory: int -> bv8, disk: Disk, num: nat): Disk
    decreases |table| - num
  {
    if num >= |table| then disk
    else Saved(table, memory, disk, num + 1)[table[num].filename := Slice(memory, table[num].base, table[num].length)]
  }

  // ------------------------------------------------------- the table received

  const ENTRY_SIZE := 52

  /** A C string: the bytes before the first NUL. */
  function CString(s: seq<bv8>): seq<bv8> {
    if s == [] || s[0] == 0 then [] else [s[0]] + CString(s[1..])
  }

  /** The fields of one `struct dload_debug_type`: base, length and file name. */
  function EntryAt(buffer: seq<bv8>, i: nat): Region
    requires (i + 1) * ENTRY_SIZE <= |buffer|
  {
    var e := buffer[i * ENTRY_SIZE..(i + 1) * ENTRY_SIZE];
    Region(FromLe(e[4..8]), FromLe(e[8..12]), CString(e[32..52]))
  }

  function TableOf(buffer: seq<bv8>): (table: seq<Region>)
    ensures |table| == |buffer| / ENTRY_SIZE
  {
    seq(|buffer| / ENTRY_SIZE, i requires 0 <= i < |buffer| / ENTRY_SIZE => EntryAt(buffer, i))
  }

  predicate IsValidMemoryTable(size: nat) {
    size % ENTRY_SIZE == 0
  }

  lemma {:induction false} FromLeBound(s: seq<bv8>)
    requires |s| == 4
    ensures FromLe(s) < ADDRESS_SPACE
  {
    hide FromByte;
    assert s[1..][1..][1..][1..] == [];
    assert FromLe(s[1..][1..]) == FromByte(s[1..][1..][0]) + 256 * FromLe(s[1..][1..][1..]);
  }

  /** Whatever bytes the target sends, the fields have 32 bits; only emptiness needs asking. */
  lemma {:induction false} TableValid(buffer: seq<bv8>)
    ensures ValidTable(TableOf(buffer)) <==> forall r | r in TableOf(buffer) :: r.length != 0
  {
    hide FromLe, CString;
    var table := TableOf(buffer);
    forall r | r in table ensures r.base < ADDRESS_SPACE && r.length < ADDRESS_SPACE {
      var i :| 0 <= i < |table| && table[i] == r;
      var e := buffer[i * ENTRY_SIZE..(i + 1) * ENTRY_SIZE];
      FromLeBound(e[4..8]);
      FromLeBound(e[8..12]);
    }
  }

  /** One entry as the target lays it out: a preference byte and its padding, base, length,
      a description, and a file name filled up with NULs. */
  datatype Laid = Laid(region: Region, preference: seq<bv8>, description: seq<bv8>)

  predicate Layable(e: Laid) {
    && |e.preference| == 4 && |e.description| == 20 && |e.region.filename| < 20
    && 0 !in e.region.filename && e.region.base < ADDRESS_SPACE && e.region.length < ADDRESS_SPACE
  }

  function EntryBytes(e: Laid): (s: seq<bv8>)
    requires Layable(e)
    ensures |s| == ENTRY_SIZE
  {
    e.preference + Le32(e.region.base) + Le32(e.region.length) + e.description +
    e.region.filename + Zeros(20 - |e.region.filename|)
  }

  function TableBytes(es: seq<Laid>): (s: seq<bv8>)
    requires forall e | e in es :: Layable(e)
    ensures |s| == |es| * ENTRY_SIZE
  {
    if es == [] then [] else TableBytes(es[..|es| - 1]) + EntryBytes(es[|es| - 1])
  }

  lemma {:induction false} CStringOfName(name: seq<bv8>, n: nat)
    requires 0 !in name && n > 0
    ensures CString(name + Zeros(n)) == name
  {
    var s := name + Zeros(n);
    if name != [] {
      assert s[0] == name[0] && s[1..] == name[1..] + Zeros(n);
      CStringOfName(name[1..], n);
    }
  }

  lemma {:induction false} EntryRoundTrip(e: Laid)
    requires Layable(e)
    ensures EntryAt(EntryBytes(e), 0) == e.region
  {
    hide Le32, FromLe, CString, Zeros;
    var b, r := EntryBytes(e), e.region;
    assert b[0..ENTRY_SIZE] == b;
    assert b[4..8] == Le32(r.base) && b[8..12] == Le32(r.length);
    assert b[32..52] == r.filename + Zeros(20 - |r.filename|);
    Le32RoundTrip(r.base);
    Le32RoundTrip(r.length);
    CStringOfName(r.filename, 20 - |r.filename|);
  }

  /** The table a target lays out is the table that is read. */
  lemma {:induction false} TableRoundTrip(es: seq<Laid>)
    requires forall e | e in es :: Layable(e)
    ensures IsValidMemoryTable(|TableBytes(es)|) && |TableOf(TableBytes(es))| == |es|
    ensures forall i | 0 <= i < |es| :: TableOf(TableBytes(es))[i] == es[i].region
  {
    hide FromLe, CString, EntryBytes;
    if es != [] {
      var n := |es| - 1;
      var front, last, all := TableBytes(es[..n]), EntryBytes(es[n]), TableBytes(es);
      TableRoundTrip(es[..n]);
      EntryRoundTrip(es[n]);
      assert all == front + last && last[0..ENTRY_SIZE] == last;
      forall i | 0 <= i < |es| ensures TableOf(all)[i] == es[i].region {
        var slot := all[i * ENTRY_SIZE..(i + 1) * ENTRY_SIZE];
        if i < n {
          assert slot == front[i * ENTRY_SIZE..(i + 1) * ENTRY_SIZE];
          assert TableOf(front)[i] == es[..n][i].region;
        } else {
          assert i * ENTRY_SIZE == |front| && (i + 1) * ENTRY_SIZE == |all|;
          assert slot == all[|front|..] == last;
        }
      }
    }
  }

  // ------------------------------------------------------------ one iteration

  datatype Act = Requested(read: Read) | Received | Missed

  datatype DumpState = DumpState(
    table: seq<Region>,   // dload_debug_info, whose entries shrink as they are read
    num: int,             // num_debug_entries: the entry being read
    failures: nat,        // num_dump_failures
    pending: nat,         // recv_buffer_size
    fd: Option<Name>,
    disk: Disk,
    trace: seq<Act>)      // what has been asked for, and whether it came

  /** Results of the system calls of one iteration. `wrote` is what write() to the open file
      returns: an error if negative, or else how many bytes it takes, at most all. */
  datatype Io = Io(wrote: int, pathOk: bool, openOk: bool, txOk: bool)

  datatype Rc = Continue | Finished | Fail

  /** Build the file name of the current entry and open it, truncating. */
  function OpenEntry(d: DumpState, io: Io): (DumpState, Rc)
    requires 0 <= d.num < |d.table|
  {
    var name := d.table[d.num].filename;
    if !io.pathOk then (d, Fail)
    else if !io.openOk then (d.(fd := None), Continue)
    else (d.(fd := Some(name), disk := d.disk[name := []]), Continue)
  }

  /** Ask for the next piece of the current entry, if there is one. */
  function SendRead(d: DumpState, io: Io): (DumpState, Rc)
    requires d.num < |d.table|
  {
    if d.num < 0 then (d, Finished)
    else
      var n := Min(d.table[d.num].length, MAXMEMREAD);
      if !io.txOk then (d, Fail)
      else (d.(pending := n, trace := d.trace + [Requested(Read(d.table[d.num].base, n))]), Continue)
  }

  /** Start on the current entry: open its file, then ask for its first piece. */
  function StartEntry(d: DumpState, io: Io): (DumpState, Rc)
    requires d.num < |d.table|
  {
    if d.num < 0 then SendRead(d, io)
    else
      var (d1, rc) := OpenEntry(d, io);
      if rc == Fail then (d1, Fail) else SendRead(d1, io)
  }

  /** The iteration that has read the table. */
  function Enter(d: DumpState, table: seq<Region>, io: Io): (DumpState, Rc) {
    StartEntry(d.(table := table, num := |table| - 1, trace := []), io)
  }

  /** The current entry once its pending bytes have come. */
  function Consumed(r: Region, pending: nat): Region {
    r.(base := (r.base + pending) % ADDRESS_SPACE, length := (r.length - pending) % ADDRESS_SPACE)
  }

  /** The outstanding piece has come: it is off its entry, and no failure is pending. */
  function Taken(d: DumpState): DumpState
    requires 0 <= d.num < |d.table|
  {
    d.(failures := 0, table := d.table[d.num := Consumed(d.table[d.num], d.pending)], trace := d.trace + [Received])
  }

  /** ... and what write() took of it has been appended to the open file. */
  function Written(d: DumpState, data: seq<bv8>): DumpState
    requires 0 <= d.num < |d.table| && d.fd.Some?
  {
    var so := if d.fd.value in d.disk then d.disk[d.fd.value] else [];
    Taken(d).(disk := d.disk[d.fd.value := so + data])
  }

  function Pass(d: DumpState, rx: Option<seq<bv8>>, io: Io): (DumpState, Rc)
    requires 0 <= d.num < |d.table|
  {
    if rx.None? then
      var d1 := d.(failures := d.failures + 1, trace := d.trace + [Missed]);
      if d1.failures == MAXDUMPFAIL then (d1, Fail) else SendRead(d1, io)
    else if io.wrote < 0 || d.fd.None? then (Taken(d), Fail)
    else
      var d1 := Written(d, rx.value[..Min(io.wrote, |rx.value|)]);
      if d1.table[d.num].length != 0 then SendRead(d1, io)
      else StartEntry(d1.(num := d.num - 1, fd := None), io)
  }

  // -------------------------------------------------------------- whole runs

  /** One answer of the target and of the host's system calls. When the data arrive
      they are the memory that was asked for. */
  datatype Answer = Answer(arrives: bool, io: Io)

  function Reply(d: DumpState, memory: int -> bv8, a: Answer): Option<seq<bv8>>
    requires 0 <= d.num < |d.table|
  {
    if a.arrives then Some(Slice(memory, d.table[d.num].base, d.pending)) else None
  }

  function DumpRun(d: DumpState, memory: int -> bv8, answers: seq<Answer>): (DumpState, Rc)
    requires 0 <= d.num < |d.table|
    decreases answers
  {
    if answers == [] then (d, Continue)
    else
      var (d1, rc) := Pass(d, Reply(d, memory, answers[0]), answers[0].io);
      if rc != Continue || !(0 <= d1.num < |d1.table|) then (d1, rc) else DumpRun(d1, memory, answers[1..])
  }

  /** A whole phase: entered with a table, then answered. */
  function Phase(d: DumpState, memory: int -> bv8, table: seq<Region>, io: Io, answers: seq<Answer>): (DumpState, Rc) {
    var (d1, rc) := Enter(d, table, io);
    if rc != Continue || !(0 <= d1.num < |d1.table|) then (d1, rc) else DumpRun(d1, memory, answers)
  }

  /** write() takes less than has come, which the host only warns of. */
  predicate Short(d: DumpState, a: Answer) {
    a.arrives && 0 <= a.io.wrote < d.pending
  }

  /** No write() of a run is short. */
  predicate WritesWhole(d: DumpState, memory: int -> bv8, answers: seq<Answer>)
    requires 0 <= d.num < |d.table|
    decreases answers
  {
    answers == [] ||
    (!Short(d, answers[0]) &&
     var (d1, rc) := Pass(d, Reply(d, memory, answers[0]), answers[0].io);
     rc != Continue || !(0 <= d1.num < |d1.table|) || WritesWhole(d1, memory, answers[1..]))
  }

  predicate PhaseWhole(d: DumpState, memory: int -> bv8, table: seq<Region>, io: Io, answers: seq<Answer>) {
    var (d1, rc) := Enter(d, table, io);
    rc != Continue || !(0 <= d1.num < |d1.table|) || WritesWhole(d1, memory, answers)
  }

  /** An iteration fails exactly if nothing has come for the fifth time in a row, or what has
      come cannot be written, or it has to ask for more and cannot: its request cannot be sent,
      or the name of the next file does not fit. */
  lemma {:induction false} PassFailsIff(d: DumpState, rx: Option<seq<bv8>>, io: Io)
    requires 0 <= d.num < |d.table|
    ensures Pass(d, rx, io).1 == Fail <==>
            if rx.None? then d.failures + 1 == 5 || !io.txOk
            else
              || io.wrote < 0 || d.fd.None?
              || (if (d.table[d.num].length - d.pending) % 0x1_0000_0000 != 0 then !io.txOk
                  else d.num > 0 && (!io.pathOk || !io.txOk))
  {
  }

  /** Entering fails exactly if there is an entry, and its file name does not fit or its first
      piece cannot be asked for. */
  lemma {:induction false} EnterFailsIff(d: DumpState, table: seq<Region>, io: Io)
    ensures Enter(d, table, io).1 == Fail <==> table != [] && (!io.pathOk || !io.txOk)
    ensures Enter(d, table, io).1 == Finished <==> table == []
  {
  }

  // ------------------------------------------------------------- the invariant

  function Count(trace: seq<Act>, act: Act): nat {
    if trace == [] then 0 else Count(trace[..|trace| - 1], act) + if trace[|trace| - 1] == act then 1 else 0
  }

  function Arrived(trace: seq<Act>): nat { Count(trace, Received) }

  /** Failures since the last arrival. */
  function Streak(trace: seq<Act>): nat {
    if trace == [] || trace[|trace| - 1] == Received then 0
    else Streak(trace[..|trace| - 1]) + if trace[|trace| - 1] == Missed then 1 else 0
  }

  /** Every request asks for the first piece of the plan that has not arrived, after
      fewer than five failures in a row. */
  ghost predicate FollowsPlan(trace: seq<Act>, plan: seq<Read>) {
    forall i | 0 <= i < |trace| && trace[i].Requested? ::
      var k := Arrived(trace[..i]);
      k < |plan| && trace[i].read == plan[k] && Streak(trace[..i]) < MAXDUMPFAIL
  }

  function Requests(trace: seq<Act>): nat {
    if trace == [] then 0 else Requests(trace[..|trace| - 1]) + if trace[|trace| - 1].Requested? then 1 else 0
  }

  /** The reads that remain: the rest of the current entry and the entries below it. */
  function Rest(d: DumpState): seq<Read>
    requires d.num < |d.table|
  {
    Plan(d.table, d.num)
  }

  /** Where the phase stands in the plan of the table it was entered with: the reads that
      remain are those after as many as have arrived. `asking` says whether a request is
      outstanding. */
  ghost predicate Progress(d: DumpState, table: seq<Region>, asking: bool) {
    var plan := PlanOf(table);
    && |d.table| == |table| && -1 <= d.num < |table|
    && (forall j | 0 <= j < d.num :: d.table[j] == table[j])
    && Arrived(d.trace) <= |plan| && Rest(d) == plan[Arrived(d.trace)..]
    && d.failures == Streak(d.trace) < MAXDUMPFAIL
    && FollowsPlan(d.trace, plan)
    && Requests(d.trace) == Arrived(d.trace) + Count(d.trace, Missed) + (if asking then 1 else 0)
    && Count(d.trace, Missed) <= (MAXDUMPFAIL - 1) * Arrived(d.trace) + d.failures
    && (d.num < 0 ==> d.failures == 0)
    && (asking ==> d.num >= 0 && d.pending == Min(d.table[d.num].length, MAXMEMREAD))
  }

  /** What is true between two iterations, relative also to target memory and the disk
      the phase found. */
  ghost predicate Inv(d: DumpState, table: seq<Region>, memory: int -> bv8, disk: Disk, asking: bool) {
    && Progress(d, table, asking)
    && (d.num < 0 ==> d.disk == Saved(table, memory, disk, 0))
    && (d.num >= 0 ==> EntryInv(d, table[d.num], Saved(table, memory, disk, d.num + 1), memory))
  }

  /** The state in which an entry is started: nothing of it has been read. */
  ghost predicate AtEntry(d: DumpState, table: seq<Region>, memory: int -> bv8, disk: Disk) {
    && Progress(d, table, false)
    && (d.num >= 0 ==> d.table[d.num] == table[d.num])
    && d.disk == Saved(table, memory, disk, d.num + 1)
  }

  /** How far the current entry has been read, and that its file holds exactly that. */
  ghost predicate EntryInv(d: DumpState, original: Region, others: Disk, memory: int -> bv8)
    requires 0 <= d.num < |d.table|
  {
    var r := d.table[d.num];
    && r.filename == original.filename && 0 < r.length <= original.length < ADDRESS_SPACE
    && r.base == (original.base + (original.length - r.length)) % ADDRESS_SPACE
    && (d.fd.Some? ==>
          d.fd.value == r.filename &&
          d.disk == others[r.filename := Slice(memory, original.base, original.length - r.length)])
  }

  /** Fields of 32 bits, and no region that is empty. */
  predicate ValidTable(table: seq<Region>) {
    forall r | r in table :: r.base < ADDRESS_SPACE && 0 < r.length < ADDRESS_SPACE
  }

  // ------------------------------------------------------------ what is kept

  lemma {:induction false} PlanFrame(a: seq<Region>, b: seq<Region>, num: int)
    requires num < |a| && num < |b| && forall j | 0 <= j <= num :: a[j] == b[j]
    ensures Plan(a, num) == Plan(b, num)
    decreases num + 1
  {
    if num >= 0 {
      PlanFrame(a, b, num - 1);
    }
  }

  lemma {:induction false} TraceGrows(trace: seq<Act>, act: Act)
    ensures Arrived(trace + [act]) == Arrived(trace) + if act == Received then 1 else 0
    ensures Count(trace + [act], Missed) == Count(trace, Missed) + if act == Missed then 1 else 0
    ensures Streak(trace + [act]) == if act == Received then 0 else Streak(trace) + if act == Missed then 1 else 0
    ensures Requests(trace + [act]) == Requests(trace) + if act.Requested? then 1 else 0
  {
    var t := trace + [act];
    assert t[..|t| - 1] == trace && t[|t| - 1] == act;
  }

  lemma {:induction false} FollowsGrows(trace: seq<Act>, plan: seq<Read>, act: Act)
    requires FollowsPlan(trace, plan)
    requires act.Requested? ==>
               Arrived(trace) < |plan| && act.read == plan[Arrived(trace)] && Streak(trace) < MAXDUMPFAIL
    ensures FollowsPlan(trace + [act], plan)
  {
    hide Arrived, Streak;
    var t := trace + [act];
    forall i | 0 <= i < |t| && t[i].Requested?
      ensures var k := Arrived(t[..i]);
              k < |plan| && t[i].read == plan[k] && Streak(t[..i]) < MAXDUMPFAIL
    {
      assert t[..i] == trace[..i];
      if i == |trace| {
        assert trace[..i] == trace;
      }
    }
  }

  lemma {:induction false} SendReadInv(d: DumpState, io: Io, table: seq<Region>, memory: int -> bv8, disk: Disk)
    requires Inv(d, table, memory, disk, false)
    ensures var (d', rc) := SendRead(d, io);
            && (rc == Continue ==> Inv(d', table, memory, disk, true))
            && (rc == Finished ==> d' == d && d.num < 0)
  {
    hide Saved, Arrived, Count, Streak, Requests, FollowsPlan, Slice;
    if d.num >= 0 && io.txOk {
      var act := Requested(Read(d.table[d.num].base, Min(d.table[d.num].length, MAXMEMREAD)));
      var k := Arrived(d.trace);
      assert Rest(d)[0] == act.read && PlanOf(table)[k..][0] == PlanOf(table)[k];
      TraceGrows(d.trace, act);
      FollowsGrows(d.trace, PlanOf(table), act);
    }
  }

  /** Starting an entry, whether or not its file can be opened. */
  lemma {:induction false} StartEntryInv(d: DumpState, io: Io, table: seq<Region>, memory: int -> bv8, disk: Disk)
    requires AtEntry(d, table, memory, disk) && ValidTable(table)
    ensures var (d', rc) := StartEntry(d, io);
            && (rc == Continue ==> Inv(d', table, memory, disk, true))
            && (rc == Finished ==> d'.num < 0 && Inv(d', table, memory, disk, false))
  {
    hide Saved, Arrived, Count, Streak, Requests, FollowsPlan, SendRead, Plan;
    if d.num < 0 {
      assert Inv(d, table, memory, disk, false);
      SendReadInv(d, io, table, memory, disk);
    } else {
      var r := table[d.num];
      assert r in table;
      assert Slice(memory, r.base, 0) == [];
      var (d1, rc) := OpenEntry(d, io);
      if rc == Continue {
        assert Rest(d1) == Rest(d);
        SendReadInv(d1, io, table, memory, disk);
      }
    }
  }

  lemma {:induction false} EnterInv(d: DumpState, memory: int -> bv8, table: seq<Region>, io: Io)
    requires d.failures == 0 && ValidTable(table)
    ensures var (d', rc) := Enter(d, table, io);
            && (rc == Continue ==> Inv(d', table, memory, d.disk, true))
            && (rc == Finished ==> d'.num < 0 && Inv(d', table, memory, d.disk, false))
  {
    hide StartEntry, Plan, Inv;
    var d1 := d.(table := table, num := |table| - 1, trace := []);
    assert PlanOf(table)[0..] == PlanOf(table);
    StartEntryInv(d1, io, table, memory, d.disk);
  }

  lemma WrapAdd(x: int, y: int)
    ensures (x % ADDRESS_SPACE + y) % ADDRESS_SPACE == (x + y) % ADDRESS_SPACE
  {
  }

  lemma {:induction false} SliceSplit(memory: int -> bv8, base: nat, m: nat, n: nat)
    ensures Slice(memory, base, m) + Slice(memory, (base + m) % ADDRESS_SPACE, n) == Slice(memory, base, m + n)
  {
    var s, t := Slice(memory, base, m) + Slice(memory, (base + m) % ADDRESS_SPACE, n), Slice(memory, base, m + n);
    forall i | 0 <= i < m + n ensures s[i] == t[i] {
      if i >= m {
        WrapAdd(base + m, i - m);
      }
    }
  }

  /** Consuming the outstanding piece of the current entry takes one read off the plan. */
  lemma {:induction false} ConsumedRest(d: DumpState)
    requires 0 <= d.num < |d.table| && d.pending == Min(d.table[d.num].length, MAXMEMREAD)
    requires d.table[d.num].length < ADDRESS_SPACE
    ensures var r := Consumed(d.table[d.num], d.pending);
            var table' := d.table[d.num := r];
            && r.length == d.table[d.num].length - d.pending
            && Rest(d) != []
            && Rest(d)[1..] == Plan(table', if r.length == 0 then d.num - 1 else d.num)
  {
    var r := Consumed(d.table[d.num], d.pending);
    PlanFrame(d.table, d.table[d.num := r], d.num - 1);
  }

  lemma {:induction false} MissedInv(d: DumpState, table: seq<Region>, memory: int -> bv8, disk: Disk)
    requires Inv(d, table, memory, disk, true) && d.failures + 1 < MAXDUMPFAIL
    ensures Inv(d.(failures := d.failures + 1, trace := d.trace + [Missed]), table, memory, disk, false)
  {
    hide Saved, Arrived, Count, Streak, Requests, FollowsPlan, Slice, Plan;
    TraceGrows(d.trace, Missed);
    FollowsGrows(d.trace, PlanOf(table), Missed);
  }

  lemma {:induction false} WrittenProgress(d: DumpState, data: seq<bv8>, table: seq<Region>)
    requires Progress(d, table, true) && d.fd.Some? && d.table[d.num].length < ADDRESS_SPACE
    ensures var d2 := Written(d, data);
            if d2.table[d.num].length != 0 then Progress(d2, table, false)
            else Progress(d2.(num := d.num - 1, fd := None), table, false)
  {
    hide Arrived, Count, Streak, Requests, FollowsPlan, Plan;
    var plan, k := PlanOf(table), Arrived(d.trace);
    ConsumedRest(d);
    assert k < |plan| && plan[k..][1..] == plan[k + 1..];
    TraceGrows(d.trace, Received);
    FollowsGrows(d.trace, plan, Received);
  }

  lemma {:induction false} WrittenDisk(d: DumpState, table: seq<Region>, memory: int -> bv8, disk: Disk)
    requires 0 <= d.num < |d.table| == |table| && d.fd.Some?
    requires EntryInv(d, table[d.num], Saved(table, memory, disk, d.num + 1), memory)
    requires d.pending == Min(d.table[d.num].length, MAXMEMREAD)
    ensures var d2 := Written(d, Slice(memory, d.table[d.num].base, d.pending));
            if d2.table[d.num].length != 0
            then EntryInv(d2, table[d.num], Saved(table, memory, disk, d.num + 1), memory)
            else d2.disk == Saved(table, memory, disk, d.num)
  {
    hide Slice;
    var r0, original := d.table[d.num], table[d.num];
    var r := Consumed(r0, d.pending);
    var done := original.length - r0.length;
    var others := Saved(table, memory, disk, d.num + 1);
    SliceSplit(memory, original.base, done, d.pending);
    assert r.length == r0.length - d.pending;
    assert d.disk[r.filename] + Slice(memory, r0.base, d.pending) == Slice(memory, original.base, done + d.pending);
    assert Written(d, Slice(memory, r0.base, d.pending)).disk ==
           others[r.filename := Slice(memory, original.base, done + d.pending)];
    WrapAdd(original.base + done, d.pending);
  }

  /** Every iteration whose write is not short keeps the invariant, whatever the target answers. */
  lemma {:induction false} PassInv(d: DumpState, memory: int -> bv8, a: Answer, table: seq<Region>, disk: Disk)
    requires Inv(d, table, memory, disk, true) && ValidTable(table) && !Short(d, a)
    ensures var (d', rc) := Pass(d, Reply(d, memory, a), a.io);
            && (rc == Continue ==> Inv(d', table, memory, disk, true))
            && (rc == Finished ==> d'.num < 0 && Inv(d', table, memory, disk, false))
  {
    hide SendRead, StartEntry, Arrived, Count, Streak, Requests, FollowsPlan, Saved, Slice, Plan;
    if !a.arrives {
      if d.failures + 1 != MAXDUMPFAIL {
        MissedInv(d, table, memory, disk);
        SendReadInv(d.(failures := d.failures + 1, trace := d.trace + [Missed]), a.io, table, memory, disk);
      }
    } else if a.io.wrote >= 0 && d.fd.Some? {
      var data := Slice(memory, d.table[d.num].base, d.pending);
      assert data[..Min(a.io.wrote, |data|)] == data;
      var d2 := Written(d, data);
      WrittenProgress(d, data, table);
      WrittenDisk(d, table, memory, disk);
      if d2.table[d.num].length != 0 {
        SendReadInv(d2, a.io, table, memory, disk);
      } else {
        StartEntryInv(d2.(num := d.num - 1, fd := None), a.io, table, memory, disk);
      }
    }
  }

  // ------------------------------------------------------------ the theorems

  /** How many reads of at most a mebibyte the table needs. */
  function TotalPieces(table: seq<Region>): nat {
    if table == [] then 0
    else TotalPieces(table[..|table| - 1]) + (table[|table| - 1].length + MAXMEMREAD - 1) / MAXMEMREAD
  }

  /** The pieces of an entry tile it: piece `i` starts `i` mebibytes in, and only the last
      may be shorter than a mebibyte. */
  lemma {:induction false} PiecesTile(base: nat, length: nat, i: nat)
    requires base < ADDRESS_SPACE && 0 < length
    ensures |Pieces(base, length)| == (length + 0x10_0000 - 1) / 0x10_0000
    ensures i < |Pieces(base, length)| <==> i * 0x10_0000 < length
    ensures i < |Pieces(base, length)| ==>
              Pieces(base, length)[i] ==
              Read((base + i * 0x10_0000) % 0x1_0000_0000, Min(length - i * 0x10_0000, 0x10_0000))
    decreases length
  {
    if length > MAXMEMREAD {
      WrapAdd(base + MAXMEMREAD, i * MAXMEMREAD - MAXMEMREAD);
      PiecesTile((base + MAXMEMREAD) % ADDRESS_SPACE, length - MAXMEMREAD, if i == 0 then 0 else i - 1);
    }
  }

  /** The last entry of a table is read first, and the rest as if it were not there. */
  lemma {:induction false} LastEntryFirst(table: seq<Region>, r: Region)
    ensures PlanOf(table + [r]) == Pieces(r.base, r.length) + PlanOf(table)
  {
    PlanFrame(table + [r], table, |table| - 1);
  }

  lemma {:induction false} PlanLength(table: seq<Region>, num: int)
    requires -1 <= num < |table| && ValidTable(table)
    ensures |Plan(table, num)| == TotalPieces(table[..num + 1])
    decreases num + 1
  {
    if num >= 0 {
      var t := table[..num + 1];
      assert table[num] in table && t[..|t| - 1] == table[..num];
      PiecesTile(table[num].base, table[num].length, 0);
      PlanLength(table, num - 1);
    }
  }

  lemma {:induction false} WholePlanLength(table: seq<Region>)
    requires ValidTable(table)
    ensures |PlanOf(table)| == TotalPieces(table)
  {
    PlanLength(table, |table| - 1);
    assert table[..|table|] == table;
  }

  /** Of the entries from `num` on with a given name, the lowest is the one kept. */
  lemma {:induction false} SavedFile(table: seq<Region>, memory: int -> bv8, disk: Disk, num: nat, j: nat)
    requires num <= j < |table|
    requires forall i | num <= i < j :: table[i].filename != table[j].filename
    ensures var saved := Saved(table, memory, disk, num);
            && table[j].filename in saved
            && saved[table[j].filename] == Slice(memory, table[j].base, table[j].length)
    decreases |table| - num
  {
    if num < j {
      SavedFile(table, memory, disk, num + 1, j);
    }
  }

  lemma {:induction false} SavedElsewhere(table: seq<Region>, memory: int -> bv8, disk: Disk, num: nat, name: Name)
    requires forall i | num <= i < |table| :: table[i].filename != name
    ensures var saved := Saved(table, memory, disk, num);
            (name in saved <==> name in disk) && (name in disk ==> saved[name] == disk[name])
    decreases |table| - num
  {
    if num < |table| {
      SavedElsewhere(table, memory, disk, num + 1, name);
    }
  }

  /** Requests never outnumber five to a piece, and follow the plan. */
  ghost predicate Bounded(d: DumpState, table: seq<Region>) {
    FollowsPlan(d.trace, PlanOf(table)) && Requests(d.trace) <= MAXDUMPFAIL * |PlanOf(table)|
  }

  lemma {:induction false} InvBounded(d: DumpState, table: seq<Region>, memory: int -> bv8, disk: Disk, asking: bool)
    requires Inv(d, table, memory, disk, asking) && ValidTable(table)
    ensures Bounded(d, table)
    ensures d.num < 0 ==> Arrived(d.trace) == |PlanOf(table)|
    ensures asking ==> 0 <= d.num < |d.table|
  {
    hide Arrived, Count, Streak, Requests, FollowsPlan, Saved, Slice;
    var plan, k := PlanOf(table), Arrived(d.trace);
    assert |Rest(d)| == |plan| - k;
    if d.num >= 0 {
      assert |Rest(d)| > 0;
    }
  }

  /** An iteration that fails asks for nothing more, and one that does not asks once more
      unless it finishes. */
  lemma {:induction false} PassTrace(d: DumpState, memory: int -> bv8, a: Answer)
    requires 0 <= d.num < |d.table|
    ensures var (d', rc) := Pass(d, Reply(d, memory, a), a.io);
            var came := d.trace + [if a.arrives then Received else Missed];
            if rc == Continue then |d'.trace| == |came| + 1 && d'.trace[..|came|] == came && d'.trace[|came|].Requested?
            else d'.trace == came
  {
    hide Slice;
  }

  lemma {:induction false} PassRequests(d: DumpState, memory: int -> bv8, a: Answer)
    requires 0 <= d.num < |d.table|
    ensures var (d', rc) := Pass(d, Reply(d, memory, a), a.io);
            Requests(d'.trace) == Requests(d.trace) + if rc == Continue then 1 else 0
  {
    hide Pass, Slice, Requests, Reply;
    var (d', rc) := Pass(d, Reply(d, memory, a), a.io);
    PassTrace(d, memory, a);
    var act := if a.arrives then Received else Missed;
    TraceGrows(d.trace, act);
    if rc == Continue {
      var came := d.trace + [act];
      assert d'.trace == came + [d'.trace[|came|]];
      TraceGrows(came, d'.trace[|came|]);
    }
  }

  lemma {:induction false} PassFails(d: DumpState, memory: int -> bv8, a: Answer, table: seq<Region>)
    requires Bounded(d, table) && 0 <= d.num < |d.table|
    requires Pass(d, Reply(d, memory, a), a.io).1 == Fail
    ensures Bounded(Pass(d, Reply(d, memory, a), a.io).0, table)
  {
    hide Pass, Slice, Requests, FollowsPlan, Reply;
    PassTrace(d, memory, a);
    PassRequests(d, memory, a);
    FollowsGrows(d.trace, PlanOf(table), if a.arrives then Received else Missed);
  }

  /** Runs of any length, against any answers. */
  lemma {:induction false} DumpRunInv(d: DumpState, memory: int -> bv8, answers: seq<Answer>, table: seq<Region>, disk: Disk)
    requires Inv(d, table, memory, disk, true) && ValidTable(table)
    requires 0 <= d.num < |d.table| && WritesWhole(d, memory, answers)
    ensures var (d', rc) := DumpRun(d, memory, answers);
            && Bounded(d', table)
            && (rc == Continue ==> Requests(d'.trace) == Requests(d.trace) + |answers|)
            && (rc == Finished ==> d'.num < 0 && Inv(d', table, memory, disk, false))
    decreases answers
  {
    hide Inv, Pass, Reply, Bounded, Requests;
    InvBounded(d, table, memory, disk, true);
    if answers != [] {
      var (d1, rc) := Pass(d, Reply(d, memory, answers[0]), answers[0].io);
      PassInv(d, memory, answers[0], table, disk);
      PassRequests(d, memory, answers[0]);
      if rc == Continue {
        InvBounded(d1, table, memory, disk, true);
        DumpRunInv(d1, memory, answers[1..], table, disk);
      } else if rc == Finished {
        InvBounded(d1, table, memory, disk, false);
      } else {
        PassFails(d, memory, answers[0], table);
      }
    }
  }

  lemma {:induction false} PhaseInv(d: DumpState, memory: int -> bv8, table: seq<Region>, io: Io, answers: seq<Answer>)
    requires d.failures == 0 && ValidTable(table) && PhaseWhole(d, memory, table, io, answers)
    ensures var (d', rc) := Phase(d, memory, table, io, answers);
            && Bounded(d', table)
            && (rc == Continue ==> Requests(d'.trace) == |answers| + 1)
            && (rc == Finished ==> d'.num < 0 && Inv(d', table, memory, d.disk, false))
  {
    hide Inv, DumpRun, WritesWhole, SendRead, Bounded;
    var (d1, rc) := Enter(d, table, io);
    EnterInv(d, memory, table, io);
    EnterRequests(d, table, io);
    if rc == Continue {
      InvBounded(d1, table, memory, d.disk, true);
      DumpRunInv(d1, memory, answers, table, d.disk);
    } else if rc == Finished {
      InvBounded(d1, table, memory, d.disk, false);
    }
  }

  lemma {:induction false} EnterRequests(d: DumpState, table: seq<Region>, io: Io)
    ensures var (d', rc) := Enter(d, table, io);
            && Requests(d'.trace) == (if rc == Continue then 1 else 0)
            && (rc == Fail ==> Bounded(d', table))
  {
    var (d', rc) := Enter(d, table, io);
    if rc == Continue {
      assert d'.trace == [d'.trace[0]] && d'.trace[..0] == [];
    }
  }

  // ----------------------------------------- short writes change only the disk

  /** The same calls, with write() taking everything unless it fails. */
  function Full(a: Answer): Answer {
    a.(io := a.io.(wrote := if a.io.wrote < 0 then a.io.wrote else MAXMEMREAD))
  }

  function FullAll(answers: seq<Answer>): (fs: seq<Answer>)
    ensures |fs| == |answers| && forall i | 0 <= i < |answers| :: fs[i] == Full(answers[i])
  {
    seq(|answers|, i requires 0 <= i < |answers| => Full(answers[i]))
  }

  predicate Alike(d: DumpState, e: DumpState) {
    e == d.(disk := e.disk)
  }

  lemma {:induction false} StartAlike(d: DumpState, e: DumpState, io: Io, amount: int)
    requires d.num < |d.table| && Alike(d, e)
    ensures var ((d1, r), (e1, q)) := (SendRead(d, io), SendRead(e, io.(wrote := amount)));
            r == q && Alike(d1, e1) && (r == Continue ==> d1.pending <= MAXMEMREAD)
    ensures var ((d1, r), (e1, q)) := (StartEntry(d, io), StartEntry(e, io.(wrote := amount)));
            r == q && Alike(d1, e1) && (r == Continue ==> d1.pending <= MAXMEMREAD)
  {
  }

  lemma {:induction false} PassAlike(d: DumpState, e: DumpState, memory: int -> bv8, a: Answer)
    requires 0 <= d.num < |d.table| && Alike(d, e) && d.pending <= MAXMEMREAD
    ensures var (d1, r) := Pass(d, Reply(d, memory, a), a.io);
            var (e1, q) := Pass(e, Reply(e, memory, Full(a)), Full(a).io);
            r == q && Alike(d1, e1) && (r == Continue ==> d1.pending <= MAXMEMREAD) && !Short(e, Full(a))
  {
    hide Slice, SendRead, StartEntry;
    var wrote := Full(a).io.wrote;
    if !a.arrives {
      var d1 := d.(failures := d.failures + 1, trace := d.trace + [Missed]);
      StartAlike(d1, d1.(disk := e.disk), a.io, wrote);
    } else if a.io.wrote >= 0 && d.fd.Some? {
      var data := Slice(memory, d.table[d.num].base, d.pending);
      var d1 := Written(d, data[..Min(a.io.wrote, |data|)]);
      var e1 := Written(e, data[..Min(wrote, |data|)]);
      if d1.table[d.num].length != 0 {
        StartAlike(d1, e1, a.io, wrote);
      } else {
        StartAlike(d1.(num := d.num - 1, fd := None), e1.(num := d.num - 1, fd := None), a.io, wrote);
      }
    }
  }

  lemma {:induction false} RunAlike(d: DumpState, e: DumpState, memory: int -> bv8, answers: seq<Answer>)
    requires 0 <= d.num < |d.table| && Alike(d, e) && d.pending <= MAXMEMREAD
    ensures var (d1, r) := DumpRun(d, memory, answers);
            var (e1, q) := DumpRun(e, memory, FullAll(answers));
            r == q && Alike(d1, e1) && WritesWhole(e, memory, FullAll(answers))
    decreases answers
  {
    hide Pass, Reply, Short;
    if answers != [] {
      PassAlike(d, e, memory, answers[0]);
      assert FullAll(answers)[1..] == FullAll(answers[1..]);
      var (d1, r) := Pass(d, Reply(d, memory, answers[0]), answers[0].io);
      if r == Continue && 0 <= d1.num < |d1.table| {
        RunAlike(d1, Pass(e, Reply(e, memory, Full(answers[0])), Full(answers[0]).io).0, memory, answers[1..]);
      }
    }
  }

  lemma {:induction false} PhaseAlike(d: DumpState, memory: int -> bv8, table: seq<Region>, io: Io, answers: seq<Answer>)
    ensures var (d1, r) := Phase(d, memory, table, io, answers);
            var (e1, q) := Phase(d, memory, table, io, FullAll(answers));
            r == q && Alike(d1, e1) && PhaseWhole(d, memory, table, io, FullAll(answers))
  {
    hide DumpRun, WritesWhole, FullAll;
    var (d1, r) := Enter(d, table, io);
    if r == Continue && 0 <= d1.num < |d1.table| {
      RunAlike(d1, d1, memory, answers);
    }
  }

  /** A file that no entry still to be read is saved to stays as it is. */
  lemma {:induction false} FileKept(d: DumpState, memory: int -> bv8, answers: seq<Answer>, name: Name)
    requires 0 <= d.num < |d.table| && d.fd != Some(name)
    requires forall j | 0 <= j <= d.num :: d.table[j].filename != name
    ensures var disk := DumpRun(d, memory, answers).0.disk;
            (name in disk <==> name in d.disk) && (name in d.disk ==> disk[name] == d.disk[name])
    decreases answers
  {
    hide Slice;
    if answers != [] {
      var (d1, r) := Pass(d, Reply(d, memory, answers[0]), answers[0].io);
      if r == Continue && 0 <= d1.num < |d1.table| {
        FileKept(d1, memory, answers[1..], name);
      }
    }
  }

  /** Region `j` is in its file, byte for byte. */
  predicate Exact(disk: Disk, memory: int -> bv8, table: seq<Region>, j: nat)
    requires j < |table|
  {
    table[j].filename in disk && disk[table[j].filename] == Slice(memory, table[j].base, table[j].length)
  }

  /** Whatever receives fail on the way, a phase that completes has received every piece of
      every region once and changed no file but the entries'. If no write was short it has
      saved every region: the file of each entry (the lowest, if several share a name) is the
      target's memory from its base, for its length. */
  lemma {:induction false} DumpExact(d: DumpState, memory: int -> bv8, table: seq<Region>, io: Io, answers: seq<Answer>)
    requires d.failures == 0 && ValidTable(table)
    requires Phase(d, memory, table, io, answers).1 == Finished
    ensures var d' := Phase(d, memory, table, io, answers).0;
            && Arrived(d'.trace) == TotalPieces(table)
            && (forall name: Name | forall i | 0 <= i < |table| :: table[i].filename != name ::
                  (name in d'.disk <==> name in d.disk) && (name in d.disk ==> d'.disk[name] == d.disk[name]))
            && (PhaseWhole(d, memory, table, io, answers) ==>
                  forall j | 0 <= j < |table| && (forall i | 0 <= i < j :: table[i].filename != table[j].filename) ::
                    Exact(d'.disk, memory, table, j))
  {
    hide Phase, PhaseWhole, Slice, Arrived, Saved, Inv;
    var d' := Phase(d, memory, table, io, answers).0;
    PhaseAlike(d, memory, table, io, answers);
    var e' := Phase(d, memory, table, io, FullAll(answers)).0;
    PhaseInv(d, memory, table, io, FullAll(answers));
    InvBounded(e', table, memory, d.disk, false);
    WholePlanLength(table);
    forall name: Name | forall i | 0 <= i < |table| :: table[i].filename != name
      ensures (name in d'.disk <==> name in d.disk) && (name in d.disk ==> d'.disk[name] == d.disk[name])
    {
      PhaseKeeps(d, memory, table, io, answers, name);
    }
    if PhaseWhole(d, memory, table, io, answers) {
      PhaseInv(d, memory, table, io, answers);
      FinalDisk(d', table, memory, d.disk);
      forall j | 0 <= j < |table| && (forall i | 0 <= i < j :: table[i].filename != table[j].filename)
        ensures Exact(d'.disk, memory, table, j)
      {
        SavedFile(table, memory, d.disk, 0, j);
      }
    }
  }

  lemma {:induction false} PhaseKeeps(d: DumpState, memory: int -> bv8, table: seq<Region>, io: Io, answers: seq<Answer>,
                                      name: Name)
    requires forall i | 0 <= i < |table| :: table[i].filename != name
    requires Phase(d, memory, table, io, answers).1 == Finished
    ensures var disk := Phase(d, memory, table, io, answers).0.disk;
            (name in disk <==> name in d.disk) && (name in d.disk ==> disk[name] == d.disk[name])
  {
    hide DumpRun;
    var (d1, r) := Enter(d, table, io);
    if r == Continue && 0 <= d1.num < |d1.table| {
      FileKept(d1, memory, answers, name);
    }
  }

  lemma {:induction false} FinalDisk(d: DumpState, table: seq<Region>, memory: int -> bv8, disk: Disk)
    requires Inv(d, table, memory, disk, false) && d.num < 0
    ensures d.disk == Saved(table, memory, disk, 0)
  {
  }

  // ----------------------------------------- a short write leaves a short file

  ghost predicate DistinctNames(table: seq<Region>) {
    forall i, j | 0 <= i < j < |table| :: table[i].filename != table[j].filename
  }

  /** The current entry is part read, those below it not at all, and its file holds no more
      bytes than have come, fewer if `strict`. */
  ghost predicate Behind(d: DumpState, table: seq<Region>, strict: bool) {
    && 0 <= d.num < |d.table| == |table|
    && (forall j | 0 <= j < d.num :: d.table[j] == table[j])
    && d.table[d.num].filename == table[d.num].filename
    && 0 < d.table[d.num].length <= table[d.num].length
    && d.pending == Min(d.table[d.num].length, MAXMEMREAD)
    && (d.fd.Some? ==>
          d.fd.value == table[d.num].filename && d.fd.value in d.disk &&
          |d.disk[d.fd.value]| + (if strict then 1 else 0) <= table[d.num].length - d.table[d.num].length)
  }

  /** The file of region `j` is shorter than the region. */
  predicate Lacking(disk: Disk, table: seq<Region>, j: nat)
    requires j < |table|
  {
    table[j].filename in disk && |disk[table[j].filename]| < table[j].length
  }

  lemma {:induction false} WrittenBehind(d: DumpState, memory: int -> bv8, a: Answer, table: seq<Region>, strict: bool)
    requires ValidTable(table) && Behind(d, table, strict) && d.fd.Some? && a.io.wrote >= 0 && a.arrives
    ensures var data := Slice(memory, d.table[d.num].base, d.pending);
            var d2 := Written(d, data[..Min(a.io.wrote, |data|)]);
            && d2.table[d.num].length == d.table[d.num].length - d.pending
            && d.fd.value in d2.disk
            && |d2.disk[d.fd.value]| + (if strict || Short(d, a) then 1 else 0) <=
               table[d.num].length - d2.table[d.num].length
  {
    hide Slice;
    assert table[d.num] in table;
  }

  /** A pass leaves the file of its entry behind, to the end of the entry and beyond. */
  lemma {:induction false} PassBehind(d: DumpState, memory: int -> bv8, a: Answer, table: seq<Region>, strict: bool)
    requires ValidTable(table) && DistinctNames(table) && Behind(d, table, strict) && d.fd.Some?
    ensures var (d1, rc) := Pass(d, Reply(d, memory, a), a.io);
            var late := strict || Short(d, a);
            && (rc == Continue && d1.num == d.num ==> Behind(d1, table, late) && d1.fd.Some?)
            && (rc != Fail && d1.num != d.num ==>
                  d1.num == d.num - 1 && |d1.table| == |table| &&
                  (late ==> Lacking(d1.disk, table, d.num)) && (rc == Continue ==> Behind(d1, table, false)))
            && (rc == Finished ==> d1.num != d.num)
  {
    hide Slice, Written;
    if d.num > 0 {
      assert table[d.num - 1] in table;
    }
    if a.arrives && a.io.wrote >= 0 {
      WrittenBehind(d, memory, a, table, strict);
      WrittenElsewhere(d, Slice(memory, d.table[d.num].base, d.pending)[..Min(a.io.wrote, d.pending)]);
    }
  }

  lemma {:induction false} WrittenElsewhere(d: DumpState, data: seq<bv8>)
    requires 0 <= d.num < |d.table| && d.fd.Some?
    ensures var d2 := Written(d, data);
            && d2.num == d.num && |d2.table| == |d.table| && d2.fd == d.fd
            && d2.table[d.num].filename == d.table[d.num].filename
            && forall j | 0 <= j < d.num :: d2.table[j] == d.table[j]
  {
  }

  lemma {:induction false} NoFileNoFinish(d: DumpState, memory: int -> bv8, answers: seq<Answer>)
    requires 0 <= d.num < |d.table|
    ensures d.fd.None? ==> DumpRun(d, memory, answers).1 != Finished
    decreases answers
  {
    hide Slice;
    if d.fd.None? && answers != [] && !answers[0].arrives {
      NoFileNoFinish(Pass(d, Reply(d, memory, answers[0]), answers[0].io).0, memory, answers[1..]);
    }
  }

  lemma {:induction false} ShortRun(d: DumpState, memory: int -> bv8, answers: seq<Answer>, table: seq<Region>,
                                    strict: bool) returns (j: nat)
    requires ValidTable(table) && DistinctNames(table) && Behind(d, table, strict) && d.fd.Some?
    requires DumpRun(d, memory, answers).1 == Finished && (strict || !WritesWhole(d, memory, answers))
    ensures j < |table| && Lacking(DumpRun(d, memory, answers).0.disk, table, j)
    decreases answers
  {
    hide Pass, Reply, Short, ValidTable;
    PassBehind(d, memory, answers[0], table, strict);
    var (d1, rc) := Pass(d, Reply(d, memory, answers[0]), answers[0].io);
    var late := strict || Short(d, answers[0]);
    if rc == Continue && 0 <= d1.num {
      NoFileNoFinish(d1, memory, answers[1..]);
      if d1.num == d.num {
        j := ShortRun(d1, memory, answers[1..], table, late);
      } else if late {
        j := d.num;
        FileKept(d1, memory, answers[1..], table[j].filename);
      } else {
        j := ShortRun(d1, memory, answers[1..], table, false);
      }
    } else {
      j := d.num;
    }
  }

  /** A phase that completes has saved every region, if their names differ, if and only if no
      write to disk took less than it was given. The host only warns of those. */
  lemma {:induction false} DumpExactIff(d: DumpState, memory: int -> bv8, table: seq<Region>, io: Io, answers: seq<Answer>)
    requires d.failures == 0 && ValidTable(table) && DistinctNames(table)
    requires Phase(d, memory, table, io, answers).1 == Finished
    ensures (forall j | 0 <= j < |table| :: Exact(Phase(d, memory, table, io, answers).0.disk, memory, table, j)) <==>
            PhaseWhole(d, memory, table, io, answers)
  {
    hide DumpRun, WritesWhole, Slice;
    DumpExact(d, memory, table, io, answers);
    if PhaseWhole(d, memory, table, io, answers) {
      forall j | 0 <= j < |table| ensures Exact(Phase(d, memory, table, io, answers).0.disk, memory, table, j) {
        assert forall i | 0 <= i < j :: table[i].filename != table[j].filename;
      }
    } else {
      var (d1, r) := Enter(d, table, io);
      assert table[d1.num] in table;
      NoFileNoFinish(d1, memory, answers);
      var j := ShortRun(d1, memory, answers, table, false);
      assert !Exact(Phase(d, memory, table, io, answers).0.disk, memory, table, j);
    }
  }

  /** It happens: a region of one byte, of which write() takes nothing, is reported complete. */
  lemma {:induction false} ShortWriteUnnoticed(d: DumpState, memory: int -> bv8)
    requires d.failures == 0
    ensures var (table, io) := ([Region(0, 1, [0x61])], Io(0, true, true, true));
            var answers := [Answer(true, io)];
            && ValidTable(table) && DistinctNames(table)
            && Phase(d, memory, table, io, answers).1 == Finished
            && !PhaseWhole(d, memory, table, io, answers)
            && !Exact(Phase(d, memory, table, io, answers).0.disk, memory, table, 0)
  {
    hide Slice;
    var table, io := [Region(0, 1, [0x61])], Io(0, true, true, true);
    var answers := [Answer(true, io)];
    var (d1, r1) := Enter(d, table, io);
    assert r1 == Continue && d1.num == 0 && d1.pending == 1 && d1.fd == Some([0x61]);
    var (d2, r2) := Pass(d1, Reply(d1, memory, answers[0]), io);
    assert r2 == Finished;
    assert Phase(d, memory, table, io, answers) == (d2, Finished);
    DumpExactIff(d, memory, table, io, answers);
  }

  /** Every MEMORY_READ of every phase, however it ends, asks for the next piece of the
      plan; there are at most five for each piece; and once the target has answered, or
      failed to answer, that often, the phase is over. */
  lemma {:induction false} DumpTerminates(d: DumpState, memory: int -> bv8, table: seq<Region>, io: Io, answers: seq<Answer>)
    requires d.failures == 0 && ValidTable(table)
    ensures var (d', rc) := Phase(d, memory, table, io, answers);
            && FollowsPlan(d'.trace, PlanOf(table))
            && Requests(d'.trace) <= MAXDUMPFAIL * TotalPieces(table)
            && (rc == Continue ==> |answers| < MAXDUMPFAIL * TotalPieces(table))
  {
    hide Phase, PhaseWhole, FollowsPlan, Requests;
    PhaseAlike(d, memory, table, io, answers);
    PhaseInv(d, memory, table, io, FullAll(answers));
    WholePlanLength(table);
  }

  /** The system calls of an iteration all succeed. */
  predicate AllOk(io: Io) {
    io.wrote >= 0 && io.pathOk && io.openOk && io.txOk
  }

  lemma {:induction false} PassOk(d: DumpState, memory: int -> bv8, a: Answer)
    requires 0 <= d.num < |d.table| && d.fd.Some? && AllOk(a.io)
    ensures var (d', rc) := Pass(d, Reply(d, memory, a), a.io);
            && (rc == Continue ==> d'.fd.Some?)
            && (rc == Fail ==> d'.failures == MAXDUMPFAIL)
  {
    hide Slice;
  }

  lemma {:induction false} RunOk(d: DumpState, memory: int -> bv8, answers: seq<Answer>)
    requires 0 <= d.num < |d.table| && d.fd.Some? && forall a | a in answers :: AllOk(a.io)
    ensures var (d', rc) := DumpRun(d, memory, answers);
            rc == Fail ==> d'.failures == MAXDUMPFAIL
    decreases answers
  {
    hide Pass, Reply;
    if answers != [] {
      PassOk(d, memory, answers[0]);
      var (d1, rc) := Pass(d, Reply(d, memory, answers[0]), answers[0].io);
      if rc == Continue && 0 <= d1.num < |d1.table| {
        RunOk(d1, memory, answers[1..]);
      }
    }
  }

  /** Five failures in a row are the only way to lose a dump when the host's own calls
      succeed: with that many answers a phase has either finished or met them. */
  lemma {:induction false} DumpCompletes(d: DumpState, memory: int -> bv8, table: seq<Region>, io: Io, answers: seq<Answer>)
    requires d.failures == 0 && ValidTable(table)
    requires AllOk(io) && forall a | a in answers :: AllOk(a.io)
    requires |answers| >= MAXDUMPFAIL * TotalPieces(table)
    ensures var (d', rc) := Phase(d, memory, table, io, answers);
            rc == Finished || (rc == Fail && d'.failures == MAXDUMPFAIL)
  {
    hide DumpRun;
    DumpTerminates(d, memory, table, io, answers);
    var (d1, rc) := Enter(d, table, io);
    if rc == Continue {
      RunOk(d1, memory, answers);
    }
  }

  // --------------------------------------------------------- the code, in place

  /** The fields of the transfer and of `com_state` that the dump works on. */
  class Dumper {
    var debugInfo: array<Region>   // dload_debug_info
    var numDebugEntries: int
    var numDumpFailures: nat
    var recvBufferSize: nat
    var fd: Option<Name>
    var disk: Disk
    ghost var trace: seq<Act>

    ghost function State(): DumpState
      reads this, debugInfo
    {
      DumpState(debugInfo[..], numDebugEntries, numDumpFailures, recvBufferSize, fd, disk, trace)
    }

    constructor (disk: Disk)
      ensures State() == DumpState([], -1, 0, 0, None, disk, []) && fresh(debugInfo)
    {
      debugInfo := new Region[0];
      numDebugEntries, numDumpFailures, recvBufferSize := -1, 0, 0;
      fd, this.disk, trace := None, disk, [];
    }

    method OpenDebugFile(io: Io) returns (rc: Rc)
      requires 0 <= numDebugEntries < debugInfo.Length
      modifies this
      ensures debugInfo == old(debugInfo) && debugInfo[..] == old(debugInfo[..])
      ensures (State(), rc) == OpenEntry(old(State()), io)
    {
      if !io.pathOk {
        return Fail;
      }
      var fullFilename := debugInfo[numDebugEntries].filename;
      if io.openOk {
        fd := Some(fullFilename);
        disk := disk[fullFilename := []];
      } else {
        fd := None;
      }
      rc := Continue;
    }

    method SendMemoryRead(io: Io) returns (rc: Rc)
      requires numDebugEntries < debugInfo.Length
      modifies this
      ensures debugInfo == old(debugInfo) && debugInfo[..] == old(debugInfo[..])
      ensures (State(), rc) == SendRead(old(State()), io)
    {
      if numDebugEntries < 0 {
        return Finished;
      }
      var entry := debugInfo[numDebugEntries];
      var memoryTableLength := if entry.length < MAXMEMREAD then entry.length else MAXMEMREAD;
      if !io.txOk {
        return Fail;
      }
      trace := trace + [Requested(Read(entry.base, memoryTableLength))];
      recvBufferSize := memoryTableLength;
      rc := Continue;
    }

    /** The entries are copied out of the receive buffer, one at a time. */
    static method CopyTable(buffer: array<bv8>) returns (debugInfo: array<Region>)
      ensures fresh(debugInfo) && debugInfo[..] == TableOf(buffer[..])
    {
      hide FromLe, CString;
      var n := buffer.Length / ENTRY_SIZE;
      debugInfo := new Region[n](_ => Region(0, 0, []));
      var i := 0;
      while i < n
        invariant 0 <= i <= n
        invariant forall k | 0 <= k < i :: debugInfo[k] == EntryAt(buffer[..], k)
        modifies debugInfo
      {
        var e := buffer[i * ENTRY_SIZE..(i + 1) * ENTRY_SIZE];
        assert e == buffer[..][i * ENTRY_SIZE..(i + 1) * ENTRY_SIZE];
        debugInfo[i] := Region(FromLe(e[4..8]), FromLe(e[8..12]), CString(e[32..52]));
        i := i + 1;
      }
    }

    /** The table has been received: copy it out of the buffer and start on its last entry. */
    method ReceiveTable(buffer: array<bv8>, io: Io) returns (rc: Rc)
      modifies this
      ensures fresh(debugInfo)
      ensures (State(), rc) == Enter(old(State()), TableOf(buffer[..]), io)
    {
      hide TableOf;
      debugInfo := CopyTable(buffer);
      numDebugEntries := debugInfo.Length - 1;
      trace := [];
      rc := Continue;
      if numDebugEntries >= 0 {
        rc := OpenDebugFile(io);
      }
      if rc == Continue {
        rc := SendMemoryRead(io);
      }
    }

    /** A piece has come: it is off its entry, and what write() takes of it is in the file. */
    method TakePiece(data: seq<bv8>, io: Io) returns (ok: bool)
      requires 0 <= numDebugEntries < debugInfo.Length
      modifies this, debugInfo
      ensures debugInfo == old(debugInfo)
      ensures ok == (io.wrote >= 0 && old(fd).Some?)
      ensures State() == if ok then Written(old(State()), data[..Min(io.wrote, |data|)]) else Taken(old(State()))
    {
      hide Consumed;
      numDumpFailures := 0;
      trace := trace + [Received];
      var entry := debugInfo[numDebugEntries];
      debugInfo[numDebugEntries] := Consumed(entry, recvBufferSize);
      assert debugInfo[..] == old(debugInfo[..])[numDebugEntries := Consumed(entry, recvBufferSize)];
      ok := io.wrote >= 0 && fd.Some?;
      if ok {
        var taken := data[..Min(io.wrote, |data|)];
        disk := disk[fd.value := (if fd.value in disk then disk[fd.value] else []) + taken];
      }
    }

    /** One pass through the region state: `rx` is what rx_data delivered, if it succeeded. */
    method ReceiveRegion(rx: Option<seq<bv8>>, io: Io) returns (rc: Rc)
      requires 0 <= numDebugEntries < debugInfo.Length
      modifies this, debugInfo
      ensures debugInfo == old(debugInfo)
      ensures (State(), rc) == Pass(old(State()), rx, io)
    {
      hide SendRead, Consumed;
      if rx.None? {
        numDumpFailures := numDumpFailures + 1;
        trace := trace + [Missed];
        if numDumpFailures == MAXDUMPFAIL {
          return Fail;
        }
      } else {
        var ok := TakePiece(rx.value, io);
        if !ok {
          return Fail;
        }
        if debugInfo[numDebugEntries].length == 0 {
          numDebugEntries := numDebugEntries - 1;
          fd := None;
          if numDebugEntries >= 0 {
            rc := OpenDebugFile(io);
            if rc == Fail {
              return;
            }
          }
        }
      }
      rc := SendMemoryRead(io);
    }
  }
}
