/** What a configuration change leaves behind (handle_config_set_sig in
    thermal-engine/pid_algorithm.c): of what a client can query, each named instance has
    either all that was asked for or all that it had, and the others are as they were. */
module PidBatch {
  import opened Bitmask
  import opened ErrorRing
  import opened Pid

  /** What a client can query and set of an instance. */
  datatype Quad = Quad(disabled: bool, sampling: int, setPoint: int, setPointClr: int)

  function QuadOf(p: Pids, i: nat): Quad
    requires WellFormed(p) && i < |p.clients|
  {
    var c := p.clients[i];
    Quad(c.disabled, p.groups[c.group].sampling, c.setPoint, c.setPointClr)
  }

  function Requested(q: Quad, e: Entry): Quad {
    Quad(if Names(e, DISABLE_FIELD) then e.disable == 1 else q.disabled,
         if Names(e, SAMPLING_FIELD) then e.sampling else q.sampling,
         if Names(e, SET_POINT_FIELD) then e.setPoint else q.setPoint,
         if Names(e, SET_POINT_CLR_FIELD) then e.setPointClr else q.setPointClr)
  }

  /** Every other instance is as it was. */
  ghost predicate OnlyOne(p: Pids, q: Pids, i: nat)
    requires WellFormed(p) && WellFormed(q) && |q.clients| == |p.clients|
  {
    forall k | 0 <= k < |p.clients| && k != i :: QuadOf(q, k) == QuadOf(p, k)
  }

  ghost predicate SameSettings(p: Pids, q: Pids) {
    |q.clients| == |p.clients| && forall k | 0 <= k < |p.clients| :: q.clients[k].setting == p.clients[k].setting
  }

  // --------------------------------------------------------------- small steps

  /** No group has a period that could not be asked for. */
  ghost predicate LongPeriods(p: Pids) {
    forall g | 0 <= g < |p.groups| :: p.groups[g].sampling >= SAMPLING_MS_MINIMUM
  }

  /** Periods stay where they are, new ones are long enough, and no client but `i` changes. */
  ghost predicate Local(p: Pids, q: Pids, i: nat) {
    && |q.clients| == |p.clients| && |p.groups| <= |q.groups|
    && (forall k | 0 <= k < |p.clients| && k != i :: q.clients[k] == p.clients[k])
    && (forall g | 0 <= g < |p.groups| :: q.groups[g].sampling == p.groups[g].sampling)
    && (forall g | |p.groups| <= g < |q.groups| :: q.groups[g].sampling >= SAMPLING_MS_MINIMUM)
    && (i < |p.clients| ==> q.clients[i].desc == p.clients[i].desc && q.clients[i].setting == p.clients[i].setting)
  }

  lemma {:induction false} LocalOnlyOne(p: Pids, q: Pids, i: nat)
    requires WellFormed(p) && WellFormed(q) && Local(p, q, i)
    ensures OnlyOne(p, q, i) && SameSettings(p, q) && (LongPeriods(p) ==> LongPeriods(q))
  {
  }

  lemma {:induction false} LocalThen(p: Pids, q: Pids, r: Pids, i: nat)
    requires Local(p, q, i) && Local(q, r, i)
    ensures Local(p, r, i)
  {
  }

  /** Clients and periods as they were. */
  ghost predicate SamePeriods(p: Pids, q: Pids) {
    q.clients == p.clients && |q.groups| == |p.groups| &&
    forall h | 0 <= h < |p.groups| :: q.groups[h].sampling == p.groups[h].sampling
  }

  lemma {:induction false} PeriodsThen(p: Pids, q: Pids, r: Pids)
    requires SamePeriods(p, q) && SamePeriods(q, r)
    ensures SamePeriods(p, r)
  {
  }

  lemma {:induction false} PeriodsLocal(p: Pids, q: Pids, i: nat, c: Client)
    requires SamePeriods(p, q) && i < |p.clients| && c.desc == p.clients[i].desc && c.setting == p.clients[i].setting
    ensures Local(p, WithClient(q, i, c), i) && WithClient(q, i, c).clients[i] == c
  {
  }

  lemma {:induction false} MaskPeriods(p: Pids, g: nat, i: nat)
    requires g < |p.groups|
    ensures SamePeriods(p, Join(p, g, i)) && SamePeriods(p, Leave(p, g, i))
  {
    hide Set, Clear;
  }

  lemma {:induction false} TimerPeriods(p: Pids, g: nat, ok: Oracle)
    requires g < |p.groups|
    ensures SamePeriods(p, Enable(p, g, ok).0) && SamePeriods(p, Disable(p, g, ok))
  {
  }

  lemma {:induction false} LeaveAndStopPeriods(p: Pids, g: nat, i: nat, ok: Oracle)
    requires g < |p.groups|
    ensures SamePeriods(p, LeaveAndStop(p, g, i, ok))
  {
    hide Leave, Disable;
    MaskPeriods(p, g, i);
    TimerPeriods(Leave(p, g, i), g, ok);
  }

  lemma {:induction false} DisableAdjustQuad(p: Pids, i: nat, disable: bool, ok: Oracle)
    requires WellFormed(p) && i < |p.clients|
    ensures var (q, r) := DisableAdjust(p, i, disable, ok);
            && Local(p, q, i) && |q.groups| == |p.groups|
            && QuadOf(q, i) == QuadOf(p, i).(disabled := if r then disable else p.clients[i].disabled)
            && r == (disable || CanEnable(p, p.clients[i]))
            && (!r ==> q == p)
  {
    hide LeaveAndStop;
    WellFormedAt(p, i);
    var c := p.clients[i];
    if disable {
      LeaveAndStopPeriods(
        WithClient(p, i, c.(devOpLvl := c.maxOpLvl, mitigating := false, prevAdjustment := 0, disabled := true)),
        c.group, i, ok);
    }
  }

  lemma {:induction false} MoveQuad(p: Pids, i: nat, s: nat, ok: Oracle)
    requires WellFormed(p) && i < |p.clients| && s < |p.groups|
    ensures var (q, r) := Move(p, i, s, ok);
            && Local(p, q, i) && |q.groups| == |p.groups|
            && q.clients[i] == p.clients[i].(group := if r then s else p.clients[i].group)
  {
    hide LeaveAndStop, Enable, Join, Leave, Has, WellFormed, SamePeriods, Local, WithClient;
    WellFormedAt(p, i);
    LocalHere(p, i);
    var c := p.clients[i];
    Unmoved(p);
    PeriodsLocal(p, p, i, c.(group := s));
    if !(c.disabled || !Has(p.groups[c.group].mask, i)) {
      var p1 := Join(p, s, i);
      MaskPeriods(p, s, i);
      TimerPeriods(p1, s, ok);
      Unmoved(p1);
      var p2 := if p1.groups[s].mask != 0 && !p1.groups[s].enabled then Enable(p1, s, ok).0 else p1;
      PeriodsThen(p, p1, p2);
      MaskPeriods(p2, s, i);
      PeriodsThen(p, p2, Leave(p2, s, i));
      UnmovedLocal(p, Leave(p2, s, i), i);
      LeaveAndStopPeriods(p2, c.group, i, ok);
      PeriodsThen(p, p2, LeaveAndStop(p2, c.group, i, ok));
      PeriodsLocal(p, LeaveAndStop(p2, c.group, i, ok), i, c.(group := s));
    }
  }

  lemma {:induction false} Unmoved(p: Pids)
    ensures SamePeriods(p, p)
  {
  }

  lemma {:induction false} UnmovedLocal(p: Pids, q: Pids, i: nat)
    requires SamePeriods(p, q)
    ensures Local(p, q, i) && q.clients == p.clients && |q.groups| == |p.groups|
  {
  }

  /** No group has the period, and one cannot be made. */
  predicate NoGroup(p: Pids, sampling: int, ok: Oracle) {
    FindGroup(p.groups, sampling) == |p.groups| &&
    (|p.groups| == MAX_PID_INSTANCES_SUPPORTED || !ok(p.calls))
  }

  lemma {:induction false} SamplingAdjustQuad(p: Pids, i: nat, sampling: int, ok: Oracle)
    requires WellFormed(p) && i < |p.clients| && sampling >= SAMPLING_MS_MINIMUM
    ensures var (q, r) := SamplingAdjust(p, i, sampling, ok);
            && Local(p, q, i)
            && QuadOf(q, i) == QuadOf(p, i).(sampling := if r then sampling else QuadOf(p, i).sampling)
            && (p.clients[i].disabled ==> (r <==> !NoGroup(p, sampling, ok)))
  {
    hide Move, Local, FirstIndex;
    WellFormedAt(p, i);
    LocalHere(p, i);
    var s := FindGroup(p.groups, sampling);
    if s < |p.groups| {
      MovedQuad(p, i, s, ok);
    } else if |p.groups| < MAX_PID_INSTANCES_SUPPORTED {
      var p1 := WithNewGroup(p, sampling, ok(p.calls));
      NewGroupQuad(p, i, sampling, ok(p.calls));
      MovedQuad(p1, i, s, ok);
      LocalThen(p, p1, Move(p1, i, s, ok).0, i);
    }
  }

  lemma {:induction false} MovedQuad(p: Pids, i: nat, s: nat, ok: Oracle)
    requires WellFormed(p) && i < |p.clients| && s < |p.groups|
    ensures var (q, r) := Move(p, i, s, ok);
            && Local(p, q, i)
            && QuadOf(q, i) == QuadOf(p, i).(sampling := if r then p.groups[s].sampling else QuadOf(p, i).sampling)
            && (p.clients[i].disabled ==> r)
  {
    hide LeaveAndStop, Join, Enable, Leave;
    MoveQuad(p, i, s, ok);
  }

  lemma {:induction false} NewGroupQuad(p: Pids, i: nat, sampling: int, created: bool)
    requires WellFormed(p) && i < |p.clients| && |p.groups| < MAX_PID_INSTANCES_SUPPORTED
    requires sampling >= SAMPLING_MS_MINIMUM
    ensures var q := WithNewGroup(p, sampling, created);
            WellFormed(q) && Local(p, q, i) && QuadOf(q, i) == QuadOf(p, i)
  {
    NewGroupWellFormed(p, sampling, created);
  }

  lemma {:induction false} NewGroupWellFormed(p: Pids, sampling: int, created: bool)
    requires WellFormed(p) && |p.groups| < MAX_PID_INSTANCES_SUPPORTED && sampling > 0
    ensures WellFormed(WithNewGroup(p, sampling, created))
  {
  }

  lemma {:induction false} SetPointsQuad(p: Pids, i: nat, e: Entry)
    requires WellFormed(p) && i < |p.clients|
    ensures var q := ApplySetPoints(p, i, e);
            && Local(p, q, i)
            && QuadOf(q, i) == QuadOf(p, i).(setPoint := Requested(QuadOf(p, i), e).setPoint,
                                             setPointClr := Requested(QuadOf(p, i), e).setPointClr)
  {
    hide Names;
  }

  // ---------------------------------------------------------------- one entry

  /** The one way to be left between: an enabled instance is disabled, the new period it
      asks for has no group and none can be made, and it cannot be enabled again. */
  predicate Stuck(p: Pids, i: nat, e: Entry, ok: Oracle)
    requires WellFormed(p) && i < |p.clients|
  {
    && Changes(p, i, e, DISABLE_FIELD) && e.disable == 1
    && Changes(p, i, e, SAMPLING_FIELD) && NoGroup(DisableAdjust(p, i, true, ok).0, e.sampling, ok)
    && !CanEnable(p, p.clients[i])
  }

  lemma {:induction false} CanEnableSame(p: Pids, q: Pids, i: nat)
    requires WellFormed(p) && WellFormed(q) && i < |p.clients| == |q.clients|
    requires QuadOf(q, i) == QuadOf(p, i).(disabled := QuadOf(q, i).disabled)
    ensures CanEnable(q, q.clients[i]) == CanEnable(p, p.clients[i])
  {
  }

  lemma {:induction false} RenotifyQuad(p: Pids, i: nat)
    requires WellFormed(p) && i < |p.clients|
    ensures Local(p, Renotify(p, i), i) && QuadOf(Renotify(p, i), i) == QuadOf(p, i)
  {
    hide Set;
  }

  /** A valid entry, whatever timer calls fail: the instance has all it was asked for or
      all it had, if and only if it is not stuck. */
  lemma {:induction false} EntryAtomic(p: Pids, i: nat, e: Entry, ok: Oracle)
    requires WellFormed(p) && i < |p.clients| && ValidEntry(e, p.clients[i])
    ensures var q := ApplyEntry(p, i, e, ok);
            && OnlyOne(p, q, i) && SameSettings(p, q) && (LongPeriods(p) ==> LongPeriods(q))
            && (Stuck(p, i, e, ok) ==> QuadOf(q, i) == QuadOf(p, i).(disabled := true))
            && (QuadOf(q, i) == Requested(QuadOf(p, i), e) || QuadOf(q, i) == QuadOf(p, i) <==> !Stuck(p, i, e, ok))
  {
    hide WellFormed, DisableAdjust, SamplingAdjust, ApplySetPoints, Renotify, Names, ValidSetPoint, ValidSetPointClr,
         NoGroup, CanEnable, OnlyOne, SameSettings, LongPeriods, Local;
    var q := ApplyEntry(p, i, e, ok);
    WellFormedAt(p, i);
    DisableAdjustQuad(p, i, e.disable == 1, ok);
    var (p1, ok1, disableDone) := ApplyDisable(p, i, e, ok);
    LocalHere(p, i);
    if !ok1 {
      LocalOnlyOne(p, q, i);
    } else {
      WellFormedAt(p1, i);
      if Changes(p1, i, e, SAMPLING_FIELD) {
        SamplingAdjustQuad(p1, i, e.sampling, ok);
      }
      var (p2, ok2, samplingDone) := ApplySampling(p1, i, e, ok);
      LocalHere(p1, i);
      LocalThen(p, p1, p2, i);
      WellFormedAt(p2, i);
      if ok2 {
        SetPointsQuad(p2, i, e);
        var p3 := ApplySetPoints(p2, i, e);
        LocalThen(p, p2, p3, i);
        RenotifyQuad(p3, i);
        LocalThen(p, p3, Renotify(p3, i), i);
        LocalOnlyOne(p, q, i);
      } else if disableDone {
        var was := p.clients[i].disabled;
        var p3 := DisableAdjust(p2, i, was, ok).0;
        DisableAdjustQuad(p2, i, was, ok);
        LocalThen(p, p2, p3, i);
        RenotifyQuad(p3, i);
        LocalThen(p, p3, Renotify(p3, i), i);
        CanEnableSame(p, p2, i);
        LocalOnlyOne(p, q, i);
      } else {
        LocalOnlyOne(p, q, i);
      }
    }
  }

  lemma {:induction false} LocalHere(p: Pids, i: nat)
    ensures Local(p, p, i)
  {
  }

  /** The rollback is needed only by an entry that disables and changes the period too. */
  predicate Undoable(p: Pids, i: nat, e: Entry)
    requires WellFormed(p) && i < |p.clients|
  {
    CanEnable(p, p.clients[i]) || !(Changes(p, i, e, DISABLE_FIELD) && e.disable == 1 && Changes(p, i, e, SAMPLING_FIELD))
  }

  /** What a caller can check before: some pattern of failing calls leaves the entry stuck
      exactly when it cannot be undone and no group has the period it asks for. */
  lemma {:induction false} StuckNeeds(p: Pids, i: nat, e: Entry)
    requires WellFormed(p) && i < |p.clients|
    ensures (exists ok :: Stuck(p, i, e, ok)) <==>
            !Undoable(p, i, e) && FindGroup(p.groups, e.sampling) == |p.groups|
  {
    hide CanEnable, Changes, DisableAdjust, WellFormed;
    forall ok ensures NoGroup(DisableAdjust(p, i, true, ok).0, e.sampling, ok) ==>
                        FindGroup(p.groups, e.sampling) == |p.groups|
    {
      DisableAdjustQuad(p, i, true, ok);
      SameGroup(p, DisableAdjust(p, i, true, ok).0, e.sampling);
    }
    var never: Oracle := (_: nat) => false;
    DisableAdjustQuad(p, i, true, never);
    SameGroup(p, DisableAdjust(p, i, true, never).0, e.sampling);
    if !Undoable(p, i, e) && FindGroup(p.groups, e.sampling) == |p.groups| {
      assert Stuck(p, i, e, never);
    }
  }

  lemma {:induction false} SameGroup(p: Pids, q: Pids, sampling: int)
    requires |q.groups| == |p.groups| && forall g | 0 <= g < |p.groups| :: q.groups[g].sampling == p.groups[g].sampling
    ensures FindGroup(q.groups, sampling) == FindGroup(p.groups, sampling)
  {
    var g, h := FindGroup(p.groups, sampling), FindGroup(q.groups, sampling);
    assert g < |p.groups| ==> q.groups[g].sampling == sampling;
    assert h < |q.groups| ==> p.groups[h].sampling == sampling;
  }

  /** An entry that names the set point alone, and carries a clear point it does not name. */
  function Lowering(desc: string): Entry {
    Entry(desc, SET_POINT_FIELD, 0, 0, 50, 40)
  }

  /** An entry that disables and asks for a new period. */
  function Retiring(desc: string): Entry {
    Entry(desc, 0x3, 1, 200, INT_MIN, INT_MIN)
  }

  lemma NamesOfThose(desc: string)
    ensures var e := Lowering(desc);
            Names(e, SET_POINT_FIELD) && !Names(e, SET_POINT_CLR_FIELD) && !Names(e, DISABLE_FIELD) &&
            !Names(e, SAMPLING_FIELD) && e.fieldsMask != 0
    ensures var e := Retiring(desc);
            Names(e, DISABLE_FIELD) && Names(e, SAMPLING_FIELD) && !Names(e, SET_POINT_FIELD) &&
            !Names(e, SET_POINT_CLR_FIELD) && e.fieldsMask != 0
  {
  }

  lemma {:induction false} LoweringApplied(p: Pids, i: nat, ok: Oracle)
    requires WellFormed(p) && i < |p.clients| && p.clients[i].setPoint == 70 && p.clients[i].setPointClr == 60
    ensures var q := ApplyEntry(p, i, Lowering(p.clients[i].desc), ok);
            q == Renotify(WithClient(p, i, p.clients[i].(setPoint := 50)), i)
  {
    hide Names, Renotify, DisableAdjust, SamplingAdjust;
    NamesOfThose(p.clients[i].desc);
  }

  /** It does happen. The first entry breaks the order of the set points, so the instance
      that the second disables cannot be enabled again; and when the timer for its new
      period cannot be created it stays disabled with the old one. */
  lemma {:induction false} StuckHappens(p: Pids, i: nat, ok: Oracle)
    requires WellFormed(p) && i < |p.clients| && FindClient(p.clients, p.clients[i].desc) == i
    requires p.clients[i].setPoint == 70 && p.clients[i].setPointClr == 60 && !p.clients[i].disabled
    requires FindGroup(p.groups, 200) == |p.groups| && forall n :: !ok(n)
    ensures var (desc, was) := (p.clients[i].desc, QuadOf(p, i));
            && ValidEntry(Lowering(desc), p.clients[i])
            && var q := OnConfig(p, [Lowering(desc)], ok);
            && WellFormed(q) && i < |q.clients| && QuadOf(q, i) == was.(setPoint := 50)
            && FindClient(q.clients, desc) == i && ValidEntry(Retiring(desc), q.clients[i])
            && QuadOf(OnConfig(q, [Retiring(desc)], ok), i) == was.(setPoint := 50, disabled := true)
            && Requested(QuadOf(q, i), Retiring(desc)) == was.(setPoint := 50, disabled := true, sampling := 200)
  {
    hide Names, ApplyEntry, DisableAdjust, FindClient, Renotify, WithClient, WellFormed;
    var desc := p.clients[i].desc;
    NamesOfThose(desc);
    SingleEntry(p, i, Lowering(desc), ok);
    LoweringApplied(p, i, ok);
    LoweredKeeps(p, i, desc);
    var q := OnConfig(p, [Lowering(desc)], ok);
    SingleEntry(q, i, Retiring(desc), ok);
    EntryAtomic(q, i, Retiring(desc), ok);
    DisableAdjustQuad(q, i, true, ok);
    SameGroup(q, DisableAdjust(q, i, true, ok).0, 200);
    WellFormedAt(q, i);
    assert q.groups[q.clients[i].group].sampling != 200;
    assert Changes(q, i, Retiring(desc), DISABLE_FIELD) && Changes(q, i, Retiring(desc), SAMPLING_FIELD);
    assert Stuck(q, i, Retiring(desc), ok);
  }

  lemma {:induction false} LoweredKeeps(p: Pids, i: nat, desc: string)
    requires WellFormed(p) && i < |p.clients| && FindClient(p.clients, desc) == i
    ensures var q := Renotify(WithClient(p, i, p.clients[i].(setPoint := 50)), i);
            && WellFormed(q) && q.groups == p.groups && |q.clients| == |p.clients|
            && QuadOf(q, i) == QuadOf(p, i).(setPoint := 50)
            && FindClient(q.clients, desc) == i
  {
    hide Set;
    SameClient(p.clients, Renotify(WithClient(p, i, p.clients[i].(setPoint := 50)), i).clients, desc);
  }

  lemma {:induction false} SameClient(cs: seq<Client>, ds: seq<Client>, desc: string)
    requires |ds| == |cs| && forall k | 0 <= k < |cs| :: ds[k].desc == cs[k].desc
    ensures FindClient(ds, desc) == FindClient(cs, desc)
  {
    var i, j := FindClient(cs, desc), FindClient(ds, desc);
    assert i < |cs| ==> ds[i].desc == desc;
    assert j < |ds| ==> cs[j].desc == desc;
  }

  lemma {:induction false} SingleEntry(p: Pids, i: nat, e: Entry, ok: Oracle)
    requires WellFormed(p) && i < |p.clients| && FindClient(p.clients, e.desc) == i && ValidEntry(e, p.clients[i])
    ensures OnConfig(p, [e], ok) == ApplyEntry(p, i, e, ok)
  {
    hide ApplyEntry, ValidEntry, WellFormed, FindClient;
    assert Validate(p, e) == i;
    assert Targets(p, [e]) == [i];
    assert ApplyBatch(p, [i], [e], ok, 0) == p;
  }

  /** With every timer call succeeding, a group to be had, and an instance that may be
      enabled if that is asked, a valid entry takes effect. */
  lemma {:induction false} EntrySucceeds(p: Pids, i: nat, e: Entry, ok: Oracle)
    requires WellFormed(p) && i < |p.clients| && ValidEntry(e, p.clients[i]) && forall n :: ok(n)
    requires FindGroup(p.groups, e.sampling) < |p.groups| || |p.groups| < MAX_PID_INSTANCES_SUPPORTED
    requires Names(e, DISABLE_FIELD) && e.disable == 0 ==> CanEnable(p, p.clients[i])
    ensures QuadOf(ApplyEntry(p, i, e, ok), i) == Requested(QuadOf(p, i), e)
  {
    hide WellFormed, DisableAdjust, SamplingAdjust, ApplySetPoints, Renotify, Names, ValidSetPoint, ValidSetPointClr,
         CanEnable, Local;
    WellFormedAt(p, i);
    LocalHere(p, i);
    DisableAdjustQuad(p, i, e.disable == 1, ok);
    var (p1, ok1, disableDone) := ApplyDisable(p, i, e, ok);
    WellFormedAt(p1, i);
    if Changes(p1, i, e, SAMPLING_FIELD) {
      SamplingAdjustQuad(p1, i, e.sampling, ok);
      SamplingSucceeds(p, p1, i, e.sampling, ok);
    }
    var p2 := ApplySampling(p1, i, e, ok).0;
    WellFormedAt(p2, i);
    SetPointsQuad(p2, i, e);
    RenotifyQuad(ApplySetPoints(p2, i, e), i);
  }

  lemma {:induction false} SamplingSucceeds(p: Pids, q: Pids, i: nat, sampling: int, ok: Oracle)
    requires WellFormed(p) && WellFormed(q) && i < |q.clients| && sampling >= SAMPLING_MS_MINIMUM && forall n :: ok(n)
    requires |q.groups| == |p.groups| && Local(p, q, i)
    requires FindGroup(p.groups, sampling) < |p.groups| || |p.groups| < MAX_PID_INSTANCES_SUPPORTED
    ensures SamplingAdjust(q, i, sampling, ok).1
  {
    hide LeaveAndStop, Leave, Join, Has, FirstIndex;
    var g := FindGroup(p.groups, sampling);
    if g < |p.groups| {
      assert q.groups[g].sampling == sampling;
    }
    var s := FindGroup(q.groups, sampling);
    if s < |q.groups| {
      MoveSucceeds(q, i, s, ok);
    } else {
      NewGroupWellFormed(q, sampling, ok(q.calls));
      MoveSucceeds(WithNewGroup(q, sampling, ok(q.calls)), i, s, ok);
    }
  }

  lemma {:induction false} MoveSucceeds(p: Pids, i: nat, s: nat, ok: Oracle)
    requires WellFormed(p) && i < |p.clients| && s < |p.groups| && forall n :: ok(n)
    ensures Move(p, i, s, ok).1
  {
    hide LeaveAndStop, Has, Set;
  }

  // ------------------------------------------------------------------ a batch

  predicate NamedOnce(batch: seq<Entry>) {
    forall j, k | 0 <= j < k < |batch| :: batch[j].desc != batch[k].desc
  }

  /** Validity, and what can be undone, depend on the instance's own settings alone. */
  lemma {:induction false} SameVerdict(p: Pids, q: Pids, i: nat, e: Entry)
    requires WellFormed(p) && WellFormed(q) && i < |p.clients| == |q.clients| && QuadOf(q, i) == QuadOf(p, i)
    ensures ValidEntry(e, q.clients[i]) == ValidEntry(e, p.clients[i])
    ensures Undoable(q, i, e) == Undoable(p, i, e)
  {
    hide Names;
  }

  /** After `n` entries: those instances have all or nothing, the rest are untouched. */
  ghost predicate Atomic(p: Pids, q: Pids, targets: seq<nat>, batch: seq<Entry>, n: nat)
    requires WellFormed(p) && WellFormed(q) && |q.clients| == |p.clients| && n <= |batch| == |targets|
    requires forall k | 0 <= k < |targets| :: targets[k] < |p.clients|
  {
    && (forall k | 0 <= k < n ::
          QuadOf(q, targets[k]) == Requested(QuadOf(p, targets[k]), batch[k]) ||
          QuadOf(q, targets[k]) == QuadOf(p, targets[k]))
    && Untouched(p, q, targets, n)
  }

  ghost predicate Untouched(p: Pids, q: Pids, targets: seq<nat>, n: nat)
    requires WellFormed(p) && WellFormed(q) && |q.clients| == |p.clients| && n <= |targets|
  {
    forall i | 0 <= i < |p.clients| && (forall k | 0 <= k < n :: targets[k] != i) :: QuadOf(q, i) == QuadOf(p, i)
  }

  /** The entry gets stuck when its turn comes. */
  predicate StuckAt(p: Pids, targets: seq<nat>, batch: seq<Entry>, ok: Oracle, k: nat)
    requires WellFormed(p) && k < |batch| == |targets|
    requires forall j | 0 <= j < |targets| :: targets[j] < |p.clients|
  {
    Stuck(ApplyBatch(p, targets, batch, ok, k), targets[k], batch[k], ok)
  }

  lemma {:induction false} BatchUntouched(p: Pids, targets: seq<nat>, batch: seq<Entry>, ok: Oracle, n: nat)
    requires WellFormed(p) && n <= |batch| == |targets|
    requires forall k | 0 <= k < |targets| :: targets[k] < |p.clients|
    requires forall j, k | 0 <= j < k < |targets| :: targets[j] != targets[k]
    requires forall k | 0 <= k < |batch| :: ValidEntry(batch[k], p.clients[targets[k]])
    ensures var q := ApplyBatch(p, targets, batch, ok, n);
            Untouched(p, q, targets, n) && (LongPeriods(p) ==> LongPeriods(q))
  {
    hide WellFormed, ApplyEntry, QuadOf, Requested, ValidEntry, Stuck, LongPeriods, SameSettings;
    if n > 0 {
      var q, i, e := ApplyBatch(p, targets, batch, ok, n - 1), targets[n - 1], batch[n - 1];
      BatchUntouched(p, targets, batch, ok, n - 1);
      assert QuadOf(q, i) == QuadOf(p, i);
      SameVerdict(p, q, i, e);
      EntryAtomic(q, i, e, ok);
    }
  }

  /** The entry whose turn it is finds its instance as it was, and does all or nothing unless stuck. */
  lemma {:induction false} TurnAtomic(p: Pids, targets: seq<nat>, batch: seq<Entry>, ok: Oracle, k: nat)
    requires k < |batch|
    requires WellFormed(p) && |batch| == |targets|
    requires forall k | 0 <= k < |targets| :: targets[k] < |p.clients|
    requires forall j, k | 0 <= j < k < |targets| :: targets[j] != targets[k]
    requires forall k | 0 <= k < |batch| :: ValidEntry(batch[k], p.clients[targets[k]])
    ensures var (q, r) := (ApplyBatch(p, targets, batch, ok, k), ApplyBatch(p, targets, batch, ok, k + 1));
            && QuadOf(q, targets[k]) == QuadOf(p, targets[k])
            && OnlyOne(q, r, targets[k])
            && (StuckAt(p, targets, batch, ok, k) <==>
                !(QuadOf(r, targets[k]) == Requested(QuadOf(p, targets[k]), batch[k]) ||
                  QuadOf(r, targets[k]) == QuadOf(p, targets[k])))
            && (Undoable(p, targets[k], batch[k]) ==> !StuckAt(p, targets, batch, ok, k))
  {
    hide WellFormed, ApplyEntry, QuadOf, Requested, ValidEntry, Stuck, Undoable, LongPeriods, SameSettings, OnlyOne;
    var q := ApplyBatch(p, targets, batch, ok, k);
    BatchUntouched(p, targets, batch, ok, k);
    assert QuadOf(q, targets[k]) == QuadOf(p, targets[k]);
    SameVerdict(p, q, targets[k], batch[k]);
    EntryAtomic(q, targets[k], batch[k], ok);
    if Undoable(q, targets[k], batch[k]) {
      UndoableNever(q, targets[k], batch[k], ok);
    }
  }

  /** Later entries leave it so. */
  lemma {:induction false} TurnStays(p: Pids, targets: seq<nat>, batch: seq<Entry>, ok: Oracle, k: nat, n: nat)
    requires k < n
    requires WellFormed(p) && n <= |batch| == |targets|
    requires forall k | 0 <= k < |targets| :: targets[k] < |p.clients|
    requires forall j, k | 0 <= j < k < |targets| :: targets[j] != targets[k]
    requires forall k | 0 <= k < |batch| :: ValidEntry(batch[k], p.clients[targets[k]])
    ensures QuadOf(ApplyBatch(p, targets, batch, ok, n), targets[k]) ==
            QuadOf(ApplyBatch(p, targets, batch, ok, k + 1), targets[k])
    decreases n
  {
    hide WellFormed, ApplyEntry, ApplyBatch, QuadOf, Requested, ValidEntry, StuckAt, Undoable;
    if k < n - 1 {
      TurnStays(p, targets, batch, ok, k, n - 1);
      TurnAtomic(p, targets, batch, ok, n - 1);
    }
  }

  lemma {:induction false} BatchAtomic(p: Pids, targets: seq<nat>, batch: seq<Entry>, ok: Oracle, n: nat)
    requires WellFormed(p) && n <= |batch| == |targets|
    requires forall k | 0 <= k < |targets| :: targets[k] < |p.clients|
    requires forall j, k | 0 <= j < k < |targets| :: targets[j] != targets[k]
    requires forall k | 0 <= k < |batch| :: ValidEntry(batch[k], p.clients[targets[k]])
    ensures Atomic(p, ApplyBatch(p, targets, batch, ok, n), targets, batch, n) <==>
            forall k | 0 <= k < n :: !StuckAt(p, targets, batch, ok, k)
    ensures forall k | 0 <= k < n && Undoable(p, targets[k], batch[k]) :: !StuckAt(p, targets, batch, ok, k)
  {
    hide WellFormed, ApplyBatch, QuadOf, Requested, ValidEntry, Undoable, StuckAt, OnlyOne;
    var q := ApplyBatch(p, targets, batch, ok, n);
    BatchUntouched(p, targets, batch, ok, n);
    forall k | 0 <= k < n
      ensures StuckAt(p, targets, batch, ok, k) <==>
              !(QuadOf(q, targets[k]) == Requested(QuadOf(p, targets[k]), batch[k]) ||
                QuadOf(q, targets[k]) == QuadOf(p, targets[k]))
      ensures Undoable(p, targets[k], batch[k]) ==> !StuckAt(p, targets, batch, ok, k)
    {
      TurnAtomic(p, targets, batch, ok, k);
      TurnStays(p, targets, batch, ok, k, n);
    }
  }

  lemma {:induction false} UndoableNever(p: Pids, i: nat, e: Entry, ok: Oracle)
    requires WellFormed(p) && i < |p.clients| && Undoable(p, i, e)
    ensures !Stuck(p, i, e, ok)
  {
    hide CanEnable, Changes, NoGroup, DisableAdjust;
  }

  lemma {:induction false} DistinctTargets(p: Pids, batch: seq<Entry>)
    requires AllValid(p, batch) && NamedOnce(batch)
    ensures var t := Targets(p, batch);
            && (forall k | 0 <= k < |t| :: t[k] < |p.clients| && p.clients[t[k]].desc == batch[k].desc &&
                                           ValidEntry(batch[k], p.clients[t[k]]))
            && (forall j, k | 0 <= j < k < |t| :: t[j] != t[k])
  {
    hide ValidEntry;
    var t := Targets(p, batch);
    forall k | 0 <= k < |t|
      ensures t[k] < |p.clients| && p.clients[t[k]].desc == batch[k].desc && ValidEntry(batch[k], p.clients[t[k]])
    {
      assert Validate(p, batch[k]) < |p.clients|;
    }
  }

  /** A batch that names each instance at most once, whatever timer calls fail midway: if
      one entry is invalid nothing at all changes; if all are valid, each named instance has
      wholly what was asked or wholly what it had and every other instance what it had, if
      and only if no entry gets stuck. One that could be undone at the start does not. */
  lemma {:induction false} ConfigAtomic(p: Pids, batch: seq<Entry>, ok: Oracle)
    requires WellFormed(p) && NamedOnce(batch)
    ensures var (q, t) := (OnConfig(p, batch, ok), Targets(p, batch));
            && (!AllValid(p, batch) ==> q == p)
            && (LongPeriods(p) ==> LongPeriods(q))
            && (AllValid(p, batch) ==>
                  ((Atomic(p, q, t, batch, |batch|) <==>
                    forall k | 0 <= k < |batch| :: !StuckAt(p, t, batch, ok, k)) &&
                   forall k | 0 <= k < |batch| && Undoable(p, t[k], batch[k]) :: !StuckAt(p, t, batch, ok, k)))
  {
    hide WellFormed, Undoable, ValidEntry, Validate, Atomic, StuckAt, ApplyBatch, LongPeriods;
    if AllValid(p, batch) {
      DistinctTargets(p, batch);
      BatchUntouched(p, Targets(p, batch), batch, ok, |batch|);
      BatchAtomic(p, Targets(p, batch), batch, ok, |batch|);
    }
  }

  // --------------------------------------------------- the order of set points

  predicate InOrder(q: Quad) {
    q.setPointClr < q.setPoint
  }

  /** Fields that the mask does not name are left at the value that means none. */
  predicate Clean(e: Entry) {
    && (!Names(e, SET_POINT_FIELD) ==> e.setPoint == INT_MIN)
    && (!Names(e, SET_POINT_CLR_FIELD) ==> e.setPointClr == INT_MIN)
  }

  /** One set point is named and would cross the other, which the validator did not look at
      because the entry carries an unnamed value for it. */
  predicate Crosses(e: Entry, c: Client) {
    || (Names(e, SET_POINT_FIELD) && !Names(e, SET_POINT_CLR_FIELD) && e.setPointClr != INT_MIN &&
        e.setPoint <= c.setPointClr)
    || (Names(e, SET_POINT_CLR_FIELD) && !Names(e, SET_POINT_FIELD) && e.setPoint != INT_MIN &&
        e.setPointClr >= c.setPoint)
  }

  /** What the validator lets through keeps the order exactly when it does not do that. */
  lemma {:induction false} OrderKeptIff(p: Pids, i: nat, e: Entry)
    requires WellFormed(p) && i < |p.clients| && InOrder(QuadOf(p, i)) && ValidEntry(e, p.clients[i])
    ensures InOrder(Requested(QuadOf(p, i), e)) <==> !Crosses(e, p.clients[i])
    ensures Clean(e) ==> !Crosses(e, p.clients[i])
  {
    hide Names;
  }

  /** An entry that the validator accepts and that leaves the order broken: it carries 40
      for the clear point, which is really 60. */
  lemma {:induction false} OrderCanBreak(p: Pids, i: nat)
    requires WellFormed(p) && i < |p.clients| && p.clients[i].setPoint == 70 && p.clients[i].setPointClr == 60
    ensures var e := Lowering(p.clients[i].desc);
            && InOrder(QuadOf(p, i)) && ValidEntry(e, p.clients[i])
            && !InOrder(Requested(QuadOf(p, i), e))
  {
    hide Names;
    NamesOfThose(p.clients[i].desc);
  }

  /** Every instance's set points, and those it was configured with, are in order. */
  ghost predicate AllInOrder(p: Pids) {
    forall i | 0 <= i < |p.clients| ::
      p.clients[i].setPointClr < p.clients[i].setPoint &&
      p.clients[i].setting.setPointClr < p.clients[i].setting.setPoint
  }

  lemma {:induction false} EntryOrder(p: Pids, i: nat, e: Entry, ok: Oracle)
    requires WellFormed(p) && i < |p.clients| && AllInOrder(p) && ValidEntry(e, p.clients[i]) && Clean(e)
    ensures AllInOrder(ApplyEntry(p, i, e, ok))
  {
    hide WellFormed, ApplyEntry, ValidEntry, Clean, Requested, Stuck;
    var q := ApplyEntry(p, i, e, ok);
    EntryAtomic(p, i, e, ok);
    OrderKeptIff(p, i, e);
    forall k | 0 <= k < |q.clients|
      ensures q.clients[k].setPointClr < q.clients[k].setPoint
      ensures q.clients[k].setting.setPointClr < q.clients[k].setting.setPoint
    {
      assert k != i ==> QuadOf(q, k) == QuadOf(p, k);
      assert q.clients[k].setting == p.clients[k].setting;
    }
  }

  lemma {:induction false} BatchOrder(p: Pids, targets: seq<nat>, batch: seq<Entry>, ok: Oracle, n: nat)
    requires WellFormed(p) && n <= |batch| == |targets| && AllInOrder(p)
    requires forall k | 0 <= k < |targets| :: targets[k] < |p.clients|
    requires forall j, k | 0 <= j < k < |targets| :: targets[j] != targets[k]
    requires forall k | 0 <= k < |batch| :: ValidEntry(batch[k], p.clients[targets[k]]) && Clean(batch[k])
    ensures var q := ApplyBatch(p, targets, batch, ok, n);
            && AllInOrder(q)
            && forall i | 0 <= i < |p.clients| && (forall k | 0 <= k < n :: targets[k] != i) :: QuadOf(q, i) == QuadOf(p, i)
  {
    hide WellFormed, ApplyEntry, QuadOf, Requested, ValidEntry, Clean, Stuck, AllInOrder;
    if n > 0 {
      var q, i, e := ApplyBatch(p, targets, batch, ok, n - 1), targets[n - 1], batch[n - 1];
      BatchOrder(p, targets, batch, ok, n - 1);
      assert QuadOf(q, i) == QuadOf(p, i);
      SameVerdict(p, q, i, e);
      EntryAtomic(q, i, e, ok);
      EntryOrder(q, i, e, ok);
    }
  }

  /** A batch of clean entries keeps the order, even when it is only partly applied. */
  lemma {:induction false} ConfigOrder(p: Pids, batch: seq<Entry>, ok: Oracle)
    requires WellFormed(p) && AllInOrder(p) && NamedOnce(batch) && forall e | e in batch :: Clean(e)
    ensures AllInOrder(OnConfig(p, batch, ok))
  {
    hide WellFormed, ValidEntry, Validate, Clean, ApplyBatch, AllInOrder;
    if AllValid(p, batch) {
      DistinctTargets(p, batch);
      BatchOrder(p, Targets(p, batch), batch, ok, |batch|);
    }
  }

  /** The other handlers leave set points and settings alone, or set the one from the other. */
  ghost predicate SamePoints(p: Pids, q: Pids) {
    SameSettings(p, q) && forall k | 0 <= k < |p.clients| ::
      q.clients[k].setPoint == p.clients[k].setPoint && q.clients[k].setPointClr == p.clients[k].setPointClr
  }

  lemma {:induction false} ThreshClientPoints(p: Pids, i: nat, temp: int)
    requires WellFormed(p) && i < |p.clients|
    ensures SamePoints(p, ThreshClient(p, i, temp))
  {
    hide Has, Set, Clear;
    WellFormedAt(p, i);
  }

  lemma {:induction false} ThreshPoints(p: Pids, temps: Temps, n: nat)
    requires WellFormed(p) && n <= |p.clients|
    ensures SamePoints(p, ThreshClients(p, temps, n))
  {
    hide WellFormed, ThreshClient;
    if n > 0 {
      ThreshPoints(p, temps, n - 1);
      ThreshClientPoints(ThreshClients(p, temps, n - 1), n - 1, temps(n - 1));
    }
  }

  lemma {:induction false} TimerClientPoints(p: Pids, g: nat, i: nat, temp: int, sampleCnt: int)
    requires WellFormed(p) && g < |p.groups| && i < |p.clients|
    ensures SamePoints(p, TimerClient(p, g, i, temp, sampleCnt))
  {
    hide WellFormed, Has, Correction, Pushed;
    WellFormedAt(p, i);
  }

  lemma {:induction false} TimerClientsPoints(p: Pids, g: nat, temps: Temps, sampleCnt: int, n: nat)
    requires WellFormed(p) && g < |p.groups| && n <= |p.clients|
    ensures SamePoints(p, TimerClients(p, g, temps, sampleCnt, n))
  {
    hide WellFormed, TimerClient;
    if n > 0 {
      TimerClientsPoints(p, g, temps, sampleCnt, n - 1);
      TimerClientPoints(TimerClients(p, g, temps, sampleCnt, n - 1), g, n - 1, temps(n - 1), sampleCnt);
    }
  }

  lemma {:induction false} TimerGroupsPoints(p: Pids, expired: bv32, temps: nat -> Temps, elapsed: nat -> int, n: nat)
    requires WellFormed(p) && n <= |p.groups|
    ensures SamePoints(p, TimerGroups(p, expired, temps, elapsed, n))
  {
    hide WellFormed, Has, TimerClients, SampleCount;
    if n > 0 {
      TimerGroupsPoints(p, expired, temps, elapsed, n - 1);
      var q := TimerGroups(p, expired, temps, elapsed, n - 1);
      PositivePeriod(q, n - 1);
      TimerClientsPoints(q, n - 1, temps(n - 1), SampleCount(elapsed(n - 1), q.groups[n - 1].sampling), |q.clients|);
    }
  }

  lemma {:induction false} OverrideOrder(p: Pids, mode: bool, n: nat)
    requires WellFormed(p) && n <= |p.clients| && AllInOrder(p)
    ensures AllInOrder(OnOverride(p, mode, n))
  {
    hide WellFormed, Set;
    if n > 0 {
      OverrideOrder(p, mode, n - 1);
    }
  }

  lemma {:induction false} SamePointsOrder(p: Pids, q: Pids)
    requires AllInOrder(p) && SamePoints(p, q)
    ensures AllInOrder(q)
  {
  }

  predicate CleanEvent(e: Event) {
    e.ConfigSet? ==> NamedOnce(e.batch) && forall x | x in e.batch :: Clean(x)
  }

  lemma {:induction false} StepOrder(p: Pids, e: Event, ok: Oracle)
    requires WellFormed(p) && AllInOrder(p) && CleanEvent(e)
    ensures AllInOrder(Step(p, e, ok))
  {
    hide WellFormed, AllInOrder, OnConfig, OnOverride, ThreshClients, TimerGroups, Has, Set, FirstBits, SamePoints, Clean;
    match e {
      case Override(mode) => OverrideOrder(p, mode, |p.clients|);
      case Timer(clockOk, temps, elapsed) =>
        TimerGroupsPoints(p, p.pending, temps, elapsed, |p.groups|);
        SamePointsOrder(p, TimerGroups(p, p.pending, temps, elapsed, |p.groups|));
        ClientsOrder(TimerGroups(p, p.pending, temps, elapsed, |p.groups|), Step(p, e, ok));
      case Thresh(temps) =>
        ThreshPoints(p, temps, |p.clients|);
        SamePointsOrder(p, ThreshClients(p, temps, |p.clients|));
        ClientsOrder(ThreshClients(p, temps, |p.clients|), Step(p, e, ok));
      case ConfigSet(batch) => ConfigOrder(p, batch, ok);
      case _ => ClientsOrder(p, Step(p, e, ok));
    }
  }

  lemma {:induction false} ClientsOrder(p: Pids, q: Pids)
    ensures q.clients == p.clients && AllInOrder(p) ==> AllInOrder(q)
  {
  }

  lemma {:induction false} BootOrder(es: seq<Init>)
    requires forall e | e in es :: GoodInit(e) && e.setting.setPointClr < e.setting.setPoint
    ensures AllInOrder(Boot(es))
  {
    hide WellFormed;
    if es != [] {
      BootOrder(es[..|es| - 1]);
    }
  }

  /** In every run whose batches are clean and name nobody twice, whatever timer calls fail,
      every clear point stays below its set point. */
  lemma {:induction false} OrderInAllRuns(es: seq<Init>, events: seq<Event>, ok: Oracle)
    requires forall e | e in es :: GoodInit(e) && e.setting.setPointClr < e.setting.setPoint
    requires forall e | e in events :: CleanEvent(e)
    ensures AllInOrder(Run(Boot(es), events, ok))
    decreases |events|
  {
    hide WellFormed, AllInOrder, Step, Boot, GoodInit, CleanEvent;
    if events == [] {
      BootOrder(es);
    } else {
      OrderInAllRuns(es, events[..|events| - 1], ok);
      StepOrder(Run(Boot(es), events[..|events| - 1], ok), events[|events| - 1], ok);
    }
  }

  // --------------------------------------------------- atomic in every run

  /** The other handlers leave the groups' periods alone. */
  ghost predicate Lasting(p: Pids, q: Pids) {
    |q.groups| == |p.groups| && forall g | 0 <= g < |p.groups| :: q.groups[g].sampling == p.groups[g].sampling
  }

  lemma {:induction false} LastingLong(p: Pids, q: Pids)
    requires Lasting(p, q)
    ensures LongPeriods(p) ==> LongPeriods(q)
  {
  }

  lemma {:induction false} ThreshClientLasting(p: Pids, i: nat, temp: int)
    requires WellFormed(p) && i < |p.clients|
    ensures Lasting(p, ThreshClient(p, i, temp))
  {
    hide Has, Set, Clear, ThreshedClient;
    WellFormedAt(p, i);
  }

  lemma {:induction false} ThreshClientsLasting(p: Pids, temps: Temps, n: nat)
    requires WellFormed(p) && n <= |p.clients|
    ensures Lasting(p, ThreshClients(p, temps, n))
  {
    hide WellFormed, ThreshClient;
    if n > 0 {
      ThreshClientsLasting(p, temps, n - 1);
      ThreshClientLasting(ThreshClients(p, temps, n - 1), n - 1, temps(n - 1));
    }
  }

  lemma {:induction false} ThreshGroupsLasting(p: Pids, ok: Oracle, n: nat)
    requires WellFormed(p) && n <= |p.groups|
    ensures Lasting(p, ThreshGroups(p, ok, n))
  {
    hide WellFormed, Enable, Disable;
    if n > 0 {
      ThreshGroupsLasting(p, ok, n - 1);
      TimerPeriods(ThreshGroups(p, ok, n - 1), n - 1, ok);
    }
  }

  lemma {:induction false} OverrideLasting(p: Pids, mode: bool, n: nat)
    requires WellFormed(p) && n <= |p.clients|
    ensures Lasting(p, OnOverride(p, mode, n))
  {
    hide WellFormed, Set;
    if n > 0 {
      OverrideLasting(p, mode, n - 1);
    }
  }

  lemma {:induction false} RestartLasting(p: Pids, expired: bv32, ok: Oracle, n: nat)
    requires WellFormed(p) && n <= |p.groups|
    ensures Lasting(p, Restart(p, expired, ok, n))
  {
    hide WellFormed, Has, SetTimer;
    if n > 0 {
      RestartLasting(p, expired, ok, n - 1);
    }
  }

  lemma {:induction false} StepLong(p: Pids, e: Event, ok: Oracle)
    requires WellFormed(p) && LongPeriods(p) && CleanEvent(e)
    ensures LongPeriods(Step(p, e, ok))
  {
    hide WellFormed, LongPeriods, Lasting, OnConfig, OnOverride, ThreshClients, ThreshGroups, TimerGroups, Restart, Set,
         FirstBits, Clean;
    var q := Step(p, e, ok);
    match e {
      case Override(mode) => OverrideLasting(p, mode, |p.clients|);
      case Timer(clockOk, temps, elapsed) =>
        StillLasting(p, TimerGroups(p, p.pending, temps, elapsed, |p.groups|));
        LastingLong(p, TimerGroups(p, p.pending, temps, elapsed, |p.groups|));
        RestartLasting(TimerGroups(p, p.pending, temps, elapsed, |p.groups|), p.pending, ok, |p.groups|);
        LastingLong(TimerGroups(p, p.pending, temps, elapsed, |p.groups|), if clockOk then q else p);
      case Thresh(temps) =>
        var mid := ThreshClients(p, temps, |p.clients|);
        ThreshClientsLasting(p, temps, |p.clients|);
        LastingLong(p, mid);
        ThreshGroupsLasting(mid, ok, |p.groups|);
        LastingLong(mid, q);
      case ConfigSet(batch) => ConfigAtomic(p, batch, ok);
      case Expired(g) => ExpiresLasting(p, g);
      case _ => StillLasting(p, q);
    }
    if Lasting(p, q) {
      LastingLong(p, q);
    }
  }

  lemma {:induction false} StillLasting(p: Pids, q: Pids)
    ensures q.groups == p.groups ==> Lasting(p, q)
  {
  }

  lemma {:induction false} ExpiresLasting(p: Pids, g: nat)
    ensures Lasting(p, TimerExpires(p, g))
  {
    hide Set;
  }

  lemma {:induction false} BootLong(es: seq<Init>)
    requires forall e | e in es :: GoodInit(e) && e.samplingPeriodMs >= SAMPLING_MS_MINIMUM
    ensures LongPeriods(Boot(es))
  {
    hide WellFormed;
    if es != [] {
      BootLong(es[..|es| - 1]);
    }
  }

  /** What both parsers of the configuration see to, and that the set points are in order. */
  predicate Proper(e: Init) {
    GoodInit(e) && e.samplingPeriodMs >= SAMPLING_MS_MINIMUM && e.setting.setPointClr < e.setting.setPoint
  }

  lemma {:induction false} LongInAllRuns(es: seq<Init>, events: seq<Event>, ok: Oracle)
    requires (forall e | e in es :: Proper(e)) && forall e | e in events :: CleanEvent(e)
    ensures forall e | e in es :: GoodInit(e)
    ensures LongPeriods(Run(Boot(es), events, ok))
    decreases |events|
  {
    hide WellFormed, LongPeriods, Step, Boot, CleanEvent;
    if events == [] {
      BootLong(es);
    } else {
      LongInAllRuns(es, events[..|events| - 1], ok);
      StepLong(Run(Boot(es), events[..|events| - 1], ok), events[|events| - 1], ok);
    }
  }

  lemma {:induction false} AlwaysUndoable(p: Pids, i: nat, e: Entry)
    requires WellFormed(p) && i < |p.clients| && AllInOrder(p) && LongPeriods(p)
    ensures Undoable(p, i, e)
  {
    WellFormedAt(p, i);
  }

  /** With set points in order and no period too short, a batch that names nobody twice is
      atomic, whatever timer calls fail. */
  lemma {:induction false} SettledAtomic(p: Pids, batch: seq<Entry>, ok: Oracle)
    requires WellFormed(p) && AllInOrder(p) && LongPeriods(p) && NamedOnce(batch)
    ensures var q := OnConfig(p, batch, ok);
            && (!AllValid(p, batch) ==> q == p)
            && (AllValid(p, batch) ==> Atomic(p, q, Targets(p, batch), batch, |batch|))
  {
    hide WellFormed, Undoable, Validate, Atomic, StuckAt, ApplyBatch, OnConfig, LongPeriods, AllInOrder;
    ConfigAtomic(p, batch, ok);
    if AllValid(p, batch) {
      var t := Targets(p, batch);
      forall k | 0 <= k < |batch| ensures !StuckAt(p, t, batch, ok, k) {
        assert Validate(p, batch[k]) < |p.clients|;
        AlwaysUndoable(p, t[k], batch[k]);
      }
    }
  }

  /** After any run of clean batches from a configuration that a parser lets through, any
      batch naming nobody twice is atomic: all of it is refused and nothing changes, or each
      named instance has wholly what was asked or wholly what it had and every other instance
      what it had. No pattern of failing timer calls, before or midway, spoils that. */
  lemma {:induction false} AtomicInAllRuns(es: seq<Init>, events: seq<Event>, batch: seq<Entry>, ok: Oracle)
    requires (forall e | e in es :: Proper(e)) && (forall e | e in events :: CleanEvent(e)) && NamedOnce(batch)
    ensures forall e | e in es :: GoodInit(e)
    ensures var p := Run(Boot(es), events, ok);
            var q := OnConfig(p, batch, ok);
            && (!AllValid(p, batch) ==> q == p)
            && (AllValid(p, batch) ==> Atomic(p, q, Targets(p, batch), batch, |batch|))
  {
    hide WellFormed, Atomic, OnConfig, AllValid, LongPeriods, AllInOrder, Run, Boot, CleanEvent;
    LongInAllRuns(es, events, ok);
    OrderInAllRuns(es, events, ok);
    SettledAtomic(Run(Boot(es), events, ok), batch, ok);
  }

  /** Without clean batches it can fail: from this configuration the two entries leave the
      instance disabled with the period that the second was to change. */
  lemma {:induction false} StuckReachable(e: Init, ok: Oracle)
    requires Proper(e) && e.samplingPeriodMs == 100 && e.setting.setPoint == 70 && e.setting.setPointClr == 60
    requires !e.disable && forall n :: !ok(n)
    ensures var p := Run(Boot([e]), [ConfigSet([Lowering(e.desc)])], ok);
            var q := Run(Boot([e]), [ConfigSet([Lowering(e.desc)]), ConfigSet([Retiring(e.desc)])], ok);
            && |q.clients| == |p.clients| == 1 && AllValid(p, [Retiring(e.desc)]) && NamedOnce([Retiring(e.desc)])
            && QuadOf(p, 0) == Quad(false, 100, 50, 60) && QuadOf(q, 0) == Quad(true, 100, 50, 60)
            && Requested(QuadOf(p, 0), Retiring(e.desc)) == Quad(true, 200, 50, 60)
  {
    hide WellFormed, OnConfig, ValidEntry, FindClient;
    OneClient(e);
    var p0 := Boot([e]);
    StuckHappens(p0, 0, ok);
    var first, second := ConfigSet([Lowering(e.desc)]), ConfigSet([Retiring(e.desc)]);
    OneStep(p0, first, ok);
    var p := Step(p0, first, ok);
    assert [first, second][..1] == [first];
  }

  lemma {:induction false} OneStep(p: Pids, e: Event, ok: Oracle)
    requires WellFormed(p)
    ensures Run(p, [e], ok) == Step(p, e, ok)
  {
    hide Step, WellFormed;
  }

  lemma {:induction false} OneClient(e: Init)
    requires GoodInit(e) && e.samplingPeriodMs == 100
    ensures var p := Boot([e]);
            && |p.clients| == 1 && FindClient(p.clients, e.desc) == 0 && FindGroup(p.groups, 200) == |p.groups|
            && p.clients[0].desc == e.desc && p.clients[0].setPoint == e.setting.setPoint
            && p.clients[0].setPointClr == e.setting.setPointClr && p.clients[0].disabled == e.disable
            && QuadOf(p, 0) == Quad(e.disable, 100, e.setting.setPoint, e.setting.setPointClr)
  {
    hide FirstIndex, WellFormed;
    BootOne(e);
    var p := Boot([e]);
    WellFormedAt(p, 0);
    assert FindClient(p.clients, e.desc) == 0;
    assert FindGroup(p.groups, 200) == |p.groups|;
  }

  lemma {:induction false} BootOne(e: Init)
    requires GoodInit(e) && e.samplingPeriodMs == 100
    ensures var p := Boot([e]);
            && p.groups == [Group(100, 0, false, 100, false)]
            && p.clients == [Client(e.desc, e.setting, e.minOpLvl, e.maxOpLvl, e.maxOpLvl, false, Flushed(),
                                    e.setting.setPoint, e.setting.setPointClr, 0, e.disable, 0)]
  {
    hide FindGroup, FirstIndex, WellFormed;
    assert [e][..0] == [];
    assert Boot([e]) == AddClient(Boot([]), e);
  }
}
