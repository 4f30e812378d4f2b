/** The monitor thread of thermal-engine/pid_algorithm.c (pid_algo_monitor, lines 972-1045)
    and the callbacks that wake it. The thread copies and clears the event flags, then runs
    the handlers they name, always in one order; notifications come in at any time between.
    Every run of it is a run of the handlers, so it has all that PidInvariant and PidBatch
    say; and, while the clock can be read, no notification is lost. */
module PidMonitor {
  import opened Bitmask
  import opened Numbers
  import opened Pid
  import opened PidBatch
  import opened PidInvariant

  /** What other threads tell this one. */
  datatype Note =
    | OverrideSet(mode: bool)
    | Requested(batch: seq<Entry>)
    | TimerExpired(group: nat)
    | ThreshReached(client: nat)

  /** One turn of the loop: what its handlers find, and what comes in before and between. */
  datatype Wake = Wake(
    before: seq<Note>,
    afterOverride: seq<Note>,
    afterTimer: seq<Note>,
    afterThresh: seq<Note>,
    clockOk: bool,
    timerTemps: nat -> Temps,
    elapsed: nat -> int,
    threshTemps: Temps)

  /** `mode` and `batch` are override_mode and client_config; `trace` is all that was done. */
  datatype Monitor = Monitor(pids: Pids, mode: bool, batch: seq<Entry>, trace: seq<Event>)

  function Do(m: Monitor, e: Event, ok: Oracle): (n: Monitor)
    requires WellFormed(m.pids)
    ensures WellFormed(n.pids) && n.mode == m.mode && n.batch == m.batch && n.trace == m.trace + [e]
  {
    hide Step;
    m.(pids := Step(m.pids, e, ok), trace := m.trace + [e])
  }

  /** As many entries of a request as there is room for. */
  function Fitting(batch: seq<Entry>): seq<Entry> {
    batch[..Min(MAX_PID_INSTANCES_SUPPORTED, |batch|)]
  }

  /** The callbacks. A new request replaces one that has not been handled, even by nothing. */
  function Noted(m: Monitor, note: Note, ok: Oracle): (n: Monitor)
    requires WellFormed(m.pids)
    ensures WellFormed(n.pids)
  {
    match note
    case OverrideSet(mode) => if mode == m.mode then m else Do(m.(mode := mode), OverrideAsked, ok)
    case Requested(batch) =>
      if batch == [] then m.(batch := []) else Do(m.(batch := Fitting(batch)), ConfigAsked, ok)
    case TimerExpired(g) => Do(m, Expired(g), ok)
    case ThreshReached(i) => Do(m, Crossed(i), ok)
  }

  function NotedAll(m: Monitor, notes: seq<Note>, ok: Oracle): (n: Monitor)
    requires WellFormed(m.pids)
    ensures WellFormed(n.pids)
  {
    hide WellFormed, Noted;
    if notes == [] then m else Noted(NotedAll(m, notes[..|notes| - 1], ok), notes[|notes| - 1], ok)
  }

  /** A handler runs if the flag that was copied is set. */
  function DoIf(m: Monitor, flag: bool, e: Event, ok: Oracle): (n: Monitor)
    requires WellFormed(m.pids)
    ensures WellFormed(n.pids)
  {
    if flag then Do(m, e, ok) else m
  }

  function OnWake(m: Monitor, w: Wake, ok: Oracle): (n: Monitor)
    requires WellFormed(m.pids)
    ensures WellFormed(n.pids)
  {
    hide WellFormed, DoIf, NotedAll;
    var m0 := NotedAll(m, w.before, ok);
    var local, m1 := m0.pids.flags, Do(m0, Woken, ok);
    var m2 := NotedAll(DoIf(m1, local.overriding, Override(m1.mode), ok), w.afterOverride, ok);
    var m3 := NotedAll(DoIf(m2, local.timer, Timer(w.clockOk, w.timerTemps, w.elapsed), ok), w.afterTimer, ok);
    var m4 := NotedAll(DoIf(m3, local.thresh, Thresh(w.threshTemps), ok), w.afterThresh, ok);
    DoIf(m4, local.config, ConfigSet(m4.batch), ok)
  }

  /** Before the loop every threshold is set, as the temperatures then are. */
  function Launched(p: Pids, temps: Temps, ok: Oracle): (m: Monitor)
    requires WellFormed(p)
    ensures WellFormed(m.pids)
  {
    hide WellFormed;
    Do(Do(Do(Monitor(p, false, [], []), Started, ok), Override(false), ok), Thresh(temps), ok)
  }

  function Monitored(p: Pids, temps: Temps, wakes: seq<Wake>, ok: Oracle): (m: Monitor)
    requires WellFormed(p)
    ensures WellFormed(m.pids)
  {
    hide WellFormed, OnWake, Launched;
    if wakes == [] then Launched(p, temps, ok)
    else OnWake(Monitored(p, temps, wakes[..|wakes| - 1], ok), wakes[|wakes| - 1], ok)
  }

  // -------------------------------------------------------- a run of the handlers

  ghost predicate Linked(m: Monitor, p: Pids, ok: Oracle)
    requires WellFormed(p)
  {
    m.pids == Run(p, m.trace, ok)
  }

  lemma {:induction false} DoLinked(m: Monitor, e: Event, p: Pids, ok: Oracle)
    requires WellFormed(p) && WellFormed(m.pids) && Linked(m, p, ok)
    ensures Linked(Do(m, e, ok), p, ok)
  {
    hide WellFormed, Step;
    assert (m.trace + [e])[..|m.trace|] == m.trace;
  }

  lemma {:induction false} NotedLinked(m: Monitor, notes: seq<Note>, p: Pids, ok: Oracle)
    requires WellFormed(p) && WellFormed(m.pids) && Linked(m, p, ok)
    ensures Linked(NotedAll(m, notes, ok), p, ok)
  {
    hide WellFormed, Do, Run;
    if notes != [] {
      var n, note := NotedAll(m, notes[..|notes| - 1], ok), notes[|notes| - 1];
      NotedLinked(m, notes[..|notes| - 1], p, ok);
      match note {
        case OverrideSet(mode) => DoLinked(n.(mode := mode), OverrideAsked, p, ok);
        case Requested(batch) => DoLinked(n.(batch := Fitting(batch)), ConfigAsked, p, ok);
        case TimerExpired(g) => DoLinked(n, Expired(g), p, ok);
        case ThreshReached(i) => DoLinked(n, Crossed(i), p, ok);
      }
    }
  }

  lemma {:induction false} WakeLinked(m: Monitor, w: Wake, p: Pids, ok: Oracle)
    requires WellFormed(p) && WellFormed(m.pids) && Linked(m, p, ok)
    ensures Linked(OnWake(m, w, ok), p, ok)
  {
    hide WellFormed, Do, NotedAll, Linked;
    var m0 := NotedAll(m, w.before, ok);
    NotedLinked(m, w.before, p, ok);
    var local, m1 := m0.pids.flags, Do(m0, Woken, ok);
    DoLinked(m0, Woken, p, ok);
    DoLinked(m1, Override(m1.mode), p, ok);
    var h2 := DoIf(m1, local.overriding, Override(m1.mode), ok);
    NotedLinked(h2, w.afterOverride, p, ok);
    var m2 := NotedAll(h2, w.afterOverride, ok);
    var timer := Timer(w.clockOk, w.timerTemps, w.elapsed);
    DoLinked(m2, timer, p, ok);
    var h3 := DoIf(m2, local.timer, timer, ok);
    NotedLinked(h3, w.afterTimer, p, ok);
    var m3 := NotedAll(h3, w.afterTimer, ok);
    DoLinked(m3, Thresh(w.threshTemps), p, ok);
    var h4 := DoIf(m3, local.thresh, Thresh(w.threshTemps), ok);
    NotedLinked(h4, w.afterThresh, p, ok);
    var m4 := NotedAll(h4, w.afterThresh, ok);
    DoLinked(m4, ConfigSet(m4.batch), p, ok);
  }

  /** What the thread does is a run of the handlers and callbacks from where it began. */
  lemma {:induction false} MonitorIsRun(p: Pids, temps: Temps, wakes: seq<Wake>, ok: Oracle)
    requires WellFormed(p)
    ensures Linked(Monitored(p, temps, wakes, ok), p, ok)
  {
    hide WellFormed, Do, OnWake, Linked;
    if wakes == [] {
      var m := Monitor(p, false, [], []);
      assert Linked(m, p, ok) by { NothingRun(p, ok); }
      DoLinked(m, Started, p, ok);
      DoLinked(Do(m, Started, ok), Override(false), p, ok);
      DoLinked(Do(Do(m, Started, ok), Override(false), ok), Thresh(temps), p, ok);
    } else {
      MonitorIsRun(p, temps, wakes[..|wakes| - 1], ok);
      WakeLinked(Monitored(p, temps, wakes[..|wakes| - 1], ok), wakes[|wakes| - 1], p, ok);
    }
  }

  lemma {:induction false} NothingRun(p: Pids, ok: Oracle)
    requires WellFormed(p)
    ensures Linked(Monitor(p, false, [], []), p, ok)
  {
  }

  // ------------------------------------------------------------- clean requests

  predicate CleanBatch(batch: seq<Entry>) {
    NamedOnce(batch) && forall e | e in batch :: Clean(e)
  }

  ghost predicate CleanWake(w: Wake) {
    forall n | n in w.before + w.afterOverride + w.afterTimer + w.afterThresh && n.Requested? :: CleanBatch(n.batch)
  }

  ghost predicate CleanMonitor(m: Monitor) {
    CleanBatch(m.batch) && forall e | e in m.trace :: CleanEvent(e)
  }

  lemma {:induction false} DoClean(m: Monitor, e: Event, ok: Oracle)
    requires WellFormed(m.pids) && CleanMonitor(m) && CleanEvent(e)
    ensures CleanMonitor(Do(m, e, ok))
  {
    hide WellFormed, CleanBatch, CleanEvent;
  }

  lemma {:induction false} FittingClean(batch: seq<Entry>)
    requires CleanBatch(batch)
    ensures CleanBatch(Fitting(batch))
  {
    hide Clean;
    forall e | e in Fitting(batch) ensures e in batch {
    }
  }

  lemma {:induction false} NotedClean(m: Monitor, notes: seq<Note>, ok: Oracle)
    requires WellFormed(m.pids) && CleanMonitor(m)
    requires forall n | n in notes && n.Requested? :: CleanBatch(n.batch)
    ensures CleanMonitor(NotedAll(m, notes, ok))
  {
    hide WellFormed, Do, CleanBatch, Fitting;
    if notes != [] {
      var n, note := NotedAll(m, notes[..|notes| - 1], ok), notes[|notes| - 1];
      NotedClean(m, notes[..|notes| - 1], ok);
      assert note in notes;
      match note {
        case OverrideSet(mode) => DoClean(n.(mode := mode), OverrideAsked, ok);
        case Requested(batch) =>
          FittingClean(batch);
          DoClean(n.(batch := Fitting(batch)), ConfigAsked, ok);
          NothingClean();
        case TimerExpired(g) => DoClean(n, Expired(g), ok);
        case ThreshReached(i) => DoClean(n, Crossed(i), ok);
      }
    }
  }

  lemma NothingClean()
    ensures CleanBatch([])
  {
  }

  lemma {:induction false} WakeClean(m: Monitor, w: Wake, ok: Oracle)
    requires WellFormed(m.pids) && CleanMonitor(m) && CleanWake(w)
    ensures CleanMonitor(OnWake(m, w, ok))
  {
    hide WellFormed, Do, NotedAll, CleanBatch;
    var m0 := NotedAll(m, w.before, ok);
    NotedClean(m, w.before, ok);
    var local, m1 := m0.pids.flags, Do(m0, Woken, ok);
    DoClean(m0, Woken, ok);
    DoClean(m1, Override(m1.mode), ok);
    var h2 := DoIf(m1, local.overriding, Override(m1.mode), ok);
    NotedClean(h2, w.afterOverride, ok);
    var m2 := NotedAll(h2, w.afterOverride, ok);
    var timer := Timer(w.clockOk, w.timerTemps, w.elapsed);
    DoClean(m2, timer, ok);
    var h3 := DoIf(m2, local.timer, timer, ok);
    NotedClean(h3, w.afterTimer, ok);
    var m3 := NotedAll(h3, w.afterTimer, ok);
    DoClean(m3, Thresh(w.threshTemps), ok);
    var h4 := DoIf(m3, local.thresh, Thresh(w.threshTemps), ok);
    NotedClean(h4, w.afterThresh, ok);
    var m4 := NotedAll(h4, w.afterThresh, ok);
    assert CleanEvent(ConfigSet(m4.batch)) by { BatchEvent(m4.batch); }
    DoClean(m4, ConfigSet(m4.batch), ok);
  }

  lemma {:induction false} BatchEvent(batch: seq<Entry>)
    requires CleanBatch(batch)
    ensures CleanEvent(ConfigSet(batch))
  {
  }

  lemma {:induction false} MonitorClean(p: Pids, temps: Temps, wakes: seq<Wake>, ok: Oracle)
    requires WellFormed(p) && forall w | w in wakes :: CleanWake(w)
    ensures CleanMonitor(Monitored(p, temps, wakes, ok))
  {
    hide WellFormed, Do, OnWake, CleanWake;
    if wakes == [] {
      var m := Monitor(p, false, [], []);
      DoClean(m, Started, ok);
      DoClean(Do(m, Started, ok), Override(false), ok);
      DoClean(Do(Do(m, Started, ok), Override(false), ok), Thresh(temps), ok);
    } else {
      MonitorClean(p, temps, wakes[..|wakes| - 1], ok);
      WakeClean(Monitored(p, temps, wakes[..|wakes| - 1], ok), wakes[|wakes| - 1], ok);
    }
  }

  /** In every run of the thread, from a configuration a parser lets through and with clean
      requests, a batch that names nobody twice is atomic whatever timer calls fail. */
  lemma {:induction false} MonitorAtomic(es: seq<Init>, temps: Temps, wakes: seq<Wake>, batch: seq<Entry>, ok: Oracle)
    requires (forall e | e in es :: Proper(e)) && (forall w | w in wakes :: CleanWake(w)) && NamedOnce(batch)
    ensures forall e | e in es :: GoodInit(e)
    ensures var p := Monitored(Boot(es), temps, wakes, ok).pids;
            var q := OnConfig(p, batch, ok);
            && (!AllValid(p, batch) ==> q == p)
            && (AllValid(p, batch) ==> Atomic(p, q, Targets(p, batch), batch, |batch|))
  {
    hide WellFormed, CleanWake, Monitored, Boot, Run, CleanEvent, OnConfig, Atomic, AllValid;
    assert forall e | e in es :: GoodInit(e);
    MonitorIsRun(Boot(es), temps, wakes, ok);
    MonitorClean(Boot(es), temps, wakes, ok);
    AtomicInAllRuns(es, Monitored(Boot(es), temps, wakes, ok).trace, batch, ok);
  }

  // ----------------------------------------------------------- nothing is lost

  /** A threshold still to be looked at, or a timer still to be handled, is flagged, now or
      in the copy that is being worked off. */
  ghost predicate Heard(p: Pids, local: Flags) {
    && (forall i | 0 <= i < |p.clients| && Has(p.reached, i) :: p.flags.thresh || local.thresh)
    && (forall g | 0 <= g < WIDTH && Has(p.pending, g) :: g < |p.groups| && (p.flags.timer || local.timer))
  }

  /** Nothing but clients and groups, and no fewer of those. */
  ghost predicate Silent(p: Pids, q: Pids) {
    && q.reached == p.reached && q.pending == p.pending && q.flags == p.flags
    && |q.clients| == |p.clients| && |p.groups| <= |q.groups|
  }

  lemma {:induction false} SilentHeard(p: Pids, q: Pids, local: Flags)
    requires Silent(p, q) && Heard(p, local)
    ensures Heard(q, local)
  {
    hide Has;
  }

  lemma {:induction false} SilentThen(p: Pids, q: Pids, r: Pids)
    requires Silent(p, q) && Silent(q, r)
    ensures Silent(p, r)
  {
  }

  // ------------------------------------------------------------- configuration

  lemma {:induction false} TimerSilent(p: Pids, g: nat, ok: Oracle)
    requires g < |p.groups|
    ensures Silent(p, SetTimer(p, g, ok).0) && Silent(p, Enable(p, g, ok).0) && Silent(p, Disable(p, g, ok))
  {
  }

  lemma {:induction false} LeaveSilent(p: Pids, g: nat, i: nat, ok: Oracle)
    requires g < |p.groups|
    ensures Silent(p, Join(p, g, i)) && Silent(p, Leave(p, g, i)) && Silent(p, LeaveAndStop(p, g, i, ok))
  {
    hide Disable, Set, Clear;
    TimerSilent(Leave(p, g, i), g, ok);
  }

  lemma {:induction false} ClientSilent(p: Pids, q: Pids, i: nat, c: Client)
    requires Silent(p, q) && i < |q.clients|
    ensures Silent(p, WithClient(q, i, c))
  {
  }

  lemma {:induction false} DisableAdjustSilent(p: Pids, i: nat, disable: bool, ok: Oracle)
    requires WellFormed(p) && i < |p.clients|
    ensures Silent(p, DisableAdjust(p, i, disable, ok).0)
  {
    hide LeaveAndStop;
    WellFormedAt(p, i);
    var c := p.clients[i];
    if disable {
      LeaveSilent(
        WithClient(p, i, c.(devOpLvl := c.maxOpLvl, mitigating := false, prevAdjustment := 0, disabled := true)),
        c.group, i, ok);
    }
  }

  lemma {:induction false} MoveSilent(p: Pids, i: nat, s: nat, ok: Oracle)
    requires WellFormed(p) && i < |p.clients| && s < |p.groups|
    ensures Silent(p, Move(p, i, s, ok).0)
  {
    hide LeaveAndStop, Enable, Join, Leave, Has, WellFormed, Silent, WithClient;
    WellFormedAt(p, i);
    var c := p.clients[i];
    StillSilent(p);
    ClientSilent(p, p, i, c.(group := s));
    if !(c.disabled || !Has(p.groups[c.group].mask, i)) {
      var p1 := Join(p, s, i);
      LeaveSilent(p, s, i, ok);
      TimerSilent(p1, s, ok);
      StillSilent(p1);
      var p2 := if p1.groups[s].mask != 0 && !p1.groups[s].enabled then Enable(p1, s, ok).0 else p1;
      SilentThen(p, p1, p2);
      LeaveSilent(p2, s, i, ok);
      SilentThen(p, p2, Leave(p2, s, i));
      LeaveSilent(p2, c.group, i, ok);
      SilentThen(p, p2, LeaveAndStop(p2, c.group, i, ok));
      ClientSilent(p, LeaveAndStop(p2, c.group, i, ok), i, c.(group := s));
    }
  }

  lemma {:induction false} StillSilent(p: Pids)
    ensures Silent(p, p)
  {
  }

  lemma {:induction false} SamplingAdjustSilent(p: Pids, i: nat, sampling: int, ok: Oracle)
    requires WellFormed(p) && i < |p.clients|
    ensures Silent(p, SamplingAdjust(p, i, sampling, ok).0)
  {
    hide Move, FirstIndex;
    var s := FindGroup(p.groups, sampling);
    if sampling >= SAMPLING_MS_MINIMUM && s < |p.groups| {
      MoveSilent(p, i, s, ok);
    } else if sampling >= SAMPLING_MS_MINIMUM && |p.groups| < MAX_PID_INSTANCES_SUPPORTED {
      var p1 := WithNewGroup(p, sampling, ok(p.calls));
      NewGroupWellFormed(p, sampling, ok(p.calls));
      MoveSilent(p1, i, s, ok);
    }
  }

  lemma {:induction false} RenotifyHeard(p: Pids, i: nat, local: Flags)
    requires i < |p.clients| && Heard(p, local)
    ensures Heard(Renotify(p, i), local)
  {
    hide Has, Set;
  }

  lemma {:induction false} EntryHeard(p: Pids, i: nat, e: Entry, ok: Oracle, local: Flags)
    requires WellFormed(p) && i < |p.clients| && Heard(p, local)
    ensures Heard(ApplyEntry(p, i, e, ok), local)
  {
    hide WellFormed, DisableAdjust, SamplingAdjust, Renotify, Changes, Silent, Heard;
    DisableAdjustSilent(p, i, e.disable == 1, ok);
    StillSilent(p);
    var p1 := ApplyDisable(p, i, e, ok).0;
    SilentHeard(p, p1, local);
    SamplingAdjustSilent(p1, i, e.sampling, ok);
    StillSilent(p1);
    var p2 := ApplySampling(p1, i, e, ok).0;
    SilentHeard(p1, p2, local);
    var p3, p4 := ApplySetPoints(p2, i, e), DisableAdjust(p2, i, p.clients[i].disabled, ok).0;
    SetPointsSilent(p2, i, e);
    SilentHeard(p2, p3, local);
    RenotifyHeard(p3, i, local);
    DisableAdjustSilent(p2, i, p.clients[i].disabled, ok);
    SilentHeard(p2, p4, local);
    RenotifyHeard(p4, i, local);
  }

  lemma {:induction false} SetPointsSilent(p: Pids, i: nat, e: Entry)
    requires WellFormed(p) && i < |p.clients|
    ensures Silent(p, ApplySetPoints(p, i, e))
  {
    hide Names;
  }

  lemma {:induction false} BatchHeard(p: Pids, targets: seq<nat>, batch: seq<Entry>, ok: Oracle, n: nat, local: Flags)
    requires WellFormed(p) && n <= |batch| == |targets| && Heard(p, local)
    requires forall k | 0 <= k < |targets| :: targets[k] < |p.clients|
    ensures Heard(ApplyBatch(p, targets, batch, ok, n), local)
  {
    hide WellFormed, ApplyEntry, Heard;
    if n > 0 {
      BatchHeard(p, targets, batch, ok, n - 1, local);
      EntryHeard(ApplyBatch(p, targets, batch, ok, n - 1), targets[n - 1], batch[n - 1], ok, local);
    }
  }

  lemma {:induction false} OverrideHeard(p: Pids, mode: bool, n: nat, local: Flags)
    requires WellFormed(p) && n <= |p.clients| && Heard(p, local)
    ensures Heard(OnOverride(p, mode, n), local)
  {
    hide WellFormed, Renotify, Has, Heard;
    if n > 0 {
      OverrideHeard(p, mode, n - 1, local);
      OverrideOneHeard(OnOverride(p, mode, n - 1), n - 1, mode, local);
    }
  }

  lemma {:induction false} OverrideOneHeard(p: Pids, i: nat, mode: bool, local: Flags)
    requires WellFormed(p) && i < |p.clients| && Heard(p, local)
    ensures Heard(OverrideClient(p, i, mode), local)
  {
    hide WellFormed, Renotify, Has, Heard, Silent;
    var c, shift := p.clients[i], if mode then p.clients[i].setting.overshoot else 0;
    var q := WithClient(p, i, c.(setPoint := c.setting.setPoint + shift, setPointClr := c.setting.setPointClr + shift,
                                 prevAdjustment := 0));
    StillSilent(p);
    ClientSilent(p, p, i, q.clients[i]);
    SilentHeard(p, q, local);
    RenotifyHeard(q, i, local);
  }

  // ---------------------------------------------------------------- thresholds

  lemma {:induction false} ThreshClientEffect(p: Pids, i: nat, temp: int)
    requires WellFormed(p) && i < |p.clients|
    ensures var q := ThreshClient(p, i, temp);
            && q.pending == p.pending && q.flags == p.flags && |q.clients| == |p.clients| && |q.groups| == |p.groups|
            && (forall k | 0 <= k < |p.clients| && k != i :: q.clients[k] == p.clients[k])
            && q.clients[i] == (if Has(p.reached, i) && !p.clients[i].disabled then ThreshedClient(p.clients[i], temp)
                                else p.clients[i])
            && forall k | 0 <= k < WIDTH :: Has(q.reached, k) <==> k != i && Has(p.reached, k)
  {
    hide Has, Set, Clear, ThreshedClient;
    WellFormedAt(p, i);
    forall k | 0 <= k < WIDTH ensures Has(Clear(p.reached, i), k) <==> k != i && Has(p.reached, k) {
      HasClear(p.reached, i, k);
    }
  }

  lemma {:induction false} ThreshClientsEffect(p: Pids, temps: Temps, n: nat)
    requires WellFormed(p) && n <= |p.clients|
    ensures var q := ThreshClients(p, temps, n);
            && q.pending == p.pending && q.flags == p.flags
            && (forall k | 0 <= k < |p.clients| ::
                  q.clients[k] == if k < n && Has(p.reached, k) && !p.clients[k].disabled
                                  then ThreshedClient(p.clients[k], temps(k)) else p.clients[k])
            && forall k | 0 <= k < WIDTH :: Has(q.reached, k) <==> n <= k && Has(p.reached, k)
  {
    hide WellFormed, Has, ThreshClient, ThreshedClient;
    if n > 0 {
      assert n - 1 < WIDTH by { AtMost(p); }
      ThreshClientsEffect(p, temps, n - 1);
      ThreshClientEffect(ThreshClients(p, temps, n - 1), n - 1, temps(n - 1));
    }
  }

  lemma {:induction false} ThreshGroupsSilent(p: Pids, ok: Oracle, n: nat)
    requires WellFormed(p) && n <= |p.groups|
    ensures Silent(p, ThreshGroups(p, ok, n))
  {
    hide WellFormed, Enable, Disable;
    if n > 0 {
      ThreshGroupsSilent(p, ok, n - 1);
      TimerSilent(ThreshGroups(p, ok, n - 1), n - 1, ok);
    }
  }

  lemma {:induction false} ThreshHeard(p: Pids, temps: Temps, ok: Oracle, local: Flags)
    requires WellFormed(p) && Heard(p, local)
    ensures Heard(OnThresh(p, temps, ok), local.(thresh := false))
  {
    hide WellFormed, Has, ThreshClients, ThreshGroups, ThreshedClient;
    AtMost(p);
    ThreshClientsEffect(p, temps, |p.clients|);
    var mid := ThreshClients(p, temps, |p.clients|);
    ThreshGroupsSilent(mid, ok, |p.groups|);
  }

  // -------------------------------------------------------------------- timers

  lemma {:induction false} TimerGroupsSilent(p: Pids, expired: bv32, temps: nat -> Temps, elapsed: nat -> int, n: nat)
    requires WellFormed(p) && n <= |p.groups|
    ensures Silent(p, TimerGroups(p, expired, temps, elapsed, n).(pending := p.pending))
  {
    hide WellFormed, Has, TimerClients, SampleCount, Clear;
    if n > 0 {
      TimerGroupsSilent(p, expired, temps, elapsed, n - 1);
      var q := TimerGroups(p, expired, temps, elapsed, n - 1);
      PositivePeriod(q, n - 1);
      TimerClientsSilent(q, n - 1, temps(n - 1), SampleCount(elapsed(n - 1), q.groups[n - 1].sampling), |q.clients|);
    }
  }

  lemma {:induction false} TimerClientsSilent(p: Pids, g: nat, temps: Temps, sampleCnt: int, n: nat)
    requires WellFormed(p) && g < |p.groups| && n <= |p.clients|
    ensures Silent(p, TimerClients(p, g, temps, sampleCnt, n))
  {
    hide WellFormed, Has, Sampled;
    if n > 0 {
      TimerClientsSilent(p, g, temps, sampleCnt, n - 1);
      PositivePeriod(TimerClients(p, g, temps, sampleCnt, n - 1), g);
      WellFormedAt(TimerClients(p, g, temps, sampleCnt, n - 1), n - 1);
    }
  }

  lemma {:induction false} RestartSilent(p: Pids, expired: bv32, ok: Oracle, n: nat)
    requires WellFormed(p) && n <= |p.groups|
    ensures Silent(p, Restart(p, expired, ok, n))
  {
    hide WellFormed, Has, SetTimer;
    if n > 0 {
      RestartSilent(p, expired, ok, n - 1);
      TimerSilent(Restart(p, expired, ok, n - 1), n - 1, ok);
    }
  }

  lemma {:induction false} TimerEffect(p: Pids, clockOk: bool, temps: nat -> Temps, elapsed: nat -> int, ok: Oracle)
    requires Inv(p) && WellFormed(p)
    ensures var q := OnTimer(p, clockOk, temps, elapsed, ok);
            && Silent(p, q.(pending := p.pending))
            && (if clockOk then forall g | 0 <= g < WIDTH :: Has(q.pending, g) <==> Has(p.pending, g) && g >= |p.groups|
                else q == p)
  {
    hide WellFormed, Has, Inv, TimerGroups, Restart;
    if clockOk {
      var mid := TimerGroups(p, p.pending, temps, elapsed, |p.groups|);
      TimerGroupsSilent(p, p.pending, temps, elapsed, |p.groups|);
      TimerGroupsInv(p, p.pending, temps, elapsed, |p.groups|);
      RestartSilent(mid, p.pending, ok, |p.groups|);
    }
  }

  lemma {:induction false} TimerHeard(p: Pids, clockOk: bool, temps: nat -> Temps, elapsed: nat -> int, ok: Oracle,
                                      local: Flags)
    requires Inv(p) && WellFormed(p) && Heard(p, local)
    ensures Heard(OnTimer(p, clockOk, temps, elapsed, ok), local.(timer := local.timer && !clockOk))
  {
    hide WellFormed, Has, Inv, OnTimer;
    TimerEffect(p, clockOk, temps, elapsed, ok);
  }

  lemma {:induction false} NoteHeard(m: Monitor, note: Note, ok: Oracle, local: Flags)
    requires WellFormed(m.pids) && Heard(m.pids, local)
    ensures Heard(Noted(m, note, ok).pids, local)
  {
    hide Has, Set;
    var p := m.pids;
    if note.TimerExpired? && note.group < |p.groups| {
      forall g | 0 <= g < WIDTH ensures Has(Set(p.pending, note.group), g) <==> g == note.group || Has(p.pending, g) {
        HasSet(p.pending, note.group, g);
      }
    }
  }

  lemma {:induction false} NotesHeard(m: Monitor, notes: seq<Note>, ok: Oracle, local: Flags)
    requires Inv(m.pids) && WellFormed(m.pids) && Heard(m.pids, local)
    ensures var n := NotedAll(m, notes, ok);
            Inv(n.pids) && Heard(n.pids, local)
  {
    hide WellFormed, Inv, Heard, Noted;
    if notes != [] {
      var n, note := NotedAll(m, notes[..|notes| - 1], ok), notes[|notes| - 1];
      NotesHeard(m, notes[..|notes| - 1], ok, local);
      NoteHeard(n, note, ok, local);
      NoteInv(n, note, ok);
    }
  }

  lemma {:induction false} NoteInv(m: Monitor, note: Note, ok: Oracle)
    requires Inv(m.pids) && WellFormed(m.pids)
    ensures Inv(Noted(m, note, ok).pids)
  {
    hide WellFormed, Inv, Step;
    match note {
      case OverrideSet(_) => StepInv(m.pids, OverrideAsked, ok);
      case Requested(_) => StepInv(m.pids, ConfigAsked, ok);
      case TimerExpired(g) => StepInv(m.pids, Expired(g), ok);
      case ThreshReached(i) => StepInv(m.pids, Crossed(i), ok);
    }
  }

  /** A handler that is run works off its flag, the timer handler unless the clock fails. */
  function WorkedOff(local: Flags, e: Event): Flags {
    match e
    case Override(_) => local.(overriding := false)
    case Timer(clockOk, _, _) => local.(timer := local.timer && !clockOk)
    case Thresh(_) => local.(thresh := false)
    case _ => local
  }

  lemma {:induction false} HandlerHeard(m: Monitor, flag: bool, e: Event, ok: Oracle, local: Flags)
    requires Inv(m.pids) && WellFormed(m.pids) && Heard(m.pids, local)
    requires e.Override? || (e.Timer? && flag == local.timer) || (e.Thresh? && flag == local.thresh) || e.ConfigSet?
    ensures var n := DoIf(m, flag, e, ok);
            Inv(n.pids) && Heard(n.pids, WorkedOff(local, e))
  {
    hide WellFormed, Inv, Has, OnOverride, OnTimer, OnThresh, ApplyBatch;
    StepInv(m.pids, e, ok);
    if flag {
      match e {
        case Override(mode) => OverrideHeard(m.pids, mode, |m.pids.clients|, local);
        case Timer(clockOk, temps, elapsed) => TimerHeard(m.pids, clockOk, temps, elapsed, ok, local);
        case Thresh(temps) => ThreshHeard(m.pids, temps, ok, local);
        case ConfigSet(batch) =>
          if AllValid(m.pids, batch) {
            BatchHeard(m.pids, Targets(m.pids, batch), batch, ok, |batch|, local);
          }
      }
    }
  }

  lemma {:induction false} WokenHeard(m: Monitor, ok: Oracle)
    requires Inv(m.pids) && WellFormed(m.pids) && Heard(m.pids, NO_FLAGS)
    ensures var n := Do(m, Woken, ok);
            Inv(n.pids) && Heard(n.pids, m.pids.flags)
  {
    hide Has, Inv;
    StepInv(m.pids, Woken, ok);
  }

  /** One turn of the loop loses no notification, unless the clock cannot be read, and then
      none but of timers. */
  lemma {:induction false} WakeHeard(m: Monitor, w: Wake, ok: Oracle)
    requires Inv(m.pids) && WellFormed(m.pids) && Heard(m.pids, NO_FLAGS)
    ensures var n := OnWake(m, w, ok);
            Inv(n.pids) && Heard(n.pids, NO_FLAGS.(timer := !w.clockOk))
  {
    hide WellFormed, Inv, Heard, Do, DoIf, NotedAll;
    var m0 := NotedAll(m, w.before, ok);
    NotesHeard(m, w.before, ok, NO_FLAGS);
    var local, m1 := m0.pids.flags, Do(m0, Woken, ok);
    WokenHeard(m0, ok);
    var h2 := DoIf(m1, local.overriding, Override(m1.mode), ok);
    HandlerHeard(m1, local.overriding, Override(m1.mode), ok, local);
    var l2 := local.(overriding := false);
    NotesHeard(h2, w.afterOverride, ok, l2);
    var m2 := NotedAll(h2, w.afterOverride, ok);
    var timer := Timer(w.clockOk, w.timerTemps, w.elapsed);
    var h3 := DoIf(m2, local.timer, timer, ok);
    HandlerHeard(m2, local.timer, timer, ok, l2);
    var l3 := l2.(timer := local.timer && !w.clockOk);
    NotesHeard(h3, w.afterTimer, ok, l3);
    var m3 := NotedAll(h3, w.afterTimer, ok);
    var h4 := DoIf(m3, local.thresh, Thresh(w.threshTemps), ok);
    HandlerHeard(m3, local.thresh, Thresh(w.threshTemps), ok, l3);
    var l4 := l3.(thresh := false);
    NotesHeard(h4, w.afterThresh, ok, l4);
    var m4 := NotedAll(h4, w.afterThresh, ok);
    HandlerHeard(m4, local.config, ConfigSet(m4.batch), ok, l4);
    OnlyThose(OnWake(m, w, ok).pids, l4, !w.clockOk);
  }

  /** Flags for requests do not matter here. */
  lemma {:induction false} OnlyThose(p: Pids, local: Flags, late: bool)
    requires Heard(p, local) && (local.timer ==> late) && !local.thresh
    ensures Heard(p, NO_FLAGS.(timer := late))
  {
    hide Has;
  }

  // -------------------------------------------------- the clock cannot be read

  /** Timers waiting, and whether that is flagged, as they were. */
  predicate SameWaiting(p: Pids, q: Pids) {
    q.pending == p.pending && q.flags.timer == p.flags.timer
  }

  lemma {:induction false} EntryWaiting(p: Pids, i: nat, e: Entry, ok: Oracle)
    requires WellFormed(p) && i < |p.clients|
    ensures SameWaiting(p, ApplyEntry(p, i, e, ok))
  {
    hide WellFormed, DisableAdjust, SamplingAdjust, Changes, Set;
    DisableAdjustSilent(p, i, e.disable == 1, ok);
    var p1 := ApplyDisable(p, i, e, ok).0;
    SamplingAdjustSilent(p1, i, e.sampling, ok);
    var p2 := ApplySampling(p1, i, e, ok).0;
    DisableAdjustSilent(p2, i, p.clients[i].disabled, ok);
  }

  lemma {:induction false} BatchWaiting(p: Pids, targets: seq<nat>, batch: seq<Entry>, ok: Oracle, n: nat)
    requires WellFormed(p) && n <= |batch| == |targets|
    requires forall k | 0 <= k < |targets| :: targets[k] < |p.clients|
    ensures SameWaiting(p, ApplyBatch(p, targets, batch, ok, n))
  {
    hide WellFormed, ApplyEntry;
    if n > 0 {
      BatchWaiting(p, targets, batch, ok, n - 1);
      EntryWaiting(ApplyBatch(p, targets, batch, ok, n - 1), targets[n - 1], batch[n - 1], ok);
    }
  }

  lemma {:induction false} OverrideWaiting(p: Pids, mode: bool, n: nat)
    requires WellFormed(p) && n <= |p.clients|
    ensures SameWaiting(p, OnOverride(p, mode, n))
  {
    hide WellFormed, Set;
    if n > 0 {
      OverrideWaiting(p, mode, n - 1);
    }
  }

  lemma {:induction false} HandlerWaiting(m: Monitor, flag: bool, e: Event, ok: Oracle)
    requires WellFormed(m.pids)
    requires e.Override? || (e.Timer? && !e.clockOk) || e.Thresh? || e.ConfigSet?
    ensures SameWaiting(m.pids, DoIf(m, flag, e, ok).pids)
  {
    hide WellFormed, Has, OnOverride, ThreshClients, ThreshGroups, ApplyBatch, ThreshedClient;
    var p := m.pids;
    match e {
      case Override(mode) => OverrideWaiting(p, mode, |p.clients|);
      case Timer(_, _, _) =>
      case Thresh(temps) =>
        ThreshClientsEffect(p, temps, |p.clients|);
        ThreshGroupsSilent(ThreshClients(p, temps, |p.clients|), ok, |p.groups|);
      case ConfigSet(batch) =>
        if AllValid(p, batch) {
          BatchWaiting(p, Targets(p, batch), batch, ok, |batch|);
        }
    }
  }

  /** Some timer that is running goes off in the course of these notifications. */
  predicate Fires(m: Monitor, notes: seq<Note>, ok: Oracle)
    requires WellFormed(m.pids)
  {
    notes != [] &&
    (Fires(m, notes[..|notes| - 1], ok) ||
     RunningTimer(NotedAll(m, notes[..|notes| - 1], ok).pids, notes[|notes| - 1]))
  }

  predicate RunningTimer(p: Pids, note: Note) {
    note.TimerExpired? && note.group < |p.groups| && p.groups[note.group].armed
  }

  /** ... or once the flags have been copied. */
  predicate FiresDuring(m: Monitor, w: Wake, ok: Oracle)
    requires WellFormed(m.pids)
  {
    var m0 := NotedAll(m, w.before, ok);
    var local, m1 := m0.pids.flags, Do(m0, Woken, ok);
    var h2 := DoIf(m1, local.overriding, Override(m1.mode), ok);
    var m2 := NotedAll(h2, w.afterOverride, ok);
    var h3 := DoIf(m2, local.timer, Timer(w.clockOk, w.timerTemps, w.elapsed), ok);
    var m3 := NotedAll(h3, w.afterTimer, ok);
    var h4 := DoIf(m3, local.thresh, Thresh(w.threshTemps), ok);
    Fires(h2, w.afterOverride, ok) || Fires(h3, w.afterTimer, ok) || Fires(h4, w.afterThresh, ok)
  }

  lemma {:induction false} ExpiryWaiting(p: Pids, g: nat)
    ensures var q, running := TimerExpires(p, g), g < |p.groups| && p.groups[g].armed;
            && (q.flags.timer <==> p.flags.timer || running)
            && (running || q.pending == p.pending)
  {
    hide Set;
  }

  lemma {:induction false} NoteWaiting(m: Monitor, note: Note, ok: Oracle)
    requires WellFormed(m.pids)
    ensures var n := Noted(m, note, ok);
            && (n.pids.flags.timer <==> m.pids.flags.timer || RunningTimer(m.pids, note))
            && (RunningTimer(m.pids, note) || n.pids.pending == m.pids.pending)
  {
    hide WellFormed, Set, TimerExpires;
    if note.TimerExpired? {
      ExpiryWaiting(m.pids, note.group);
    }
  }

  lemma {:induction false} NotesWaiting(m: Monitor, notes: seq<Note>, ok: Oracle)
    requires WellFormed(m.pids)
    ensures var n := NotedAll(m, notes, ok);
            && (n.pids.flags.timer <==> m.pids.flags.timer || Fires(m, notes, ok))
            && (Fires(m, notes, ok) || n.pids.pending == m.pids.pending)
  {
    hide WellFormed, Noted, RunningTimer;
    if notes != [] {
      NotesWaiting(m, notes[..|notes| - 1], ok);
      NoteWaiting(NotedAll(m, notes[..|notes| - 1], ok), notes[|notes| - 1], ok);
    }
  }

  lemma {:induction false} TurnWaiting(m: Monitor, w: Wake, ok: Oracle)
    requires WellFormed(m.pids) && !w.clockOk
    ensures var n := OnWake(m, w, ok);
            && (n.pids.flags.timer <==> FiresDuring(m, w, ok))
            && (FiresDuring(m, w, ok) || n.pids.pending == NotedAll(m, w.before, ok).pids.pending)
  {
    hide WellFormed, DoIf, NotedAll, Fires;
    var m0 := NotedAll(m, w.before, ok);
    var local, m1 := m0.pids.flags, Do(m0, Woken, ok);
    var timer := Timer(w.clockOk, w.timerTemps, w.elapsed);
    HandlerWaiting(m1, local.overriding, Override(m1.mode), ok);
    var h2 := DoIf(m1, local.overriding, Override(m1.mode), ok);
    NotesWaiting(h2, w.afterOverride, ok);
    var m2 := NotedAll(h2, w.afterOverride, ok);
    HandlerWaiting(m2, local.timer, timer, ok);
    var h3 := DoIf(m2, local.timer, timer, ok);
    NotesWaiting(h3, w.afterTimer, ok);
    var m3 := NotedAll(h3, w.afterTimer, ok);
    HandlerWaiting(m3, local.thresh, Thresh(w.threshTemps), ok);
    var h4 := DoIf(m3, local.thresh, Thresh(w.threshTemps), ok);
    NotesWaiting(h4, w.afterThresh, ok);
    var m4 := NotedAll(h4, w.afterThresh, ok);
    HandlerWaiting(m4, local.config, ConfigSet(m4.batch), ok);
  }

  /** A turn leaves every notification handled or flagged exactly if the clock can be read, or
      no timer was waiting when the flags were copied, or another goes off after that. Else
      the timers that expired wait with nothing to wake the thread for them: the handler has
      returned early, and their flag is gone. */
  lemma {:induction false} LostIff(m: Monitor, w: Wake, ok: Oracle)
    requires Inv(m.pids) && WellFormed(m.pids) && Heard(m.pids, NO_FLAGS)
    ensures Heard(OnWake(m, w, ok).pids, NO_FLAGS) <==>
            w.clockOk || FiresDuring(m, w, ok) ||
            forall g | 0 <= g < WIDTH :: !Has(NotedAll(m, w.before, ok).pids.pending, g)
  {
    hide WellFormed, Inv, OnWake, Has, FiresDuring, NotedAll;
    WakeHeard(m, w, ok);
    if !w.clockOk {
      TurnWaiting(m, w, ok);
    }
  }

  // ------------------------------------------------------------- every run

  lemma {:induction false} LaunchHeard(p: Pids, temps: Temps, ok: Oracle)
    requires Inv(p) && WellFormed(p) && p.pending == 0
    ensures var m := Launched(p, temps, ok);
            Inv(m.pids) && Heard(m.pids, NO_FLAGS)
  {
    hide WellFormed, Inv, Has, OnOverride, OnThresh, FirstBits;
    var local := NO_FLAGS.(thresh := true);
    var p1 := Step(p, Started, ok);
    forall g | 0 <= g < WIDTH ensures !Has(p.pending, g) {
      HasNothing(g);
    }
    assert Heard(p1, local);
    StepInv(p, Started, ok);
    StepInv(p1, Override(false), ok);
    OverrideHeard(p1, false, |p1.clients|, local);
    var p2 := Step(p1, Override(false), ok);
    StepInv(p2, Thresh(temps), ok);
    ThreshHeard(p2, temps, ok, local);
  }

  lemma {:induction false} MonitorHeard(es: seq<Init>, temps: Temps, wakes: seq<Wake>, ok: Oracle)
    requires (forall e | e in es :: GoodInit(e)) && forall w | w in wakes :: w.clockOk
    ensures var m := Monitored(Boot(es), temps, wakes, ok);
            Inv(m.pids) && Heard(m.pids, NO_FLAGS)
    decreases |wakes|
  {
    hide WellFormed, Inv, Heard, Launched, OnWake, Boot, GoodInit, Timers;
    BootInv(es);
    if wakes == [] {
      LaunchHeard(Boot(es), temps, ok);
    } else {
      var front, w := wakes[..|wakes| - 1], wakes[|wakes| - 1];
      MonitorHeard(es, temps, front, ok);
      assert w.clockOk;
      WakeHeard(Monitored(Boot(es), temps, front, ok), w, ok);
    }
  }

  /** A mitigating client's group runs on its period: its timer is armed, or has gone off and
      the thread is to be woken for it. */
  predicate Sampling(p: Pids, i: nat)
    requires WellFormed(p) && i < |p.clients|
  {
    var group := p.groups[p.clients[i].group];
    group.enabled && group.value == group.sampling && (group.armed || p.flags.timer)
  }

  lemma {:induction false} MitigatingSampled(p: Pids, i: nat)
    requires WellFormed(p) && Inv(p) && Timers(p) && Heard(p, NO_FLAGS) && i < |p.clients| && p.clients[i].mitigating
    ensures Sampling(p, i)
  {
    hide Has, ClientOk, WellFormed, Heard, Inv;
    InvAt(p, i);
    AtMost(p);
    var g := p.clients[i].group;
    assert Has(p.groups[g].mask, i);
    HasNothing(i);
    PendingHeard(p, g);
  }

  lemma {:induction false} PendingHeard(p: Pids, g: nat)
    requires Heard(p, NO_FLAGS) && g < WIDTH
    ensures Has(p.pending, g) ==> p.flags.timer
  {
    hide Has;
  }

  /** Every run of the thread, from any configuration, whatever comes in and whatever fails,
      is a run of the handlers and keeps their invariant; if no timer call fails, timers
      follow the masks. If the clock can always be read too, nothing that was reached or has
      expired is ever lost, and every mitigating client goes on being sampled. */
  lemma {:induction false} MonitorSafe(es: seq<Init>, temps: Temps, wakes: seq<Wake>, ok: Oracle)
    requires forall e | e in es :: GoodInit(e)
    ensures var m := Monitored(Boot(es), temps, wakes, ok);
            && m.pids == Run(Boot(es), m.trace, ok)
            && Inv(m.pids) && (AlwaysOk(ok) ==> Timers(m.pids))
            && ((forall w | w in wakes :: w.clockOk) ==>
                  Heard(m.pids, NO_FLAGS) &&
                  (AlwaysOk(ok) ==>
                     forall i | 0 <= i < |m.pids.clients| && m.pids.clients[i].mitigating :: Sampling(m.pids, i)))
  {
    hide WellFormed, Inv, Heard, Monitored, Boot, GoodInit, Timers, Run, Sampling;
    var m := Monitored(Boot(es), temps, wakes, ok);
    MonitorIsRun(Boot(es), temps, wakes, ok);
    AllRuns(es, m.trace, ok);
    if forall w | w in wakes :: w.clockOk {
      MonitorHeard(es, temps, wakes, ok);
      if AlwaysOk(ok) {
        forall i | 0 <= i < |m.pids.clients| && m.pids.clients[i].mitigating ensures Sampling(m.pids, i) {
          MitigatingSampled(m.pids, i);
        }
      }
    }
  }

  // ------------------------------------------------------------------ the start

  lemma {:induction false} OverrideOffEffect(p: Pids, n: nat)
    requires WellFormed(p) && n <= |p.clients|
    requires forall i | 0 <= i < |p.clients| :: AtSetting(p.clients[i])
    requires forall i | 0 <= i < |p.clients| :: Has(p.reached, i)
    ensures var q := OnOverride(p, false, n);
            && (forall i | 0 <= i < |p.clients| ::
                  q.clients[i] == p.clients[i].(prevAdjustment := q.clients[i].prevAdjustment,
                                                errs := q.clients[i].errs))
            && forall i | 0 <= i < |p.clients| :: Has(q.reached, i)
  {
    hide WellFormed, Has, Set;
    if n > 0 {
      OverrideOffEffect(p, n - 1);
      var q, k := OnOverride(p, false, n - 1), n - 1;
      AtMost(p);
      forall i | 0 <= i < |p.clients| ensures Has(Set(q.reached, k), i) {
        HasSet(q.reached, k, i);
      }
    }
  }

  /** The set points in force are those configured. */
  predicate AtSetting(c: Client) {
    c.setPoint == c.setting.setPoint && c.setPointClr == c.setting.setPointClr
  }

  lemma {:induction false} BootIdle(es: seq<Init>)
    requires forall e | e in es :: GoodInit(e)
    ensures forall i | 0 <= i < |Boot(es).clients| ::
              AtSetting(Boot(es).clients[i]) && !Boot(es).clients[i].mitigating
  {
    hide WellFormed, FindGroup;
    if es != [] {
      BootIdle(es[..|es| - 1]);
    }
  }

  /** Every threshold is set at the start: a client mitigates when the loop begins exactly if
      it is enabled and its sensor reads no less than its clear point. */
  lemma {:induction false} LaunchDecides(es: seq<Init>, temps: Temps, ok: Oracle, i: nat)
    requires (forall e | e in es :: GoodInit(e)) && i < |Boot(es).clients|
    ensures var (c, m) := (Boot(es).clients[i], Launched(Boot(es), temps, ok));
            && |m.pids.clients| == |Boot(es).clients| && m.pids.clients[i].group == c.group
            && (m.pids.clients[i].mitigating <==> !c.disabled && temps(i) >= c.setting.setPointClr)
  {
    hide WellFormed, Has, Boot, ThreshClients, ThreshGroups, OnOverride, FirstBits;
    var p := Boot(es);
    BootIdle(es);
    AtMost(p);
    var p1 := Step(p, Started, ok);
    forall k | 0 <= k < |p.clients| ensures Has(p1.reached, k) {
      HasFirst(|p.clients|, k);
    }
    OverrideOffEffect(p1, |p1.clients|);
    var p2 := Step(p1, Override(false), ok);
    ThreshClientsEffect(p2, temps, |p2.clients|);
    assert AtSetting(p.clients[i]);
  }

  // ------------------------------------------------------ a notification is lost

  lemma {:induction false} BootFlags(es: seq<Init>)
    requires forall e | e in es :: GoodInit(e)
    ensures Boot(es).flags == NO_FLAGS
  {
    hide WellFormed, FindGroup;
    if es != [] {
      BootFlags(es[..|es| - 1]);
    }
  }

  /** No timer has gone off yet when the loop begins. */
  lemma {:induction false} LaunchWaiting(p: Pids, temps: Temps, ok: Oracle)
    requires WellFormed(p)
    ensures SameWaiting(p, Launched(p, temps, ok).pids)
  {
    hide WellFormed, OnOverride, OnThresh, FirstBits;
    var m1 := Do(Monitor(p, false, [], []), Started, ok);
    HandlerWaiting(m1, true, Override(false), ok);
    var m2 := Do(m1, Override(false), ok);
    HandlerWaiting(m2, true, Thresh(temps), ok);
  }

  /** It happens, from any configuration with a client that is enabled and hot: when the loop
      has begun its timer goes off, and in the turn that follows the clock cannot be read. */
  lemma {:induction false} LostReachable(es: seq<Init>, temps: Temps, i: nat, w: Wake, ok: Oracle)
    requires (forall e | e in es :: GoodInit(e)) && AlwaysOk(ok) && i < |Boot(es).clients|
    requires !Boot(es).clients[i].disabled && temps(i) >= Boot(es).clients[i].setting.setPointClr
    requires w.before == [TimerExpired(Boot(es).clients[i].group)] && !w.clockOk
    requires w.afterOverride == w.afterTimer == w.afterThresh == []
    ensures !Heard(Monitored(Boot(es), temps, [w], ok).pids, NO_FLAGS)
  {
    hide WellFormed, Inv, Timers, Heard, Boot, GoodInit, OnWake, Launched, AlwaysOk, Run, Sampling, Linked;
    var m := Launched(Boot(es), temps, ok);
    LaunchDecides(es, temps, ok, i);
    MonitorSafe(es, temps, [], ok);
    LaunchWaiting(Boot(es), temps, ok);
    BootFlags(es);
    ArmedFirst(m.pids, i);
    MonitorHeard(es, temps, [], ok);
    assert [w][..0] == [];
    assert Monitored(Boot(es), temps, [w], ok) == OnWake(m, w, ok);
    LostIff(m, w, ok);
    FiredNote(m, m.pids.clients[i].group, ok);
    NothingFires(m, w, ok);
    AtMost(m.pids);
  }

  lemma {:induction false} ArmedFirst(p: Pids, i: nat)
    requires WellFormed(p) && i < |p.clients| && Sampling(p, i) && !p.flags.timer
    ensures p.clients[i].group < |p.groups| && p.groups[p.clients[i].group].armed
  {
  }

  lemma {:induction false} FiredNote(m: Monitor, g: nat, ok: Oracle)
    requires WellFormed(m.pids) && g < |m.pids.groups| && m.pids.groups[g].armed
    ensures g < WIDTH && Has(NotedAll(m, [TimerExpired(g)], ok).pids.pending, g)
  {
    hide Has, Set;
    assert [TimerExpired(g)][..0] == [];
    HasSet(m.pids.pending, g, g);
  }

  lemma {:induction false} NothingFires(m: Monitor, w: Wake, ok: Oracle)
    requires WellFormed(m.pids) && w.afterOverride == w.afterTimer == w.afterThresh == []
    ensures !FiresDuring(m, w, ok)
  {
    hide WellFormed, NotedAll, DoIf, Do;
  }
}
