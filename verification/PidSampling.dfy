/** When a mitigating client stops being sampled (thermal-engine/pid_algorithm.c): its group's
    timer is one-shot, and only the timer handler starts it again. One failed call there ends
    it, exactly that does, and no handler repairs it while anybody in the group mitigates. */
module PidSampling {
  import opened Bitmask
  import opened ErrorRing
  import opened Pid
  import opened PidBatch
  import opened PidInvariant
  import opened PidMonitor

  /** The group's timer has its own period and is armed, or has gone off and waits. */
  predicate Ticks(p: Pids, g: nat)
    requires g < |p.groups|
  {
    var group := p.groups[g];
    group.enabled && group.value == group.sampling && (group.armed || Has(p.pending, g))
  }

  /** The group counts as started, but no timer runs and none waits to be handled. */
  predicate Stopped(p: Pids, g: nat)
    requires g < |p.groups|
  {
    p.groups[g].enabled && !p.groups[g].armed && !Has(p.pending, g)
  }

  /** The group's timer is as it was, whoever is in the group. */
  ghost predicate SameTimer(p: Pids, q: Pids, g: nat) {
    && g < |p.groups| <= |q.groups|
    && q.groups[g] == p.groups[g].(mask := q.groups[g].mask)
    && (Has(q.pending, g) <==> Has(p.pending, g))
  }

  lemma {:induction false} SameTimerThen(p: Pids, q: Pids, r: Pids, g: nat)
    requires SameTimer(p, q, g) && SameTimer(q, r, g)
    ensures SameTimer(p, r, g)
  {
    hide Has;
  }

  lemma {:induction false} SameTimerTicks(p: Pids, q: Pids, g: nat)
    requires SameTimer(p, q, g)
    ensures Ticks(q, g) == Ticks(p, g) && Stopped(q, g) == Stopped(p, g)
  {
    hide Has;
  }

  // ---------------------------------------------------------------- thresholds

  lemma {:induction false} BelongsMask(p: Pids, g: nat, i: nat)
    requires Inv(p) && g < |p.groups| && Belongs(p, g, i)
    ensures i < WIDTH && g < WIDTH && Has(p.groups[g].mask, i) && p.groups[g].mask != 0
  {
    hide Has, ClientOk, WellFormed;
    InvAt(p, i);
    HasNothing(i);
  }

  lemma {:induction false} MaskTimer(p: Pids, h: nat, i: nat, g: nat)
    requires h < |p.groups| && g < |p.groups|
    ensures SameTimer(p, Join(p, h, i), g) && SameTimer(p, Leave(p, h, i), g)
  {
    hide Has, Set, Clear;
  }

  lemma {:induction false} OtherFields(p: Pids, q: Pids, g: nat)
    requires q.groups == p.groups && q.pending == p.pending && g < |p.groups|
    ensures SameTimer(p, q, g)
  {
    hide Has;
  }

  lemma {:induction false} ThreshClientTimer(p: Pids, i: nat, temp: int, g: nat)
    requires WellFormed(p) && i < |p.clients| && g < |p.groups|
    ensures SameTimer(p, ThreshClient(p, i, temp), g)
  {
    hide Has, Clear, ThreshedClient, Join, Leave, SameTimer, WellFormed;
    WellFormedAt(p, i);
    var c := p.clients[i];
    var p1 := p.(reached := Clear(p.reached, i));
    var p2 := WithClient(p1, i, ThreshedClient(c, temp));
    OtherFields(p, p, g);
    OtherFields(p, p1, g);
    OtherFields(p, p2, g);
    MaskTimer(p2, c.group, i, g);
    SameTimerThen(p, p2, Join(p2, c.group, i), g);
    SameTimerThen(p, p2, Leave(p2, c.group, i), g);
  }

  lemma {:induction false} ThreshClientsTimer(p: Pids, temps: Temps, n: nat, g: nat)
    requires WellFormed(p) && n <= |p.clients| && g < |p.groups|
    ensures SameTimer(p, ThreshClients(p, temps, n), g)
  {
    hide WellFormed, Has, ThreshClient;
    if n > 0 {
      ThreshClientsTimer(p, temps, n - 1, g);
      ThreshClientTimer(ThreshClients(p, temps, n - 1), n - 1, temps(n - 1), g);
    }
  }

  lemma {:induction false} ThreshGroupsTimer(p: Pids, ok: Oracle, n: nat, g: nat)
    requires WellFormed(p) && n <= |p.groups| && g < |p.groups| && p.groups[g].mask != 0 && p.groups[g].enabled
    ensures var q := ThreshGroups(p, ok, n);
            q.groups[g] == p.groups[g] && q.pending == p.pending
  {
    hide WellFormed, Enable, Disable;
    if n > 0 {
      ThreshGroupsTimer(p, ok, n - 1, g);
      EnableEffect(ThreshGroups(p, ok, n - 1), n - 1, ok);
      DisableEffect(ThreshGroups(p, ok, n - 1), n - 1, ok);
    }
  }

  lemma {:induction false} ThreshTimer(p: Pids, temps: Temps, ok: Oracle, i: nat, g: nat)
    requires Inv(p) && WellFormed(p) && g < |p.groups| && p.groups[g].enabled
    requires Belongs(OnThresh(p, temps, ok), g, i)
    ensures SameTimer(p, OnThresh(p, temps, ok), g)
  {
    hide WellFormed, Inv, Has, ThreshClients, ThreshGroups, Ticking;
    var mid := ThreshClients(p, temps, |p.clients|);
    ThreshClientsInv(p, temps, |p.clients|);
    ThreshClientsTimer(p, temps, |p.clients|, g);
    BelongsMask(mid, g, i);
    ThreshGroupsTimer(mid, ok, |p.groups|, g);
  }

  // ------------------------------------------------------------- configuration

  /** The client is in the group still, and the group's timer as it was. */
  ghost predicate Steady(p: Pids, q: Pids, i: nat, g: nat) {
    Belongs(q, g, i) && SameTimer(p, q, g)
  }

  lemma {:induction false} SteadyThen(p: Pids, q: Pids, r: Pids, i: nat, g: nat)
    requires Steady(p, q, i, g) && Steady(q, r, i, g)
    ensures Steady(p, r, i, g)
  {
    hide Has;
  }

  lemma {:induction false} StillSteady(p: Pids, i: nat, g: nat)
    requires g < |p.groups| && Belongs(p, g, i)
    ensures Steady(p, p, i, g)
  {
    hide Has;
  }

  /** Somebody else leaves a group: its timer stops only if it was the last. */
  lemma {:induction false} LeaveSteady(p: Pids, h: nat, t: nat, ok: Oracle, i: nat, g: nat)
    requires h < |p.groups| && g < |p.groups| && i != t && i < WIDTH && t < WIDTH && g < WIDTH
    requires Has(p.groups[g].mask, i)
    ensures var q := LeaveAndStop(p, h, t, ok);
            SameTimer(p, q, g) && q.clients == p.clients && Has(q.groups[g].mask, i)
  {
    hide Has, Disable, Leave, Clear;
    LeaveEffect(p, h, t);
    LeaveAndStopEffect(p, h, t, ok);
    DisableEffect(Leave(p, h, t), h, ok);
    HasNothing(i);
  }

  /** Enabling or disabling an instance. Disabling the client itself ends its mitigation. */
  lemma {:induction false} DisableSteady(p: Pids, t: nat, disable: bool, ok: Oracle, i: nat, g: nat)
    requires Inv(p) && WellFormed(p) && t < |p.clients| && g < |p.groups| && Belongs(p, g, i)
    ensures var q := DisableAdjust(p, t, disable, ok).0;
            if t == i && disable then i < |q.clients| && !q.clients[i].mitigating else Steady(p, q, i, g)
  {
    hide Has, LeaveAndStop, Inv;
    InvAt(p, t);
    BelongsMask(p, g, i);
    var c := p.clients[t];
    if disable {
      var c1 := c.(devOpLvl := c.maxOpLvl, mitigating := false, prevAdjustment := 0, disabled := true);
      var p1 := WithClient(p, t, c1);
      if t != i {
        LeaveSteady(p1, c.group, t, ok, i, g);
      }
    }
  }

  /** Moving an instance. The client itself is elsewhere afterwards, or the move failed. */
  lemma {:induction false} MoveSteady(p: Pids, t: nat, s: nat, ok: Oracle, i: nat, g: nat)
    requires Inv(p) && WellFormed(p) && t < |p.clients| && s < |p.groups| && s != p.clients[t].group
    requires g < |p.groups| && Belongs(p, g, i) && p.groups[g].enabled
    ensures var (q, r) := Move(p, t, s, ok);
            if t == i && r then i < |q.clients| && q.clients[i].group != g else Steady(p, q, i, g)
  {
    hide Has, LeaveAndStop, Join, Leave, Enable, Inv, WellFormed;
    InvAt(p, t);
    InvAt(p, i);
    BelongsMask(p, g, i);
    var c := p.clients[t];
    if !(c.disabled || !Has(p.groups[c.group].mask, t)) {
      var p1 := Join(p, s, t);
      JoinEffect(p, s, t);
      EnableEffect(p1, s, ok);
      var p2 := if p1.groups[s].mask != 0 && !p1.groups[s].enabled then Enable(p1, s, ok).0 else p1;
      LeaveEffect(p2, s, t);
      if t != i {
        LeaveSteady(p2, c.group, t, ok, i, g);
      }
    }
  }

  lemma {:induction false} SamplingSteady(p: Pids, t: nat, sampling: int, ok: Oracle, i: nat, g: nat)
    requires Inv(p) && WellFormed(p) && t < |p.clients|
    requires sampling != p.groups[p.clients[t].group].sampling
    requires g < |p.groups| && Belongs(p, g, i) && p.groups[g].enabled
    ensures var (q, r) := SamplingAdjust(p, t, sampling, ok);
            if t == i && r then i < |q.clients| && q.clients[i].group != g else Steady(p, q, i, g)
  {
    hide Move, Inv, WellFormed, FirstIndex, Has, Steady;
    InvAt(p, t);
    StillSteady(p, i, g);
    var s := FindGroup(p.groups, sampling);
    if sampling < SAMPLING_MS_MINIMUM {
    } else if s < |p.groups| {
      MoveSteady(p, t, s, ok, i, g);
    } else if |p.groups| < MAX_PID_INSTANCES_SUPPORTED {
      var p1 := WithNewGroup(p, sampling, ok(p.calls));
      NewGroupInv(p, sampling, ok(p.calls));
      NewGroupSteady(p, sampling, ok(p.calls), i, g);
      MoveSteady(p1, t, s, ok, i, g);
      if !(t == i && Move(p1, t, s, ok).1) {
        SteadyThen(p, p1, Move(p1, t, s, ok).0, i, g);
      }
    }
  }

  lemma {:induction false} NewGroupSteady(p: Pids, sampling: int, created: bool, i: nat, g: nat)
    requires g < |p.groups| && Belongs(p, g, i)
    ensures var q := WithNewGroup(p, sampling, created);
            Steady(p, q, i, g) && q.groups[g] == p.groups[g]
  {
    hide Has;
  }

  // ----------------------------------------------------------- entries and batches

  /** A configuration entry never starts a client's mitigation. */
  lemma {:induction false} DisableIdle(p: Pids, t: nat, disable: bool, ok: Oracle)
    requires WellFormed(p) && t < |p.clients|
    ensures var q := DisableAdjust(p, t, disable, ok).0;
            !p.clients[t].mitigating ==> !q.clients[t].mitigating
  {
    hide LeaveAndStop;
    WellFormedAt(p, t);
  }

  lemma {:induction false} SamplingIdle(p: Pids, t: nat, sampling: int, ok: Oracle)
    requires WellFormed(p) && t < |p.clients|
    ensures SamplingAdjust(p, t, sampling, ok).0.clients[t].mitigating == p.clients[t].mitigating
  {
    hide Move, FirstIndex;
    var s := FindGroup(p.groups, sampling);
    if sampling >= SAMPLING_MS_MINIMUM && s < |p.groups| {
      MoveQuad(p, t, s, ok);
    } else if sampling >= SAMPLING_MS_MINIMUM && |p.groups| < MAX_PID_INSTANCES_SUPPORTED {
      NewGroupWellFormed(p, sampling, ok(p.calls));
      MoveQuad(WithNewGroup(p, sampling, ok(p.calls)), t, s, ok);
    }
  }

  lemma {:induction false} PointsSteady(p: Pids, t: nat, e: Entry, i: nat)
    requires WellFormed(p) && t < |p.clients| && i < |p.clients|
    ensures var q := ApplySetPoints(p, t, e);
            && q.clients[i].mitigating == p.clients[i].mitigating && q.clients[i].group == p.clients[i].group
            && q.groups == p.groups && q.pending == p.pending
  {
    hide Names;
  }

  lemma {:induction false} RenotifySteady(p: Pids, t: nat, i: nat)
    requires t < |p.clients| && i < |p.clients|
    ensures var q := Renotify(p, t);
            && q.clients[i].mitigating == p.clients[i].mitigating && q.clients[i].group == p.clients[i].group
            && q.groups == p.groups && q.pending == p.pending
  {
    hide Set;
  }

  lemma {:induction false} SteadyRest(p: Pids, q: Pids, i: nat, g: nat)
    requires g < |p.groups| && Belongs(p, g, i) && i < |q.clients| && q.groups == p.groups && q.pending == p.pending
    requires q.clients[i].mitigating == p.clients[i].mitigating && q.clients[i].group == p.clients[i].group
    ensures Steady(p, q, i, g)
  {
    hide Has;
  }

  lemma {:induction false} SteadyEnabled(p: Pids, q: Pids, i: nat, g: nat)
    requires Steady(p, q, i, g)
    ensures g < |p.groups| && g < |q.groups| && Belongs(q, g, i) && q.groups[g].enabled == p.groups[g].enabled
  {
    hide Has;
  }

  /** An entry that disables a client ends its mitigation, whether or not it is undone. */
  lemma {:induction false} EntryEnds(p: Pids, t: nat, e: Entry, ok: Oracle)
    requires WellFormed(p) && t < |p.clients| && Changes(p, t, e, DISABLE_FIELD) && e.disable == 1
    ensures !ApplyEntry(p, t, e, ok).clients[t].mitigating
  {
    hide WellFormed, DisableAdjust, SamplingAdjust, ApplySetPoints, Renotify, Changes;
    DisableStops(p, t, ok);
    var p1 := ApplyDisable(p, t, e, ok).0;
    SamplingIdle(p1, t, e.sampling, ok);
    var p2 := ApplySampling(p1, t, e, ok).0;
    PointsSteady(p2, t, e, t);
    RenotifySteady(ApplySetPoints(p2, t, e), t, t);
    DisableIdle(p2, t, p.clients[t].disabled, ok);
    RenotifySteady(DisableAdjust(p2, t, p.clients[t].disabled, ok).0, t, t);
  }

  lemma {:induction false} DisableStops(p: Pids, t: nat, ok: Oracle)
    requires WellFormed(p) && t < |p.clients|
    ensures !DisableAdjust(p, t, true, ok).0.clients[t].mitigating
  {
    hide LeaveAndStop;
    WellFormedAt(p, t);
  }

  /** An entry after which the client is where it was has left its timer alone. */
  lemma {:induction false} EntrySteady(p: Pids, t: nat, e: Entry, ok: Oracle, i: nat, g: nat)
    requires Inv(p) && WellFormed(p) && t < |p.clients| && g < |p.groups| && p.groups[g].enabled
    requires Belongs(p, g, i) && Belongs(ApplyEntry(p, t, e, ok), g, i)
    ensures SameTimer(p, ApplyEntry(p, t, e, ok), g)
  {
    hide Inv, WellFormed, DisableAdjust, SamplingAdjust, ApplySetPoints, Renotify, Names, SameTimer, Steady, Timers;
    StillSteady(p, i, g);
    DisableSteady(p, t, e.disable == 1, ok, i, g);
    DisableAdjustInv(p, t, e.disable == 1, ok);
    var (p1, ok1, disableDone) := ApplyDisable(p, t, e, ok);
    if Changes(p, t, e, DISABLE_FIELD) && e.disable == 1 && t == i {
      EntryEnds(p, t, e, ok);
    } else {
      SteadyEnabled(p, p1, i, g);
      if ok1 {
        AfterDisable(p, p1, t, e, ok, disableDone, i, g);
      }
      SteadySame(p, p1, i, g);
    }
  }

  lemma {:induction false} SteadySame(p: Pids, q: Pids, i: nat, g: nat)
    requires Steady(p, q, i, g)
    ensures SameTimer(p, q, g)
  {
  }

  /** What ApplyEntry does once its first step is done. */
  function Continued(p1: Pids, t: nat, e: Entry, ok: Oracle, was: bool, disableDone: bool): Pids
    requires WellFormed(p1) && t < |p1.clients|
  {
    hide ApplySampling, ApplySetPoints, DisableAdjust, Renotify, WellFormed, Changes;
    var (p2, ok2, samplingDone) := ApplySampling(p1, t, e, ok);
    if !ok2 then
      if disableDone then Renotify(DisableAdjust(p2, t, was, ok).0, t) else p2
    else
      var p3 := ApplySetPoints(p2, t, e);
      if disableDone || samplingDone || Changes(p2, t, e, SET_POINT_FIELD) || Changes(p2, t, e, SET_POINT_CLR_FIELD)
      then Renotify(p3, t) else p3
  }

  lemma {:induction false} AfterDisable(p: Pids, p1: Pids, t: nat, e: Entry, ok: Oracle, disableDone: bool, i: nat, g: nat)
    requires Inv(p1) && WellFormed(p1) && t < |p.clients| == |p1.clients| && g < |p1.groups| && p1.groups[g].enabled
    requires Steady(p, p1, i, g) && Belongs(Continued(p1, t, e, ok, p.clients[t].disabled, disableDone), g, i)
    ensures SameTimer(p, Continued(p1, t, e, ok, p.clients[t].disabled, disableDone), g)
  {
    hide Inv, WellFormed, DisableAdjust, SamplingAdjust, ApplySetPoints, Renotify, Names, SameTimer, Steady, Timers;
    var was := p.clients[t].disabled;
    var q := Continued(p1, t, e, ok, was, disableDone);
    SteadyEnabled(p, p1, i, g);
    StillSteady(p1, i, g);
    InvAt(p1, t);
    if Changes(p1, t, e, SAMPLING_FIELD) {
      SamplingSteady(p1, t, e.sampling, ok, i, g);
      SamplingAdjustInv(p1, t, e.sampling, ok);
    }
    var (p2, ok2, samplingDone) := ApplySampling(p1, t, e, ok);
    if ok2 {
      var p3 := ApplySetPoints(p2, t, e);
      PointsSteady(p2, t, e, i);
      RenotifySteady(p3, t, i);
      if Steady(p1, p2, i, g) {
        SteadyEnabled(p1, p2, i, g);
        SteadyRest(p2, q, i, g);
        SteadyThen(p, p1, p2, i, g);
        SteadyThen(p, p2, q, i, g);
        SteadySame(p, q, i, g);
      }
    } else {
      SteadyThen(p, p1, p2, i, g);
      SteadySame(p, p2, i, g);
      if disableDone {
        SteadyEnabled(p1, p2, i, g);
        var p3 := DisableAdjust(p2, t, was, ok).0;
        DisableSteady(p2, t, was, ok, i, g);
        RenotifySteady(p3, t, i);
        if Steady(p2, p3, i, g) {
          SteadyEnabled(p2, p3, i, g);
          SteadyRest(p3, q, i, g);
          SteadyThen(p, p2, p3, i, g);
          SteadyThen(p, p3, q, i, g);
          SteadySame(p, q, i, g);
        }
      }
    }
  }

  /** The clients an entry is not for are as they were. */
  lemma {:induction false} EntryLocal(p: Pids, t: nat, e: Entry, ok: Oracle)
    requires WellFormed(p) && t < |p.clients|
    ensures Local(p, ApplyEntry(p, t, e, ok), t)
  {
    hide WellFormed, DisableAdjust, SamplingAdjust, ApplySetPoints, Renotify, Changes, Local;
    LocalHere(p, t);
    DisableAdjustQuad(p, t, e.disable == 1, ok);
    var p1 := ApplyDisable(p, t, e, ok).0;
    SamplingLocal(p1, t, e.sampling, ok);
    LocalHere(p1, t);
    var p2 := ApplySampling(p1, t, e, ok).0;
    LocalThen(p, p1, p2, t);
    var p3, p4 := ApplySetPoints(p2, t, e), DisableAdjust(p2, t, p.clients[t].disabled, ok).0;
    SetPointsQuad(p2, t, e);
    LocalThen(p, p2, p3, t);
    RenotifyQuad(p3, t);
    LocalThen(p, p3, Renotify(p3, t), t);
    DisableAdjustQuad(p2, t, p.clients[t].disabled, ok);
    LocalThen(p, p2, p4, t);
    RenotifyQuad(p4, t);
    LocalThen(p, p4, Renotify(p4, t), t);
  }

  lemma {:induction false} SamplingLocal(p: Pids, t: nat, sampling: int, ok: Oracle)
    requires WellFormed(p) && t < |p.clients|
    ensures Local(p, SamplingAdjust(p, t, sampling, ok).0, t)
  {
    if sampling >= SAMPLING_MS_MINIMUM {
      hide SamplingAdjust, Local;
      SamplingAdjustQuad(p, t, sampling, ok);
    } else {
      hide Local;
      LocalHere(p, t);
    }
  }

  lemma {:induction false} BatchOthers(p: Pids, targets: seq<nat>, batch: seq<Entry>, ok: Oracle, n: nat, i: nat)
    requires WellFormed(p) && n <= |batch| == |targets| && i < |p.clients|
    requires forall k | 0 <= k < |targets| :: targets[k] < |p.clients|
    requires forall k | 0 <= k < n :: targets[k] != i
    ensures ApplyBatch(p, targets, batch, ok, n).clients[i] == p.clients[i]
  {
    hide WellFormed, ApplyEntry;
    if n > 0 {
      BatchOthers(p, targets, batch, ok, n - 1, i);
      EntryLocal(ApplyBatch(p, targets, batch, ok, n - 1), targets[n - 1], batch[n - 1], ok);
    }
  }

  lemma {:induction false} BatchSteady(p: Pids, targets: seq<nat>, batch: seq<Entry>, ok: Oracle, n: nat, i: nat, g: nat)
    requires Inv(p) && WellFormed(p) && n <= |batch| == |targets|
    requires forall k | 0 <= k < |targets| :: targets[k] < |p.clients|
    requires forall j, k | 0 <= j < k < |targets| :: targets[j] != targets[k]
    requires g < |p.groups| && p.groups[g].enabled
    requires Belongs(p, g, i) && Belongs(ApplyBatch(p, targets, batch, ok, n), g, i)
    ensures SameTimer(p, ApplyBatch(p, targets, batch, ok, n), g)
  {
    hide WellFormed, Inv, ApplyEntry, SameTimer, Timers;
    StillSteady(p, i, g);
    SteadySame(p, p, i, g);
    if n > 0 {
      var q, t, e := ApplyBatch(p, targets, batch, ok, n - 1), targets[n - 1], batch[n - 1];
      ApplyBatchInv(p, targets, batch, ok, n - 1);
      if t == i {
        BatchOthers(p, targets, batch, ok, n - 1, i);
      } else {
        EntryLocal(q, t, e, ok);
      }
      BatchSteady(p, targets, batch, ok, n - 1, i, g);
      SameTimerEnabled(p, q, g);
      EntrySteady(q, t, e, ok, i, g);
      SameTimerThen(p, q, ApplyBatch(p, targets, batch, ok, n), g);
    }
  }

  lemma {:induction false} SameTimerEnabled(p: Pids, q: Pids, g: nat)
    requires SameTimer(p, q, g)
    ensures g < |q.groups| && g < |p.groups| && q.groups[g].enabled == p.groups[g].enabled
  {
    hide Has;
  }

  // -------------------------------------------------------------------- timers

  /** How many of the first `n` groups have expired: each costs one call to start again. */
  function Expirations(mask: bv32, n: nat): nat {
    if n == 0 then 0 else Expirations(mask, n - 1) + if Has(mask, n - 1) then 1 else 0
  }

  lemma {:induction false} RestartAt(p: Pids, expired: bv32, ok: Oracle, n: nat, g: nat)
    requires WellFormed(p) && n <= |p.groups| && g < |p.groups|
    ensures var q := Restart(p, expired, ok, n);
            && q.calls == p.calls + Expirations(expired, n) && q.pending == p.pending
            && q.groups[g] == if g < n && Has(expired, g) && ok(p.calls + Expirations(expired, g))
                              then p.groups[g].(armed := p.groups[g].value != 0) else p.groups[g]
  {
    hide WellFormed, Has;
    if n > 0 {
      RestartAt(p, expired, ok, n - 1, g);
    }
  }

  lemma {:induction false} TimerGroupsCalls(p: Pids, expired: bv32, temps: nat -> Temps, elapsed: nat -> int, n: nat)
    requires WellFormed(p) && n <= |p.groups|
    ensures TimerGroups(p, expired, temps, elapsed, n).calls == p.calls
  {
    hide WellFormed, Has, TimerClients, SampleCount, Clear;
    if n > 0 {
      TimerGroupsCalls(p, expired, temps, elapsed, n - 1);
      var q := TimerGroups(p, expired, temps, elapsed, n - 1);
      PositivePeriod(q, n - 1);
      TimerClientsCalls(q, n - 1, temps(n - 1), SampleCount(elapsed(n - 1), q.groups[n - 1].sampling), |q.clients|);
    }
  }

  lemma {:induction false} TimerClientsCalls(p: Pids, g: nat, temps: Temps, sampleCnt: int, n: nat)
    requires WellFormed(p) && g < |p.groups| && n <= |p.clients|
    ensures TimerClients(p, g, temps, sampleCnt, n).calls == p.calls
  {
    hide WellFormed, Has, Sampled;
    if n > 0 {
      TimerClientsCalls(p, g, temps, sampleCnt, n - 1);
      PositivePeriod(TimerClients(p, g, temps, sampleCnt, n - 1), g);
      WellFormedAt(TimerClients(p, g, temps, sampleCnt, n - 1), n - 1);
    }
  }

  lemma {:induction false} TimerAt(p: Pids, clockOk: bool, temps: nat -> Temps, elapsed: nat -> int, ok: Oracle, g: nat)
    requires Inv(p) && WellFormed(p) && g < |p.groups|
    ensures var q := OnTimer(p, clockOk, temps, elapsed, ok);
            && |q.groups| == |p.groups|
            && (!clockOk ==> q == p)
            && (clockOk ==>
                  !Has(q.pending, g) &&
                  q.groups[g] == if Has(p.pending, g) && ok(p.calls + Expirations(p.pending, g))
                                 then p.groups[g].(armed := p.groups[g].value != 0) else p.groups[g])
  {
    hide WellFormed, Inv, Has, TimerGroups, Restart;
    if clockOk {
      AtMost(p);
      TimerEffect(p, clockOk, temps, elapsed, ok);
      TimerGroupsCalls(p, p.pending, temps, elapsed, |p.groups|);
      RestartAt(TimerGroups(p, p.pending, temps, elapsed, |p.groups|), p.pending, ok, |p.groups|, g);
    }
  }

  lemma {:induction false} ExpiresAt(p: Pids, h: nat, g: nat)
    requires WellFormed(p) && g < |p.groups|
    ensures var q := TimerExpires(p, h);
            && |q.groups| == |p.groups|
            && (if h == g && p.groups[g].armed then q.groups[g] == p.groups[g].(armed := false) && Has(q.pending, g)
                else q.groups[g] == p.groups[g] && (Has(q.pending, g) <==> Has(p.pending, g)))
  {
    hide Has, Set;
    if h < |p.groups| {
      HasSet(p.pending, h, g);
    }
  }

  // ------------------------------------------------------------------ one event

  /** The timer handler samples the group, and the call that is to start its timer again fails. */
  predicate RestartFails(p: Pids, e: Event, ok: Oracle, g: nat)
    requires g < |p.groups|
  {
    e.Timer? && e.clockOk && Has(p.pending, g) && !p.groups[g].armed && !ok(p.calls + Expirations(p.pending, g))
  }

  predicate NamesOnce(e: Event) {
    e.ConfigSet? ==> NamedOnce(e.batch)
  }

  /** All but the two events about timers leave the timer of a mitigating client alone. */
  lemma {:induction false} StepTimer(p: Pids, e: Event, ok: Oracle, i: nat, g: nat)
    requires Inv(p) && WellFormed(p) && g < |p.groups| && p.groups[g].enabled && NamesOnce(e)
    requires Belongs(p, g, i) && Belongs(Step(p, e, ok), g, i) && !e.Timer? && !e.Expired?
    ensures SameTimer(p, Step(p, e, ok), g)
  {
    hide Inv, WellFormed, OnOverride, OnThresh, ApplyBatch, SameTimer, AllValid, Targets, Set, FirstBits, NamedOnce;
    if e.Override? {
      OverrideTimer(p, e.mode, |p.clients|, g);
    } else if e.Thresh? {
      ThreshTimer(p, e.at, ok, i, g);
    } else if e.ConfigSet? && AllValid(p, e.batch) {
      DistinctTargets(p, e.batch);
      BatchSteady(p, Targets(p, e.batch), e.batch, ok, |e.batch|, i, g);
    } else {
      OtherFields(p, Step(p, e, ok), g);
    }
  }

  lemma {:induction false} OverrideTimer(p: Pids, mode: bool, n: nat, g: nat)
    requires WellFormed(p) && n <= |p.clients| && g < |p.groups|
    ensures SameTimer(p, OnOverride(p, mode, n), g)
  {
    hide WellFormed, Set, Has;
    if n > 0 {
      OverrideTimer(p, mode, n - 1, g);
    }
  }

  /** While a client goes on mitigating in its group, whatever happens to anybody else, what
      can end its sampling is one thing: the failing call of the timer handler. And then the
      group is left with no timer that runs or waits. */
  lemma {:induction false} SamplingStopsIff(p: Pids, e: Event, ok: Oracle, i: nat, g: nat)
    requires Inv(p) && WellFormed(p) && g < |p.groups| && Ticks(p, g) && NamesOnce(e)
    requires Belongs(p, g, i) && Belongs(Step(p, e, ok), g, i)
    ensures var q := Step(p, e, ok);
            && g < |q.groups|
            && (Ticks(q, g) <==> !RestartFails(p, e, ok, g))
            && (Ticks(q, g) || Stopped(q, g))
  {
    hide Inv, WellFormed, Has, OnTimer, TimerExpires, OnOverride, OnThresh, OnConfig, Expirations, SameTimer, Set, FirstBits;
    assert p.groups[g].sampling > 0 by { PositivePeriod(p, g); }
    match e {
      case Timer(clockOk, temps, elapsed) => TimerAt(p, clockOk, temps, elapsed, ok, g);
      case Expired(h) => ExpiresAt(p, h, g);
      case _ =>
        StepTimer(p, e, ok, i, g);
        SameTimerEnabled(p, Step(p, e, ok), g);
        SameTimerTicks(p, Step(p, e, ok), g);
    }
  }

  /** And no event starts that timer again, though every timer call succeed from then on. */
  lemma {:induction false} StoppedStays(p: Pids, e: Event, ok: Oracle, i: nat, g: nat)
    requires Inv(p) && WellFormed(p) && g < |p.groups| && Stopped(p, g) && NamesOnce(e)
    requires Belongs(p, g, i) && Belongs(Step(p, e, ok), g, i)
    ensures g < |Step(p, e, ok).groups| && Stopped(Step(p, e, ok), g)
  {
    hide Inv, WellFormed, Has, OnTimer, TimerExpires, OnOverride, OnThresh, OnConfig, Expirations, SameTimer, Set, FirstBits;
    match e {
      case Timer(clockOk, temps, elapsed) => TimerAt(p, clockOk, temps, elapsed, ok, g);
      case Expired(h) => ExpiresAt(p, h, g);
      case _ =>
        StepTimer(p, e, ok, i, g);
        SameTimerEnabled(p, Step(p, e, ok), g);
        SameTimerTicks(p, Step(p, e, ok), g);
    }
  }

  // ---------------------------------------------------------------------- runs

  lemma {:induction false} RunFront(p: Pids, events: seq<Event>, ok: Oracle, k: nat)
    requires WellFormed(p) && k < |events|
    ensures Run(p, events[..k + 1], ok) == Step(Run(p, events[..k], ok), events[k], ok)
  {
    hide WellFormed, Step;
    assert events[..k + 1][..k] == events[..k];
  }

  lemma {:induction false} RunInv(p: Pids, events: seq<Event>, ok: Oracle)
    requires Inv(p) && WellFormed(p)
    ensures Inv(Run(p, events, ok))
    decreases |events|
  {
    hide Inv, WellFormed, Step, Timers;
    if events != [] {
      RunInv(p, events[..|events| - 1], ok);
      StepInv(Run(p, events[..|events| - 1], ok), events[|events| - 1], ok);
    }
  }

  /** The client mitigates in its group throughout. */
  ghost predicate Throughout(p: Pids, events: seq<Event>, ok: Oracle, i: nat, g: nat)
    requires WellFormed(p)
  {
    forall k | 0 <= k <= |events| :: Belongs(Run(p, events[..k], ok), g, i)
  }

  lemma {:induction false} ThroughoutFront(p: Pids, events: seq<Event>, ok: Oracle, i: nat, g: nat)
    requires WellFormed(p) && Throughout(p, events, ok, i, g) && events != []
    ensures Throughout(p, events[..|events| - 1], ok, i, g)
    ensures Belongs(Run(p, events[..|events| - 1], ok), g, i) && Belongs(Run(p, events, ok), g, i)
  {
    hide Run, Belongs, WellFormed;
    var front := events[..|events| - 1];
    forall k | 0 <= k <= |front| ensures Belongs(Run(p, front[..k], ok), g, i) {
      assert front[..k] == events[..k];
    }
    assert events[..|events|] == events && front[..|front|] == front;
  }

  /** Some restart of the group's timer has failed on the way. */
  ghost predicate SomeRestartFails(p: Pids, events: seq<Event>, ok: Oracle, g: nat)
    requires WellFormed(p)
  {
    exists k | 0 <= k < |events| :: FailsAt(p, events, ok, g, k)
  }

  predicate FailsAt(p: Pids, events: seq<Event>, ok: Oracle, g: nat, k: nat)
    requires WellFormed(p) && k < |events|
  {
    var q := Run(p, events[..k], ok);
    g < |q.groups| && RestartFails(q, events[k], ok, g)
  }

  lemma {:induction false} FailsFront(p: Pids, events: seq<Event>, ok: Oracle, g: nat)
    requires WellFormed(p) && events != []
    ensures var n := |events| - 1;
            SomeRestartFails(p, events, ok, g) <==>
            SomeRestartFails(p, events[..n], ok, g) || FailsAt(p, events, ok, g, n)
  {
    hide Run, RestartFails, WellFormed;
    var n := |events| - 1;
    var front := events[..n];
    forall k | 0 <= k < n ensures FailsAt(p, front, ok, g, k) == FailsAt(p, events, ok, g, k) {
      assert front[..k] == events[..k];
    }
  }

  /** Over any run throughout which a client mitigates in its group: if its group ticks at the
      beginning, then at the end it ticks or has stopped, and it has stopped if and only if a
      restart of its timer failed on the way. So one failure ends the sampling for good. */
  lemma {:induction false} SampledThroughoutIff(p: Pids, events: seq<Event>, ok: Oracle, i: nat, g: nat)
    requires Inv(p) && WellFormed(p) && g < |p.groups| && Ticks(p, g)
    requires Throughout(p, events, ok, i, g) && forall e | e in events :: NamesOnce(e)
    ensures var q := Run(p, events, ok);
            && g < |q.groups|
            && (Ticks(q, g) <==> !SomeRestartFails(p, events, ok, g))
            && (Ticks(q, g) || Stopped(q, g))
    decreases |events|
  {
    hide Inv, WellFormed, Step, Ticks, Stopped, RestartFails, Throughout, Belongs, SomeRestartFails, NamesOnce;
    if events == [] {
      NoneFails(p, ok, g);
    } else {
      var front, e := events[..|events| - 1], events[|events| - 1];
      var q := Run(p, front, ok);
      ThroughoutFront(p, events, ok, i, g);
      SampledThroughoutIff(p, front, ok, i, g);
      RunInv(p, front, ok);
      FailsFront(p, events, ok, g);
      assert NamesOnce(e);
      if Ticks(q, g) {
        SamplingStopsIff(q, e, ok, i, g);
      } else {
        StoppedStays(q, e, ok, i, g);
      }
      NotBoth(Run(p, events, ok), g);
    }
  }

  lemma {:induction false} NoneFails(p: Pids, ok: Oracle, g: nat)
    requires WellFormed(p)
    ensures !SomeRestartFails(p, [], ok, g)
  {
  }

  lemma {:induction false} NotBoth(p: Pids, g: nat)
    requires g < |p.groups|
    ensures !(Ticks(p, g) && Stopped(p, g))
  {
    hide Has;
  }

  // ------------------------------------------------------------------ it happens

  lemma {:induction false} CallsMade(p: Pids, g: nat, ok: Oracle)
    requires g < |p.groups|
    ensures Enable(p, g, ok).0.calls == p.calls + 1 && Disable(p, g, ok).calls == p.calls + 1
  {
  }

  lemma {:induction false} CallAgrees(p: Pids, g: nat, ok: Oracle, yes: Oracle)
    requires g < |p.groups| && ok(p.calls) == yes(p.calls)
    ensures Enable(p, g, ok) == Enable(p, g, yes) && Disable(p, g, ok) == Disable(p, g, yes)
  {
  }

  lemma {:induction false} GroupCalls(p: Pids, g: nat, yes: Oracle)
    requires g < |p.groups|
    ensures p.calls <= ThreshGroup(p, g, yes).calls
  {
    hide Enable, Disable;
    CallsMade(p, g, yes);
  }

  lemma {:induction false} GroupAgrees(p: Pids, g: nat, ok: Oracle, yes: Oracle)
    requires g < |p.groups| && forall n: nat | n < ThreshGroup(p, g, yes).calls :: ok(n) == yes(n)
    ensures ThreshGroup(p, g, ok) == ThreshGroup(p, g, yes)
  {
    hide Enable, Disable;
    CallsMade(p, g, yes);
    if p.calls < ThreshGroup(p, g, yes).calls {
      CallAgrees(p, g, ok, yes);
    }
  }

  /** The threshold handler asks nothing of calls that it does not make. */
  lemma {:induction false} ThreshAgrees(p: Pids, n: nat, ok: Oracle, yes: Oracle)
    requires WellFormed(p) && n <= |p.groups|
    requires forall k: nat | k < ThreshGroups(p, yes, n).calls :: ok(k) == yes(k)
    ensures ThreshGroups(p, ok, n) == ThreshGroups(p, yes, n)
  {
    hide WellFormed, ThreshGroup;
    if n > 0 {
      var q := ThreshGroups(p, yes, n - 1);
      GroupCalls(q, n - 1, yes);
      ThreshAgrees(p, n - 1, ok, yes);
      GroupAgrees(q, n - 1, ok, yes);
    }
  }

  function Always(): Oracle {
    (_: nat) => true
  }

  /** Every call succeeds but those from `n` on. */
  function UpToCall(n: nat): Oracle {
    (k: nat) => k < n
  }

  /** An oracle that fails only after the calls of the start is no different there. */
  lemma {:induction false} LaunchAgrees(p: Pids, temps: Temps, n: nat)
    requires WellFormed(p) && n == Launched(p, temps, Always()).pids.calls
    ensures Launched(p, temps, UpToCall(n)).pids == Launched(p, temps, Always()).pids
  {
    hide WellFormed, OnOverride, ThreshClients, ThreshGroups, FirstBits;
    var p1 := Step(p, Started, Always());
    var p2 := OnOverride(p1, false, |p1.clients|);
    ThreshAgrees(ThreshClients(p2, temps, |p2.clients|), |p2.groups|, UpToCall(n), Always());
  }

  /** What a client does and where is as it was. */
  ghost predicate SameRoles(p: Pids, q: Pids) {
    |q.clients| == |p.clients| && forall k | 0 <= k < |p.clients| ::
      q.clients[k].mitigating == p.clients[k].mitigating && q.clients[k].group == p.clients[k].group
  }

  lemma {:induction false} TimerClientRoles(p: Pids, g: nat, i: nat, temp: int, sampleCnt: int)
    requires WellFormed(p) && g < |p.groups| && i < |p.clients|
    ensures SameRoles(p, TimerClient(p, g, i, temp, sampleCnt))
  {
    hide Has, Correction, Pushed;
    WellFormedAt(p, i);
  }

  lemma {:induction false} TimerClientsRoles(p: Pids, g: nat, temps: Temps, sampleCnt: int, n: nat)
    requires WellFormed(p) && g < |p.groups| && n <= |p.clients|
    ensures SameRoles(p, TimerClients(p, g, temps, sampleCnt, n))
  {
    hide WellFormed, TimerClient;
    if n > 0 {
      TimerClientsRoles(p, g, temps, sampleCnt, n - 1);
      TimerClientRoles(TimerClients(p, g, temps, sampleCnt, n - 1), g, n - 1, temps(n - 1), sampleCnt);
    }
  }

  lemma {:induction false} TimerGroupsRoles(p: Pids, expired: bv32, temps: nat -> Temps, elapsed: nat -> int, n: nat)
    requires WellFormed(p) && n <= |p.groups|
    ensures SameRoles(p, TimerGroups(p, expired, temps, elapsed, n))
  {
    hide WellFormed, Has, TimerClients, SampleCount;
    if n > 0 {
      TimerGroupsRoles(p, expired, temps, elapsed, n - 1);
      var q := TimerGroups(p, expired, temps, elapsed, n - 1);
      PositivePeriod(q, n - 1);
      TimerClientsRoles(q, n - 1, temps(n - 1), SampleCount(elapsed(n - 1), q.groups[n - 1].sampling), |q.clients|);
    }
  }

  lemma {:induction false} TimerRoles(p: Pids, temps: nat -> Temps, elapsed: nat -> int, ok: Oracle)
    requires WellFormed(p)
    ensures SameRoles(p, OnTimer(p, true, temps, elapsed, ok))
  {
    hide WellFormed, TimerGroups, Restart;
    TimerGroupsRoles(p, p.pending, temps, elapsed, |p.groups|);
  }

  /** A group whose timer goes off and cannot be started again has stopped. */
  lemma {:induction false} ExpiredStops(p: Pids, i: nat, g: nat, temps: nat -> Temps, elapsed: nat -> int, ok: Oracle)
    requires Inv(p) && WellFormed(p) && g < |p.groups| && Belongs(p, g, i)
    requires p.groups[g].enabled && p.groups[g].armed && forall n: nat | n >= p.calls :: !ok(n)
    ensures var q := OnTimer(TimerExpires(p, g), true, temps, elapsed, ok);
            g < |q.groups| && Stopped(q, g) && Belongs(q, g, i)
  {
    hide WellFormed, Inv, Has, Set, OnTimer, Expirations, Timers;
    var p1 := TimerExpires(p, g);
    ExpiredInv(p, g);
    ExpiresAt(p, g, g);
    TimerAt(p1, true, temps, elapsed, ok, g);
    TimerRoles(p1, temps, elapsed, ok);
  }

  /** From any configuration with a client that is enabled and hot: every call of the start
      succeeds, its timer goes off and it is sampled, and the next calls fail. Then its group
      has stopped, and it mitigates on. */
  lemma {:induction false} StopReachable(es: seq<Init>, temps: Temps, i: nat, at: nat -> Temps, elapsed: nat -> int)
    requires (forall e | e in es :: GoodInit(e)) && i < |Boot(es).clients|
    requires !Boot(es).clients[i].disabled && temps(i) >= Boot(es).clients[i].setting.setPointClr
    ensures var g := Boot(es).clients[i].group;
            var ok := UpToCall(Launched(Boot(es), temps, Always()).pids.calls);
            var p := Step(Step(Launched(Boot(es), temps, ok).pids, Expired(g), ok), Timer(true, at, elapsed), ok);
            Belongs(p, g, i) && g < |p.groups| && Stopped(p, g)
  {
    hide WellFormed, Inv, Timers, Heard, Boot, GoodInit, Launched, Run, Stopped, TimerExpires, OnTimer;
    var m := Launched(Boot(es), temps, Always());
    var ok := UpToCall(m.pids.calls);
    LaunchDecides(es, temps, Always(), i);
    MonitorSafe(es, temps, [], Always());
    LaunchWaiting(Boot(es), temps, Always());
    BootFlags(es);
    ArmedFirst(m.pids, i);
    LaunchAgrees(Boot(es), temps, m.pids.calls);
    ExpiredStops(m.pids, i, m.pids.clients[i].group, at, elapsed, ok);
  }
}
