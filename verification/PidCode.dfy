/** The handlers of thermal-engine/pid_algorithm.c on the arrays of clients and sampling
    groups, and the thread that runs them. Each handler is proved to do what module Pid says,
    with every client's error history held in its ring, and so the thread to do what
    PidMonitor says: it keeps PidInvariant's invariant, and its batches are atomic. */
module PidCode {
  import opened Bitmask
  import opened ErrorRing
  import opened Numbers
  import opened Pid
  import opened PidBatch
  import PidEffects
  import opened PidImport
  import opened PidInvariant
  import opened PidMonitor

  const EFAULT := 14

  lemma {:induction false} MoreClients(p: Pids, c: Client)
    requires WellFormed(p) && |p.clients| < MAX_PID_INSTANCES_SUPPORTED && c.group < |p.groups| && |c.errs| == I_SAMPLES
    ensures WellFormed(p.(clients := p.clients + [c]))
  {
  }

  lemma {:induction false} MoreGroups(p: Pids, group: Group)
    requires WellFormed(p) && |p.groups| < MAX_PID_INSTANCES_SUPPORTED && group.sampling > 0
    ensures WellFormed(p.(groups := p.groups + [group]))
  {
  }

  lemma {:induction false} SameShape(p: Pids, q: Pids)
    requires WellFormed(p) && q.clients == p.clients && q.groups == p.groups
    ensures WellFormed(q)
  {
  }

  lemma {:induction false} FlushedAll(h: seq<int>)
    requires |h| == I_SAMPLES
    ensures Pushed(h, 0, I_SAMPLES) == Flushed()
  {
  }

  class PidAlgo {
    const pidAlgoClnt: array<Client>    // all but `errs`
    const errInfo: seq<ErrHistory>      // which are the meaning of these
    const samplingGroups: array<Group>
    var pidClntCnt: nat
    var samplingGroupCount: nat
    var threshReachedMask: bv32
    var samplingGroupMask: bv32
    var pidEvMask: Flags
    var overrideMode: bool
    var clientConfig: seq<Entry>
    var timerCalls: nat

    ghost function Rings(): set<object> {
      (set k | 0 <= k < |errInfo| :: errInfo[k] as object) + (set k | 0 <= k < |errInfo| :: errInfo[k].err as object)
    }

    ghost predicate Apart() {
      && pidAlgoClnt as object != samplingGroups as object && {this, pidAlgoClnt, samplingGroups} !! Rings()
      && Separate(errInfo)
    }

    /** No two rings share anything. */
    static ghost predicate Separate(rings: seq<ErrHistory>) {
      && (forall i, j | 0 <= i < |rings| && 0 <= j < |rings| :: rings[i] as object != rings[j].err as object)
      && forall i, j | 0 <= i < j < |rings| :: rings[i] != rings[j] && rings[i].err != rings[j].err
    }

    /** Every ring is in order. */
    ghost predicate RingsOk()
      reads Rings()
    {
      && pidAlgoClnt.Length == |errInfo| == MAX_PID_INSTANCES_SUPPORTED
      && forall k | 0 <= k < |errInfo| :: errInfo[k].Valid()
    }

    /** Those not in use are empty. */
    ghost predicate RestEmpty()
      requires RingsOk()
      reads `pidClntCnt, Rings()
    {
      forall k | pidClntCnt <= k < |errInfo| :: errInfo[k].History() == Flushed()
    }

    ghost predicate Sound()
      reads `pidClntCnt, `samplingGroupCount, Rings()
    {
      && Apart() && RingsOk() && RestEmpty() && pidClntCnt <= MAX_PID_INSTANCES_SUPPORTED
      && samplingGroupCount <= samplingGroups.Length == MAX_PID_INSTANCES_SUPPORTED
    }

    ghost function Clients(n: nat): (cs: seq<Client>)
      requires RingsOk() && n <= pidAlgoClnt.Length
      reads pidAlgoClnt, Rings()
      ensures |cs| == n && forall k | 0 <= k < n :: cs[k] == pidAlgoClnt[k].(errs := errInfo[k].History())
    {
      if n == 0 then [] else Clients(n - 1) + [pidAlgoClnt[n - 1].(errs := errInfo[n - 1].History())]
    }

    ghost function Now(): (p: Pids)
      requires Sound()
      reads `pidClntCnt, `samplingGroupCount, `threshReachedMask, `samplingGroupMask, `pidEvMask, `timerCalls
      reads pidAlgoClnt, samplingGroups, Rings()
      ensures |p.clients| == pidClntCnt && p.groups == samplingGroups[..samplingGroupCount]
      ensures p.reached == threshReachedMask && p.pending == samplingGroupMask && p.flags == pidEvMask
      ensures p.calls == timerCalls
    {
      Pids(Clients(pidClntCnt), samplingGroups[..samplingGroupCount], threshReachedMask, samplingGroupMask, pidEvMask,
           timerCalls)
    }

    ghost predicate Valid()
      reads `pidClntCnt, `samplingGroupCount, `threshReachedMask, `samplingGroupMask, `pidEvMask, `timerCalls
      reads pidAlgoClnt, samplingGroups, Rings()
    {
      Sound() && WellFormed(Now())
    }

    constructor ()
      ensures Valid() && Now() == Boot([]) && !overrideMode && clientConfig == []
      ensures fresh(pidAlgoClnt) && fresh(samplingGroups) && fresh(Rings())
    {
      hide Separate;
      var rings := NewRings();
      var clients, groups := NewTables();
      pidAlgoClnt, samplingGroups, errInfo := clients, groups, rings;
      pidClntCnt, samplingGroupCount, timerCalls := 0, 0, 0;
      threshReachedMask, samplingGroupMask, pidEvMask := 0, 0, NO_FLAGS;
      overrideMode, clientConfig := false, [];
    }

    /** Room for every client and every group. */
    static method NewTables() returns (clients: array<Client>, groups: array<Group>)
      ensures fresh(clients) && fresh(groups) && clients as object != groups as object
      ensures clients.Length == groups.Length == MAX_PID_INSTANCES_SUPPORTED
    {
      var nobody := Setting(0, 0, 0, 0, 0.0, 0.0, 0.0);
      clients := new Client[MAX_PID_INSTANCES_SUPPORTED](_ =>
        Client("", nobody, 0, 0, 0, false, [], 0, 0, 0, false, 0));
      groups := new Group[MAX_PID_INSTANCES_SUPPORTED](_ => Group(0, 0, false, 0, false));
    }

    /** A ring of zeros for each client. */
    static method NewRings() returns (rings: seq<ErrHistory>)
      ensures |rings| == MAX_PID_INSTANCES_SUPPORTED && Separate(rings)
      ensures forall k | 0 <= k < |rings| ::
                fresh(rings[k]) && fresh(rings[k].err) && rings[k].Valid() && rings[k].History() == Flushed()
    {
      rings := [];
      while |rings| < MAX_PID_INSTANCES_SUPPORTED
        invariant |rings| <= MAX_PID_INSTANCES_SUPPORTED && Separate(rings)
        invariant forall k | 0 <= k < |rings| ::
                    fresh(rings[k]) && fresh(rings[k].err) && rings[k].Valid() && rings[k].History() == Flushed()
      {
        var ring := new ErrHistory();
        rings := rings + [ring];
      }
    }

    // ------------------------------------------------------ one field at a time

    /** The history of the client stays as it is. */
    method SetClient(i: nat, c: Client)
      requires Valid() && i < pidClntCnt && c.group < samplingGroupCount
      modifies pidAlgoClnt
      ensures Valid() && Now() == WithClient(old(Now()), i, c.(errs := old(Now()).clients[i].errs))
    {
      hide WellFormed, RestEmpty, Rings;
      WellFormedAt(Now(), i);
      pidAlgoClnt[i] := c;
      assert Now() == WithClient(old(Now()), i, c.(errs := old(Now()).clients[i].errs));
    }

    method SetGroup(g: nat, group: Group)
      requires Valid() && g < samplingGroupCount && group.sampling > 0
      modifies samplingGroups
      ensures Valid() && Now() == WithGroup(old(Now()), g, group)
    {
      hide WellFormed, RestEmpty, Rings, Clients;
      samplingGroups[g] := group;
      assert Now() == WithGroup(old(Now()), g, group);
    }

    /** set_curr_err, on the ring of a client. */
    method PushErr(i: nat, err: int, sampleCnt: int)
      requires Valid() && i < pidClntCnt
      modifies Rings()
      ensures Valid()
      ensures var c := old(Now()).clients[i];
              |c.errs| == I_SAMPLES && Now() == WithClient(old(Now()), i, c.(errs := Pushed(c.errs, err, sampleCnt)))
    {
      hide WellFormed, Pushed;
      WellFormedAt(Now(), i);
      errInfo[i].SetCurrErr(err, sampleCnt);
      ghost var c := old(Now()).clients[i];
      assert Now() == WithClient(old(Now()), i, c.(errs := Pushed(c.errs, err, sampleCnt)));
    }

    /** pid_thresh_notify, as the sensors call it and the handlers do. */
    method PidThreshNotify(i: nat)
      requires Valid()
      modifies `threshReachedMask, `pidEvMask
      ensures Valid()
      ensures Now() == old(Now()).(reached := Set(old(Now()).reached, i), flags := old(Now()).flags.(thresh := true))
    {
      hide WellFormed, RestEmpty, Rings, Clients, Set;
      threshReachedMask := Set(threshReachedMask, i);
      pidEvMask := pidEvMask.(thresh := true);
      SameShape(old(Now()), Now());
    }

    method NotifyAndFlush(i: nat)
      requires Valid() && i < pidClntCnt
      modifies `threshReachedMask, `pidEvMask, Rings()
      ensures Valid() && Now() == Renotify(old(Now()), i)
    {
      hide Now, Set, WellFormed, Pushed;
      WellFormedAt(Now(), i);
      PidThreshNotify(i);
      FlushedAll(Now().clients[i].errs);
      PushErr(i, 0, I_SAMPLES);
    }

    /** Mark off a threshold that has been looked at. */
    method MarkOff(i: nat)
      requires Valid()
      modifies `threshReachedMask
      ensures Valid() && Now() == old(Now()).(reached := Clear(old(Now()).reached, i))
    {
      hide WellFormed, RestEmpty, Rings, Clients, Clear;
      threshReachedMask := Clear(threshReachedMask, i);
      SameShape(old(Now()), Now());
    }

    /** Mark off a group that has been sampled. */
    method MarkSampled(g: nat)
      requires Valid()
      modifies `samplingGroupMask
      ensures Valid() && Now() == old(Now()).(pending := Clear(old(Now()).pending, g))
    {
      hide WellFormed, RestEmpty, Rings, Clients, Clear;
      samplingGroupMask := Clear(samplingGroupMask, g);
      SameShape(old(Now()), Now());
    }

    /** What the record of a client in use says of it. */
    lemma Seen(i: nat)
      requires Valid() && i < pidClntCnt
      ensures Now().clients[i] == pidAlgoClnt[i].(errs := Now().clients[i].errs)
      ensures |Now().clients[i].errs| == I_SAMPLES && Now().clients[i].errs == errInfo[i].History()
      ensures pidAlgoClnt[i].group < samplingGroupCount
    {
      hide WellFormed;
      WellFormedAt(Now(), i);
    }

    // -------------------------------------------------------------------- timers

    /** A call of the timer system. */
    method TimerCall(ok: Oracle) returns (r: bool)
      requires Valid()
      modifies `timerCalls
      ensures Valid() && Now() == old(Now()).(calls := old(Now()).calls + 1) && r == ok(old(timerCalls))
    {
      hide WellFormed, RestEmpty, Rings, Clients;
      r := ok(timerCalls);
      timerCalls := timerCalls + 1;
      SameShape(old(Now()), Now());
    }

    method PidSetTimer(g: nat, ok: Oracle) returns (r: bool)
      requires Valid() && g < samplingGroupCount
      modifies `timerCalls, samplingGroups
      ensures Valid() && (Now(), r) == SetTimer(old(Now()), g, ok)
    {
      hide Now, WellFormed;
      PositivePeriod(Now(), g);
      r := TimerCall(ok);
      if r {
        SetGroup(g, samplingGroups[g].(armed := samplingGroups[g].value != 0));
      }
    }

    method StartTimer(g: nat, ok: Oracle) returns (r: bool)
      requires Valid() && g < samplingGroupCount
      modifies `timerCalls, samplingGroups
      ensures Valid() && (Now(), r) == Enable(old(Now()), g, ok)
    {
      hide Now, SetTimer, WellFormed;
      PositivePeriod(Now(), g);
      SetGroup(g, samplingGroups[g].(value := samplingGroups[g].sampling));
      r := PidSetTimer(g, ok);
      if r {
        SetGroup(g, samplingGroups[g].(enabled := true));
      }
    }

    method StopTimer(g: nat, ok: Oracle)
      requires Valid() && g < samplingGroupCount
      modifies `timerCalls, samplingGroups
      ensures Valid() && Now() == Disable(old(Now()), g, ok)
    {
      hide Now, SetTimer, WellFormed;
      PositivePeriod(Now(), g);
      SetGroup(g, samplingGroups[g].(value := 0));
      var r := PidSetTimer(g, ok);
      if r {
        SetGroup(g, samplingGroups[g].(enabled := false));
      }
    }

    method LeaveGroup(g: nat, i: nat, ok: Oracle)
      requires Valid() && g < samplingGroupCount
      modifies `timerCalls, samplingGroups
      ensures Valid() && Now() == LeaveAndStop(old(Now()), g, i, ok)
    {
      hide Now, Disable, Clear, WellFormed;
      PositivePeriod(Now(), g);
      SetGroup(g, samplingGroups[g].(mask := Clear(samplingGroups[g].mask, i)));
      if samplingGroups[g].mask == 0 && samplingGroups[g].enabled {
        StopTimer(g, ok);
      }
    }

    // ------------------------------------------------------------ configuration

    method HandleDisableConfigAdjust(i: nat, disable: bool, ok: Oracle) returns (r: bool)
      requires Valid() && i < pidClntCnt
      modifies `timerCalls, pidAlgoClnt, samplingGroups
      ensures Valid() && (Now(), r) == DisableAdjust(old(Now()), i, disable, ok)
    {
      hide Now, LeaveAndStop, WellFormed;
      Seen(i);
      var pid := pidAlgoClnt[i];
      if !disable {
        if pid.setPoint <= pid.setPointClr || samplingGroups[pid.group].sampling < SAMPLING_MS_MINIMUM {
          return false;
        }
        SetClient(i, pid.(disabled := false));
      } else {
        SetClient(i, pid.(devOpLvl := pid.maxOpLvl, mitigating := false, prevAdjustment := 0, disabled := true));
        LeaveGroup(pid.group, i, ok);
      }
      r := true;
    }

    method FindSamplingGroup(sampling: int) returns (s: nat)
      requires Valid()
      ensures s == FindGroup(Now().groups, sampling)
    {
      s := 0;
      while s < samplingGroupCount && samplingGroups[s].sampling != sampling
        invariant s <= samplingGroupCount
        invariant forall k | 0 <= k < s :: samplingGroups[k].sampling != sampling
      {
        s := s + 1;
      }
    }

    method AddGroup(group: Group)
      requires Valid() && samplingGroupCount < MAX_PID_INSTANCES_SUPPORTED && group.sampling > 0
      modifies `samplingGroupCount, samplingGroups
      ensures Valid() && Now() == old(Now()).(groups := old(Now()).groups + [group])
    {
      hide WellFormed, RestEmpty, Rings, Clients;
      MoreGroups(Now(), group);
      samplingGroups[samplingGroupCount] := group;
      samplingGroupCount := samplingGroupCount + 1;
      assert Now().groups == old(Now()).groups + [group];
      assert Now() == old(Now()).(groups := old(Now()).groups + [group]);
    }

    /** The group is there from now on, whether or not its timer could be created. */
    method CreateGroup(sampling: int, ok: Oracle) returns (created: bool)
      requires Valid() && samplingGroupCount < MAX_PID_INSTANCES_SUPPORTED && sampling > 0
      modifies `timerCalls, `samplingGroupCount, samplingGroups
      ensures created == ok(old(Now()).calls)
      ensures Valid() && Now() == WithNewGroup(old(Now()), sampling, created)
    {
      hide Now, WellFormed;
      created := TimerCall(ok);
      AddGroup(Group(sampling, 0, false, if created then sampling else 0, false));
    }

    method HandleSamplingAdjust(i: nat, sampling: int, ok: Oracle) returns (r: bool)
      requires Valid() && i < pidClntCnt
      modifies `timerCalls, `samplingGroupCount, pidAlgoClnt, samplingGroups
      ensures Valid() && (Now(), r) == SamplingAdjust(old(Now()), i, sampling, ok)
      ensures pidClntCnt == old(pidClntCnt)
    {
      hide Now, Pid.Move, FindGroup, WellFormed;
      if sampling < SAMPLING_MS_MINIMUM {
        return false;
      }
      var s := FindSamplingGroup(sampling);
      if s >= samplingGroupCount {
        if samplingGroupCount == MAX_PID_INSTANCES_SUPPORTED {
          return false;
        }
        var created := CreateGroup(sampling, ok);
        if !created {
          return false;
        }
      }
      r := MoveClient(i, s, ok);
    }

    method MoveClient(i: nat, s: nat, ok: Oracle) returns (r: bool)
      requires Valid() && i < pidClntCnt && s < samplingGroupCount
      modifies `timerCalls, pidAlgoClnt, samplingGroups
      ensures Valid() && (Now(), r) == Pid.Move(old(Now()), i, s, ok)
    {
      hide Now, LeaveAndStop, Enable, Join, Leave, Has, WellFormed;
      Seen(i);
      var pid := pidAlgoClnt[i];
      if !pid.disabled && Has(samplingGroups[pid.group].mask, i) {
        r := EnterGroup(s, i, ok);
        if !r {
          return false;
        }
        LeaveGroup(pid.group, i, ok);
      }
      SetClient(i, pid.(group := s));
      r := true;
    }

    /** Join a group and see that its timer runs, or else leave it again. */
    method EnterGroup(s: nat, i: nat, ok: Oracle) returns (r: bool)
      requires Valid() && s < samplingGroupCount
      modifies `timerCalls, samplingGroups
      ensures Valid()
      ensures var p1 := Join(old(Now()), s, i);
              var (p2, done) := if p1.groups[s].mask != 0 && !p1.groups[s].enabled then Enable(p1, s, ok) else (p1, true);
              r == done && Now() == if done then p2 else Leave(p2, s, i)
    {
      hide Now, Enable, Clear, Set, WellFormed;
      PositivePeriod(Now(), s);
      SetGroup(s, samplingGroups[s].(mask := Set(samplingGroups[s].mask, i)));
      r := true;
      if samplingGroups[s].mask != 0 && !samplingGroups[s].enabled {
        r := StartTimer(s, ok);
        if !r {
          PositivePeriod(Now(), s);
          SetGroup(s, samplingGroups[s].(mask := Clear(samplingGroups[s].mask, i)));
        }
      }
    }

    // ---------------------------------------------------------------- thresholds

    method AdjustThreshold(i: nat, temp: int)
      requires Valid() && i < pidClntCnt
      modifies `threshReachedMask, pidAlgoClnt, samplingGroups, Rings()
      ensures Valid() && Now() == ThreshClient(old(Now()), i, temp)
    {
      hide Now, RestEmpty, Rings, Set, Clear, Has, WellFormed, Pushed;
      Seen(i);
      var pid := pidAlgoClnt[i];
      PositivePeriod(Now(), pid.group);
      if !Has(threshReachedMask, i) {
        return;
      }
      MarkOff(i);
      if pid.disabled {
        return;
      }
      var transition := (!pid.mitigating && temp >= pid.setPointClr) || (pid.mitigating && temp <= pid.setPointClr);
      if transition {
        pid := pid.(mitigating := !pid.mitigating);
        if pid.mitigating {
          pid := pid.(devOpLvl := pid.maxOpLvl);
        }
      }
      if !pid.mitigating {
        SetClient(i, pid.(prevAdjustment := 0));
        FlushedAll(Now().clients[i].errs);
        PushErr(i, 0, I_SAMPLES);
        SetGroup(pid.group, samplingGroups[pid.group].(mask := Clear(samplingGroups[pid.group].mask, i)));
      } else {
        SetClient(i, pid);
        SetGroup(pid.group, samplingGroups[pid.group].(mask := Set(samplingGroups[pid.group].mask, i)));
      }
    }

    method HandleThreshSig(temps: Temps, ok: Oracle)
      requires Valid()
      modifies `threshReachedMask, `timerCalls, pidAlgoClnt, samplingGroups, Rings()
      ensures Valid() && Now() == OnThresh(old(Now()), temps, ok)
    {
      hide Now, ThreshClient, ThreshGroup, WellFormed;
      var idx := 0;
      while idx < pidClntCnt
        invariant 0 <= idx <= pidClntCnt && Valid()
        invariant Now() == ThreshClients(old(Now()), temps, idx)
      {
        AdjustThreshold(idx, temps(idx));
        idx := idx + 1;
      }
      idx := 0;
      ghost var mid := Now();
      while idx < samplingGroupCount
        invariant 0 <= idx <= samplingGroupCount && Valid()
        invariant Now() == ThreshGroups(mid, ok, idx)
      {
        AdjustTimer(idx, ok);
        idx := idx + 1;
      }
    }

    method AdjustTimer(g: nat, ok: Oracle)
      requires Valid() && g < samplingGroupCount
      modifies `timerCalls, samplingGroups
      ensures Valid() && Now() == ThreshGroup(old(Now()), g, ok)
    {
      hide Now, Enable, Disable, WellFormed;
      if samplingGroups[g].mask != 0 {
        if !samplingGroups[g].enabled {
          var r := StartTimer(g, ok);
        }
      } else if samplingGroups[g].enabled {
        StopTimer(g, ok);
      }
    }

    // ------------------------------------------------------------------ override

    method HandleOverrideSig(mode: bool)
      requires Valid()
      modifies `threshReachedMask, `pidEvMask, pidAlgoClnt, Rings()
      ensures Valid() && Now() == OnOverride(old(Now()), mode, old(pidClntCnt))
    {
      hide Now, OverrideClient, WellFormed;
      var idx := 0;
      while idx < pidClntCnt
        invariant 0 <= idx <= pidClntCnt && Valid()
        invariant Now() == OnOverride(old(Now()), mode, idx)
      {
        OverrideOne(idx, mode);
        idx := idx + 1;
      }
    }

    method OverrideOne(i: nat, mode: bool)
      requires Valid() && i < pidClntCnt
      modifies `threshReachedMask, `pidEvMask, pidAlgoClnt, Rings()
      ensures Valid() && Now() == OverrideClient(old(Now()), i, mode)
    {
      hide Now, RestEmpty, Rings, Renotify, WellFormed, WithClient;
      Seen(i);
      var pid := pidAlgoClnt[i];
      if pid.disabled || pid.setting.overshoot == 0 {
        return;
      }
      if mode {
        pid := pid.(setPoint := pid.setting.setPoint + pid.setting.overshoot,
                    setPointClr := pid.setting.setPointClr + pid.setting.overshoot);
      } else {
        pid := pid.(setPoint := pid.setting.setPoint, setPointClr := pid.setting.setPointClr);
      }
      SetClient(i, pid.(prevAdjustment := 0));
      NotifyAndFlush(i);
    }

    // --------------------------------------------------------------------- timer

    /** The controller itself, on one client. */
    method Regulate(i: nat, temp: int, sampleCnt: int, sampling: int)
      requires Valid() && i < pidClntCnt && sampling > 0
      modifies pidAlgoClnt, Rings()
      ensures Valid()
      ensures var c := old(Now()).clients[i];
              |c.errs| == I_SAMPLES && Now() == WithClient(old(Now()), i, Sampled(c, temp, sampleCnt, sampling))
    {
      hide Now, Pushed, WellFormed, Regulated;
      Seen(i);
      var pid := pidAlgoClnt[i];
      PushErr(i, pid.setPoint - temp, sampleCnt);
      var errs := LastErrs(i);
      pid := Compute(pid, errs, sampling);
      SetClient(i, pid);
    }

    method LastErrs(i: nat) returns (errs: seq<int>)
      requires Valid() && i < pidClntCnt
      ensures errs == Now().clients[i].errs && |errs| == I_SAMPLES
    {
      hide Now, WellFormed;
      Seen(i);
      var e0 := errInfo[i].GetErr(0);
      var e1 := errInfo[i].GetErr(-1);
      var e2 := errInfo[i].GetErr(-2);
      errs := [e0, e1, e2];
    }

    /** The level and the adjustment that the last errors make of those of a client. */
    static method Compute(c: Client, recent: seq<int>, sampling: int) returns (pid: Client)
      requires |recent| == I_SAMPLES && sampling > 0
      ensures pid.(errs := recent) == Regulated(c.(errs := recent), sampling) && pid.group == c.group
    {
      hide Correction;
      var e0, e1, e2 := recent[0], recent[1], recent[2];
      pid := c.(errs := recent);
      if e0 == 0 || (e0 > 0 && e1 < 0) || (e0 < 0 && e1 > 0) {
        pid := pid.(prevAdjustment := 0);
      }
      if e0 == 0 && e1 == 0 && e2 == 0 {
        return;
      }
      var adjustment := pid.prevAdjustment + Correction(pid.setting, recent, sampling);
      pid := pid.(prevAdjustment := adjustment, devOpLvl := pid.devOpLvl + adjustment);
      if pid.devOpLvl < pid.minOpLvl {
        pid := pid.(devOpLvl := pid.minOpLvl, prevAdjustment := 0);
      }
      if pid.devOpLvl > pid.maxOpLvl {
        pid := pid.(devOpLvl := pid.maxOpLvl, prevAdjustment := 0);
      }
    }

    method SampleOne(g: nat, i: nat, temp: int, sampleCnt: int)
      requires Valid() && g < samplingGroupCount && i < pidClntCnt
      modifies pidAlgoClnt, Rings()
      ensures Valid() && Now() == TimerClient(old(Now()), g, i, temp, sampleCnt)
    {
      hide Now, Has, Sampled, WellFormed;
      Seen(i);
      PositivePeriod(Now(), g);
      var pid := pidAlgoClnt[i];
      if !(pid.disabled || !Has(samplingGroups[g].mask, i) || !pid.mitigating) {
        Regulate(i, temp, sampleCnt, samplingGroups[g].sampling);
      }
    }

    method SampleGroup(g: nat, expired: bv32, temps: Temps, elapsed: int)
      requires Valid() && g < samplingGroupCount
      modifies `samplingGroupMask, pidAlgoClnt, Rings()
      ensures Valid() && Now() == TimerGroup(old(Now()), g, expired, temps, elapsed)
    {
      hide Now, Has, Clear, TimerClient, WellFormed;
      if !Has(expired, g) {
        return;
      }
      PositivePeriod(Now(), g);
      var sampleCnt := CDiv(elapsed, samplingGroups[g].sampling);
      if sampleCnt > I_SAMPLES {
        sampleCnt := I_SAMPLES;
      }
      var idx := 0;
      while idx < pidClntCnt
        invariant 0 <= idx <= pidClntCnt && Valid()
        invariant Now() == TimerClients(old(Now()), g, temps, sampleCnt, idx)
        modifies pidAlgoClnt, Rings()
      {
        SampleOne(g, idx, temps(idx), sampleCnt);
        idx := idx + 1;
      }
      MarkSampled(g);
    }

    method HandleTimerSig(clockOk: bool, temps: nat -> Temps, elapsed: nat -> int, ok: Oracle)
      requires Valid()
      modifies `samplingGroupMask, `timerCalls, pidAlgoClnt, samplingGroups, Rings()
      ensures Valid() && Now() == OnTimer(old(Now()), clockOk, temps, elapsed, ok)
      ensures if clockOk then Inv(old(Now())) ==> PidEffects.AllControlled(old(Now()), Now(), temps, elapsed)
              else Now() == old(Now())
    {
      hide PidEffects.AllControlled, Inv, Now, Has, TimerGroup, SetTimer, WellFormed;
      var expired := samplingGroupMask;
      if !clockOk {
        return;
      }
      if Inv(Now()) {
        PidEffects.TimerControlsAll(Now(), temps, elapsed, ok);
      }
      var sampleId := 0;
      while sampleId < samplingGroupCount
        invariant 0 <= sampleId <= samplingGroupCount && Valid()
        invariant Now() == TimerGroups(old(Now()), expired, temps, elapsed, sampleId)
      {
        SampleGroup(sampleId, expired, temps(sampleId), elapsed(sampleId));
        sampleId := sampleId + 1;
      }
      sampleId := 0;
      ghost var mid := Now();
      while sampleId < samplingGroupCount
        invariant 0 <= sampleId <= samplingGroupCount && Valid()
        invariant Now() == Restart(mid, expired, ok, sampleId)
      {
        if Has(expired, sampleId) {
          var r := PidSetTimer(sampleId, ok);
        }
        sampleId := sampleId + 1;
      }
    }

    // -------------------------------------------------------------- config batch

    method FindInstance(desc: string) returns (idx: nat)
      requires Valid()
      ensures idx == FindClient(Now().clients, desc)
    {
      idx := 0;
      while idx < pidClntCnt && pidAlgoClnt[idx].desc != desc
        invariant idx <= pidClntCnt
        invariant forall k | 0 <= k < idx :: pidAlgoClnt[k].desc != desc
      {
        idx := idx + 1;
      }
    }

    /** The index of the instance an entry is for, negative on error. */
    method ValidateClientConfig(e: Entry) returns (idx: int)
      requires Valid()
      ensures var i := Validate(Now(), e);
              idx == if i < pidClntCnt then i else -1
    {
      hide Names, FindClient;
      var i := FindInstance(e.desc);
      if i >= pidClntCnt || e.fieldsMask == 0 {
        return -1;
      }
      if Names(e, DISABLE_FIELD) {
        if e.disable < 0 || e.disable > 1 {
          return -1;
        }
      }
      if Names(e, SAMPLING_FIELD) {
        if e.sampling < SAMPLING_MS_MINIMUM {
          return -1;
        }
      }
      if Names(e, SET_POINT_FIELD) {
        if e.setPoint == INT_MIN || (e.setPointClr != INT_MIN && e.setPoint <= e.setPointClr) ||
           (e.setPointClr == INT_MIN && e.setPoint <= pidAlgoClnt[i].setPointClr) {
          return -1;
        }
      }
      if Names(e, SET_POINT_CLR_FIELD) {
        if e.setPointClr == INT_MIN || (e.setPoint != INT_MIN && e.setPoint <= e.setPointClr) ||
           (e.setPoint == INT_MIN && e.setPointClr >= pidAlgoClnt[i].setPoint) {
          return -1;
        }
      }
      idx := i;
    }

    method AdjustSetPoints(i: nat, e: Entry) returns (done: bool)
      requires Valid() && i < pidClntCnt
      modifies pidAlgoClnt
      ensures Valid() && Now() == ApplySetPoints(old(Now()), i, e)
      ensures done == (Changes(old(Now()), i, e, SET_POINT_FIELD) || Changes(old(Now()), i, e, SET_POINT_CLR_FIELD))
    {
      hide Now, Names, WellFormed;
      Seen(i);
      done := false;
      var pid := pidAlgoClnt[i];
      if Names(e, SET_POINT_FIELD) && e.setPoint != pid.setPoint {
        pid := pid.(setPoint := e.setPoint);
        done := true;
      }
      if Names(e, SET_POINT_CLR_FIELD) && e.setPointClr != pid.setPointClr {
        pid := pid.(setPointClr := e.setPointClr);
        done := true;
      }
      SetClient(i, pid);
    }

    method TryDisable(i: nat, e: Entry, ok: Oracle) returns (r: bool, done: bool)
      requires Valid() && i < pidClntCnt
      modifies `timerCalls, pidAlgoClnt, samplingGroups
      ensures Valid() && (Now(), r, done) == ApplyDisable(old(Now()), i, e, ok)
    {
      hide DisableAdjust, Names;
      var currDisabled := pidAlgoClnt[i].disabled;
      r, done := true, false;
      if Names(e, DISABLE_FIELD) && (e.disable == 1) != currDisabled {
        r := HandleDisableConfigAdjust(i, e.disable == 1, ok);
        done := r;
      }
    }

    method TrySampling(i: nat, e: Entry, ok: Oracle) returns (r: bool, done: bool)
      requires Valid() && i < pidClntCnt
      modifies `timerCalls, `samplingGroupCount, pidAlgoClnt, samplingGroups
      ensures Valid() && (Now(), r, done) == ApplySampling(old(Now()), i, e, ok)
      ensures pidClntCnt == old(pidClntCnt)
    {
      hide SamplingAdjust, Names;
      WellFormedAt(Now(), i);
      var currSampling := samplingGroups[pidAlgoClnt[i].group].sampling;
      r, done := true, false;
      if Names(e, SAMPLING_FIELD) && e.sampling != currSampling {
        r := HandleSamplingAdjust(i, e.sampling, ok);
        done := r;
      }
    }

    /** One pass of the batch loop, with its error handler. */
    method ApplyConfig(i: nat, e: Entry, ok: Oracle)
      requires Valid() && i < pidClntCnt
      modifies `threshReachedMask, `pidEvMask, `timerCalls, `samplingGroupCount, pidAlgoClnt, samplingGroups, Rings()
      ensures Valid() && Now() == ApplyEntry(old(Now()), i, e, ok)
      ensures pidClntCnt == old(pidClntCnt)
    {
      hide ApplyDisable, ApplySampling, DisableAdjust, ApplySetPoints, Renotify, Changes, WellFormed;
      var currDisabled := pidAlgoClnt[i].disabled;
      var r, disableAdjustDone := TryDisable(i, e, ok);
      if !r {
        return;
      }
      var samplingAdjustDone;
      r, samplingAdjustDone := TrySampling(i, e, ok);
      if !r {
        if disableAdjustDone {
          var undone := HandleDisableConfigAdjust(i, currDisabled, ok);
          NotifyAndFlush(i);
        }
        return;
      }
      var setPointsDone := AdjustSetPoints(i, e);
      if disableAdjustDone || samplingAdjustDone || setPointsDone {
        NotifyAndFlush(i);
      }
    }

    /** The first pass: where each entry's instance is, if all are valid. */
    method ValidateAll(batch: seq<Entry>) returns (valid: bool, aIdx: array<nat>)
      requires Valid()
      ensures fresh(aIdx) && aIdx.Length == |batch| && valid == AllValid(Now(), batch)
      ensures valid ==> aIdx[..] == Targets(Now(), batch) && forall j | 0 <= j < |batch| :: aIdx[j] < pidClntCnt
    {
      hide Now, Validate, WellFormed;
      aIdx := new nat[|batch|];
      var k := 0;
      while k < |batch|
        invariant 0 <= k <= |batch|
        invariant forall j | 0 <= j < k :: aIdx[j] == Validate(Now(), batch[j]) < pidClntCnt
        modifies aIdx
      {
        var i := ValidateClientConfig(batch[k]);
        if i < 0 {
          return false, aIdx;
        }
        aIdx[k] := i;
        k := k + 1;
      }
      valid := true;
    }

    /** The second pass: each entry in turn. */
    method ApplyAll(batch: seq<Entry>, aIdx: array<nat>, ok: Oracle)
      requires Valid() && aIdx.Length == |batch| && forall j | 0 <= j < |batch| :: aIdx[j] < pidClntCnt
      requires aIdx !in Rings() && aIdx as object != pidAlgoClnt && aIdx as object != samplingGroups
      modifies `threshReachedMask, `pidEvMask, `timerCalls, `samplingGroupCount, pidAlgoClnt, samplingGroups, Rings()
      ensures Valid() && Now() == ApplyBatch(old(Now()), old(aIdx[..]), batch, ok, |batch|)
    {
      hide Now, ApplyEntry, WellFormed, RestEmpty, Rings;
      ghost var before, targets := Now(), aIdx[..];
      var k := 0;
      while k < |batch|
        invariant 0 <= k <= |batch| && Valid() && pidClntCnt == |before.clients| && aIdx[..] == targets
        invariant Now() == ApplyBatch(before, targets, batch, ok, k)
      {
        assert aIdx[k] == targets[k];
        ApplyConfig(aIdx[k], batch[k], ok);
        k := k + 1;
      }
    }

    /** Whatever timer calls fail, an invalid batch changes nothing, and a valid one that names
        nobody twice is atomic if set points are in order and no period is too short. */
    method HandleConfigSetSig(batch: seq<Entry>, ok: Oracle)
      requires Valid()
      modifies `threshReachedMask, `pidEvMask, `timerCalls, `samplingGroupCount, pidAlgoClnt, samplingGroups, Rings()
      ensures Valid() && Now() == OnConfig(old(Now()), batch, ok)
      ensures !AllValid(old(Now()), batch) ==> Now() == old(Now())
      ensures AllValid(old(Now()), batch) && NamedOnce(batch) && AllInOrder(old(Now())) && LongPeriods(old(Now())) ==>
                Atomic(old(Now()), Now(), Targets(old(Now()), batch), batch, |batch|)
      ensures PidEffects.ChangesHeard(old(Now()), Now())
    {
      hide PidEffects.ChangesHeard;
      hide Now, Targets, AllValid, ApplyBatch, WellFormed, Atomic, NamedOnce, AllInOrder, LongPeriods;
      ghost var before := Now();
      PidEffects.ConfigNotifies(before, batch, ok);
      var valid, aIdx := ValidateAll(batch);
      if valid {
        ApplyAll(batch, aIdx, ok);
      }
      if NamedOnce(batch) && AllInOrder(before) && LongPeriods(before) {
        SettledAtomic(before, batch, ok);
      }
    }

    // ---------------------------------------------------------------------- init

    method AddPid(e: Init)
      requires Valid() && GoodInit(e) && samplingGroupCount <= pidClntCnt < MAX_PID_INSTANCES_SUPPORTED
      modifies `pidClntCnt, `samplingGroupCount, pidAlgoClnt, samplingGroups
      ensures Valid() && Now() == AddClient(old(Now()), e)
    {
      hide Now, FindGroup, WellFormed;
      var period := if PID_SAMPLE_PERIOD < e.samplingPeriodMs then PID_SAMPLE_PERIOD else e.samplingPeriodMs;
      var g := FindSamplingGroup(period);
      if g >= samplingGroupCount {
        AddGroup(Group(period, 0, false, period, false));
      }
      AddRecord(Client(e.desc, e.setting, e.minOpLvl, e.maxOpLvl, e.maxOpLvl, false, [],
                       e.setting.setPoint, e.setting.setPointClr, 0, e.disable, g));
    }

    /** One more client, with an empty history. */
    method AddRecord(c: Client)
      requires Valid() && pidClntCnt < MAX_PID_INSTANCES_SUPPORTED && c.group < samplingGroupCount
      modifies `pidClntCnt, pidAlgoClnt
      ensures Valid() && Now() == old(Now()).(clients := old(Now()).clients + [c.(errs := Flushed())])
    {
      hide WellFormed, RestEmpty, Rings;
      MoreClients(Now(), c.(errs := Flushed()));
      StoreRecord(c);
      CountRecord();
    }

    /** Write a record that is not counted yet. */
    method StoreRecord(c: Client)
      requires Valid() && pidClntCnt < MAX_PID_INSTANCES_SUPPORTED
      modifies pidAlgoClnt
      ensures Valid() && Now() == old(Now()) && pidAlgoClnt[pidClntCnt] == c
    {
      hide WellFormed, RestEmpty, Rings;
      pidAlgoClnt[pidClntCnt] := c;
      assert Clients(pidClntCnt) == old(Clients(pidClntCnt));
    }

    method CountRecord()
      requires Valid() && pidClntCnt < MAX_PID_INSTANCES_SUPPORTED
      requires WellFormed(Now().(clients := Now().clients + [pidAlgoClnt[pidClntCnt].(errs := Flushed())]))
      modifies `pidClntCnt
      ensures Valid()
      ensures Now() == old(Now().(clients := Now().clients + [pidAlgoClnt[pidClntCnt].(errs := Flushed())]))
    {
      hide WellFormed, Rings;
      pidClntCnt := pidClntCnt + 1;
    }

    /** The import loop. It is called only where it ends; PidImport says when that is. */
    method PidAlgoInit(sections: seq<Section>) returns (r: int)
      requires Valid() && Now() == Boot([]) && Ranged(sections) && GetsThrough(sections)
      modifies `pidClntCnt, `samplingGroupCount, pidAlgoClnt, samplingGroups
      ensures forall e | e in Inits(sections) :: GoodInit(e)
      ensures Valid() && Now() == Boot(Inits(sections))
      ensures r == if Inits(sections) == [] then -EFAULT else 0
    {
      hide Now, AddClient, WellFormed, Boot, Inits, Passes;
      var at := 0;
      FirstPass(sections);
      while at < |sections| && pidClntCnt < MAX_PID_INSTANCES_SUPPORTED
        invariant at <= |sections| && Valid() && Import(at, Now()) == Passes(sections, at)
        decreases |sections| - at
      {
        var section := sections[at];
        assert section in sections;
        OnePass(sections, at);
        NotStopped(sections, at);
        if !section.isPid || section.errDisable {
          at := at + 1;
        } else if section.entry.samplingPeriodMs != 0 {
          if section.found {
            AddPid(section.entry);
          }
          at := at + 1;
        }
      }
      DoneIsBoot(sections, at);
      NobodyIff(sections, at);
      r := if pidClntCnt == 0 then -EFAULT else 0;
    }

    // -------------------------------------------------------- the monitor thread

    ghost predicate Shows(m: Monitor)
      reads this, pidAlgoClnt, samplingGroups, Rings()
    {
      Valid() && Now() == m.pids && overrideMode == m.mode && clientConfig == m.batch
    }

    method OverrideNotify(mode: bool, ghost m: Monitor, ghost ok: Oracle)
      requires Shows(m)
      modifies `overrideMode, `pidEvMask
      ensures WellFormed(m.pids) && Shows(Noted(m, OverrideSet(mode), ok))
    {
      hide Now, WellFormed, RestEmpty, Rings;
      if overrideMode != mode {
        overrideMode := mode;
        SetFlags(pidEvMask.(overriding := true));
      }
    }

    method ConfigParameterSetNotify(batch: seq<Entry>, ghost m: Monitor, ghost ok: Oracle)
      requires Shows(m)
      modifies `clientConfig, `pidEvMask
      ensures WellFormed(m.pids) && Shows(Noted(m, Requested(batch), ok))
    {
      hide Now, WellFormed, RestEmpty, Rings;
      clientConfig := batch[..Min(MAX_PID_INSTANCES_SUPPORTED, |batch|)];
      if |clientConfig| > 0 {
        SetFlags(pidEvMask.(config := true));
      }
    }

    /** The timer of a group goes off, which it does only while it runs. */
    method PidTimerExpired(g: nat)
      requires Valid()
      modifies `samplingGroupMask, `pidEvMask, samplingGroups
      ensures Valid() && Now() == TimerExpires(old(Now()), g)
    {
      hide Now, WellFormed, RestEmpty, Rings, Set;
      if g < samplingGroupCount && samplingGroups[g].armed {
        PositivePeriod(Now(), g);
        SetGroup(g, samplingGroups[g].(armed := false));
        MarkPending(g);
        SetFlags(pidEvMask.(timer := true));
      }
    }

    method SetFlags(flags: Flags)
      requires Valid()
      modifies `pidEvMask
      ensures Valid() && Now() == old(Now()).(flags := flags)
    {
      hide WellFormed, RestEmpty, Rings, Clients;
      pidEvMask := flags;
      SameShape(old(Now()), Now());
    }

    method MarkPending(g: nat)
      requires Valid()
      modifies `samplingGroupMask
      ensures Valid() && Now() == old(Now()).(pending := Set(old(Now()).pending, g))
    {
      hide WellFormed, RestEmpty, Rings, Clients, Set;
      samplingGroupMask := Set(samplingGroupMask, g);
      SameShape(old(Now()), Now());
    }

    /** What other threads call. */
    method NotifyOne(note: Note, ghost m: Monitor, ghost ok: Oracle)
      requires Shows(m)
      modifies `overrideMode, `clientConfig, `threshReachedMask, `samplingGroupMask, `pidEvMask, samplingGroups
      ensures WellFormed(m.pids) && Shows(Noted(m, note, ok))
    {
      hide Now, WellFormed, TimerExpires, Set, RestEmpty, Rings;
      match note {
        case OverrideSet(mode) => OverrideNotify(mode, m, ok);
        case Requested(batch) => ConfigParameterSetNotify(batch, m, ok);
        case TimerExpired(g) => PidTimerExpired(g);
        case ThreshReached(i) => PidThreshNotify(i);
      }
    }

    method Notify(notes: seq<Note>, ghost m: Monitor, ghost ok: Oracle)
      requires Shows(m)
      modifies `overrideMode, `clientConfig, `threshReachedMask, `samplingGroupMask, `pidEvMask, samplingGroups
      ensures WellFormed(m.pids) && Shows(NotedAll(m, notes, ok))
    {
      hide Now, WellFormed, Noted, RestEmpty, Rings;
      var k := 0;
      assert notes[..0] == [];
      while k < |notes|
        invariant 0 <= k <= |notes| && Shows(NotedAll(m, notes[..k], ok))
      {
        assert notes[..k + 1][..k] == notes[..k];
        NotifyOne(notes[k], NotedAll(m, notes[..k], ok), ok);
        k := k + 1;
      }
      assert notes[..k] == notes;
    }

    /** Run a handler, if the flag for it was set. */
    method Handle(flag: bool, e: Event, ghost m: Monitor, ok: Oracle)
      requires Shows(m) && (e.Override? || e.Timer? || e.Thresh? || e.ConfigSet?)
      modifies `samplingGroupCount, `threshReachedMask, `samplingGroupMask, `pidEvMask, `timerCalls
      modifies pidAlgoClnt, samplingGroups, Rings()
      ensures WellFormed(m.pids) && Shows(DoIf(m, flag, e, ok))
    {
      hide Now, WellFormed, OnOverride, OnTimer, OnThresh, OnConfig, AllValid, Atomic, RestEmpty, Rings;
      if flag {
        match e {
          case Override(mode) => HandleOverrideSig(mode);
          case Timer(clockOk, temps, elapsed) => HandleTimerSig(clockOk, temps, elapsed, ok);
          case Thresh(temps) => HandleThreshSig(temps, ok);
          case ConfigSet(batch) => HandleConfigSetSig(batch, ok);
        }
      }
    }

    /** The flags are copied and cleared. */
    method CopyFlags(ghost m: Monitor, ghost ok: Oracle) returns (local: Flags)
      requires Shows(m)
      modifies `pidEvMask
      ensures WellFormed(m.pids) && Shows(Do(m, Woken, ok)) && local == m.pids.flags
    {
      hide Now, WellFormed, RestEmpty, Rings;
      local := pidEvMask;
      SetFlags(NO_FLAGS);
    }

    lemma Shown(m: Monitor)
      requires Shows(m)
      ensures overrideMode == m.mode && clientConfig == m.batch && WellFormed(m.pids)
    {
    }

    /** One turn of the loop. */
    method Turn(w: Wake, ghost m: Monitor, ok: Oracle)
      requires Shows(m)
      modifies this, pidAlgoClnt, samplingGroups, Rings()
      ensures WellFormed(m.pids) && Shows(OnWake(m, w, ok))
    {
      hide Shows, WellFormed, NotedAll, DoIf, Do, Rings;
      Notify(w.before, m, ok);
      ghost var m0 := NotedAll(m, w.before, ok);
      var local := CopyFlags(m0, ok);
      ghost var m1 := Do(m0, Woken, ok);
      Shown(m1);
      Handle(local.overriding, Override(overrideMode), m1, ok);
      ghost var h2 := DoIf(m1, local.overriding, Override(m1.mode), ok);
      Notify(w.afterOverride, h2, ok);
      ghost var m2 := NotedAll(h2, w.afterOverride, ok);
      var timer := Timer(w.clockOk, w.timerTemps, w.elapsed);
      Handle(local.timer, timer, m2, ok);
      ghost var h3 := DoIf(m2, local.timer, timer, ok);
      Notify(w.afterTimer, h3, ok);
      ghost var m3 := NotedAll(h3, w.afterTimer, ok);
      Handle(local.thresh, Thresh(w.threshTemps), m3, ok);
      ghost var h4 := DoIf(m3, local.thresh, Thresh(w.threshTemps), ok);
      Notify(w.afterThresh, h4, ok);
      ghost var m4 := NotedAll(h4, w.afterThresh, ok);
      Shown(m4);
      Handle(local.config, ConfigSet(clientConfig), m4, ok);
    }

    method SetAllThresholds()
      requires Valid()
      modifies `threshReachedMask
      ensures Valid() && Now() == old(Now()).(reached := FirstBits(|old(Now()).clients|))
    {
      hide WellFormed, RestEmpty, Rings, Clients, FirstBits;
      threshReachedMask := FirstBits(pidClntCnt);
      SameShape(old(Now()), Now());
    }

    /** The thread, from start-up through any turns: it does what PidMonitor says, so it is a
        run of the handlers, keeps their invariant, and if timer calls and the clock do not
        fail it loses no notification and goes on sampling whoever mitigates. */
    method PidAlgoMonitor(ghost es: seq<Init>, temps: Temps, wakes: seq<Wake>, ok: Oracle)
      requires forall e | e in es :: GoodInit(e)
      requires Valid() && Now() == Boot(es) && !overrideMode && clientConfig == []
      modifies this, pidAlgoClnt, samplingGroups, Rings()
      ensures var m := Monitored(Boot(es), temps, wakes, ok);
              Shows(m) && Now() == Run(Boot(es), m.trace, ok)
      ensures Inv(Now()) && (AlwaysOk(ok) ==> Timers(Now()))
      ensures (forall w | w in wakes :: w.clockOk) ==>
                Heard(Now(), NO_FLAGS) &&
                (AlwaysOk(ok) ==> forall i | 0 <= i < pidClntCnt && Now().clients[i].mitigating :: Sampling(Now(), i))
    {
      hide Now, RestEmpty, Rings, WellFormed, Boot, GoodInit, OnWake, OnOverride, OnThresh, Inv,
           Timers, Heard, Sampling, Run;
      SetAllThresholds();
      HandleOverrideSig(overrideMode);
      HandleThreshSig(temps, ok);
      var k := 0;
      assert wakes[..0] == [];
      while k < |wakes|
        invariant 0 <= k <= |wakes| && Shows(Monitored(Boot(es), temps, wakes[..k], ok))
      {
        assert wakes[..k + 1][..k] == wakes[..k];
        Turn(wakes[k], Monitored(Boot(es), temps, wakes[..k], ok), ok);
        k := k + 1;
      }
      assert wakes[..k] == wakes;
      MonitorSafe(es, temps, wakes, ok);
    }
  }
}
