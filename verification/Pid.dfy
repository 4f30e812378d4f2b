/** The controllers of thermal-engine/pid_algorithm.c: up to 32 clients, each mitigating or
    not, sharing one timer per sampling period. This module says what each handler does to
    the whole state; PidInvariant says what all of them keep, PidBatch what a configuration
    change leaves behind, and PidCode holds the handlers as the source has them. */
module Pid {
  import opened Bitmask
  import opened ErrorRing
  import opened Numbers

  const MAX_PID_INSTANCES_SUPPORTED := 32
  const SAMPLING_MS_MINIMUM := 50
  const PID_SAMPLE_PERIOD := 1000000

  datatype Setting = Setting(setPoint: int, setPointClr: int, overshoot: int, unitsPerC: int,
                             pConst: real, iConst: real, dConst: real)

  datatype Client = Client(
    desc: string,
    setting: Setting,
    minOpLvl: int,
    maxOpLvl: int,
    devOpLvl: int,
    mitigating: bool,      // state
    errs: seq<int>,        // the error history, newest first
    setPoint: int,
    setPointClr: int,
    prevAdjustment: int,
    disabled: bool,
    group: nat)            // sampling_group_id

  /** `value` is the period last put into timer_val; `armed` says whether the one-shot
      timer itself is running. */
  datatype Group = Group(sampling: int, mask: bv32, enabled: bool, value: int, armed: bool)

  /** pid_ev_mask, what the monitor thread is to be woken for: a field for each bit. */
  datatype Flags = Flags(overriding: bool, timer: bool, thresh: bool, config: bool)

  const NO_FLAGS := Flags(false, false, false, false)

  datatype Pids = Pids(
    clients: seq<Client>,
    groups: seq<Group>,
    reached: bv32,         // thresh_reached_mask
    pending: bv32,         // sampling_group_mask
    flags: Flags,
    calls: nat)            // timer system calls made so far

  /** Which timer calls succeed. */
  type Oracle = nat -> bool

  /** What one read of each client's sensor returns. */
  type Temps = nat -> int

  predicate WellFormed(p: Pids) {
    && |p.clients| <= MAX_PID_INSTANCES_SUPPORTED && |p.groups| <= MAX_PID_INSTANCES_SUPPORTED
    && (forall i | 0 <= i < |p.clients| :: p.clients[i].group < |p.groups| && |p.clients[i].errs| == I_SAMPLES)
    && (forall g | 0 <= g < |p.groups| :: p.groups[g].sampling > 0)
  }

  lemma {:induction false} WellFormedAt(p: Pids, i: nat)
    requires WellFormed(p) && i < |p.clients|
    ensures p.clients[i].group < |p.groups| && |p.clients[i].errs| == I_SAMPLES
  {
  }

  lemma {:induction false} PositivePeriod(p: Pids, g: nat)
    requires WellFormed(p) && g < |p.groups|
    ensures p.groups[g].sampling > 0
  {
  }

  // -------------------------------------------------------------------- timers

  function WithClient(p: Pids, i: nat, c: Client): (q: Pids)
    requires i < |p.clients|
    ensures |q.clients| == |p.clients| && q.groups == p.groups
    ensures WellFormed(p) && c.group < |p.groups| && |c.errs| == I_SAMPLES ==> WellFormed(q)
  {
    p.(clients := p.clients[i := c])
  }

  function WithGroup(p: Pids, g: nat, group: Group): (q: Pids)
    requires g < |p.groups|
    ensures q.clients == p.clients && |q.groups| == |p.groups|
    ensures WellFormed(p) && group.sampling > 0 ==> WellFormed(q)
  {
    p.(groups := p.groups[g := group])
  }

  /** pid_settimer: start, or with a value of zero stop, the timer of a group. */
  function SetTimer(p: Pids, g: nat, ok: Oracle): (r: (Pids, bool))
    requires g < |p.groups|
    ensures r.0.clients == p.clients && |r.0.groups| == |p.groups| && (WellFormed(p) ==> WellFormed(r.0))
    ensures forall k | 0 <= k < |p.groups| :: r.0.groups[k].sampling == p.groups[k].sampling
  {
    var p1 := p.(calls := p.calls + 1);
    if ok(p.calls) then (WithGroup(p1, g, p.groups[g].(armed := p.groups[g].value != 0)), true) else (p1, false)
  }

  function Enable(p: Pids, g: nat, ok: Oracle): (r: (Pids, bool))
    requires g < |p.groups|
    ensures r.0.clients == p.clients && |r.0.groups| == |p.groups| && (WellFormed(p) ==> WellFormed(r.0))
  {
    var (p1, done) := SetTimer(WithGroup(p, g, p.groups[g].(value := p.groups[g].sampling)), g, ok);
    (if done then WithGroup(p1, g, p1.groups[g].(enabled := true)) else p1, done)
  }

  function Disable(p: Pids, g: nat, ok: Oracle): (q: Pids)
    requires g < |p.groups|
    ensures q.clients == p.clients && |q.groups| == |p.groups| && (WellFormed(p) ==> WellFormed(q))
  {
    var (p1, r) := SetTimer(WithGroup(p, g, p.groups[g].(value := 0)), g, ok);
    if r then WithGroup(p1, g, p1.groups[g].(enabled := false)) else p1
  }

  function Join(p: Pids, g: nat, i: nat): (q: Pids)
    requires g < |p.groups|
    ensures q.clients == p.clients && |q.groups| == |p.groups| && (WellFormed(p) ==> WellFormed(q))
  {
    WithGroup(p, g, p.groups[g].(mask := Set(p.groups[g].mask, i)))
  }

  function Leave(p: Pids, g: nat, i: nat): (q: Pids)
    requires g < |p.groups|
    ensures q.clients == p.clients && |q.groups| == |p.groups| && (WellFormed(p) ==> WellFormed(q))
  {
    WithGroup(p, g, p.groups[g].(mask := Clear(p.groups[g].mask, i)))
  }

  /** Leave a group, and stop its timer if nobody is left. */
  function LeaveAndStop(p: Pids, g: nat, i: nat, ok: Oracle): (q: Pids)
    requires g < |p.groups|
    ensures q.clients == p.clients && |q.groups| == |p.groups| && (WellFormed(p) ==> WellFormed(q))
  {
    hide Disable, Leave;
    var p1 := Leave(p, g, i);
    if p1.groups[g].mask == 0 && p1.groups[g].enabled then Disable(p1, g, ok) else p1
  }

  // ------------------------------------------------------------ configuration

  function Flushed(): seq<int> {
    [0, 0, 0]
  }

  /** pid_thresh_notify, and the flush that goes with it. */
  function Renotify(p: Pids, i: nat): (q: Pids)
    requires i < |p.clients|
    ensures |q.clients| == |p.clients| && q.groups == p.groups && (WellFormed(p) ==> WellFormed(q))
  {
    WithClient(p.(reached := Set(p.reached, i), flags := p.flags.(thresh := true)), i, p.clients[i].(errs := Flushed()))
  }

  predicate CanEnable(p: Pids, c: Client)
    requires c.group < |p.groups|
  {
    c.setPoint > c.setPointClr && p.groups[c.group].sampling >= SAMPLING_MS_MINIMUM
  }

  /** handle_disable_config_adjust */
  function DisableAdjust(p: Pids, i: nat, disable: bool, ok: Oracle): (r: (Pids, bool))
    requires WellFormed(p) && i < |p.clients|
    ensures WellFormed(r.0) && |r.0.clients| == |p.clients| && |r.0.groups| == |p.groups|
  {
    hide WithClient, LeaveAndStop, WellFormed;
    WellFormedAt(p, i);
    var c := p.clients[i];
    if !disable then
      if !CanEnable(p, c) then (p, false) else (WithClient(p, i, c.(disabled := false)), true)
    else
      var c1 := c.(devOpLvl := c.maxOpLvl, mitigating := false, prevAdjustment := 0, disabled := true);
      (LeaveAndStop(WithClient(p, i, c1), c.group, i, ok), true)
  }

  /** Where a sequence first satisfies a test, or its length if it never does. */
  function FirstIndex<T>(s: seq<T>, test: T -> bool): (i: nat)
    ensures i <= |s| && (i < |s| ==> test(s[i]))
    ensures forall k | 0 <= k < i :: !test(s[k])
  {
    if s == [] then 0
    else
      var i := FirstIndex(s[..|s| - 1], test);
      if i < |s| - 1 then i else if test(s[|s| - 1]) then |s| - 1 else |s|
  }

  /** The group with a sampling period, or the number of groups if there is none. */
  function FindGroup(groups: seq<Group>, sampling: int): (g: nat)
    ensures g <= |groups| && (g < |groups| ==> groups[g].sampling == sampling)
    ensures forall k | 0 <= k < g :: groups[k].sampling != sampling
  {
    FirstIndex(groups, (group: Group) => group.sampling == sampling)
  }

  /** The group is there from now on, whether or not its timer could be created. */
  function WithNewGroup(p: Pids, sampling: int, created: bool): Pids {
    p.(groups := p.groups + [Group(sampling, 0, false, if created then sampling else 0, false)], calls := p.calls + 1)
  }

  /** A client that is sampled takes its bit along to group `s`; any other just moves. */
  function Move(p: Pids, i: nat, s: nat, ok: Oracle): (r: (Pids, bool))
    requires WellFormed(p) && i < |p.clients| && s < |p.groups|
    ensures WellFormed(r.0) && |r.0.clients| == |p.clients| && |r.0.groups| == |p.groups|
  {
    hide WithClient, LeaveAndStop, Leave, Join, Enable, WellFormed;
    WellFormedAt(p, i);
    var c := p.clients[i];
    if c.disabled || !Has(p.groups[c.group].mask, i) then (WithClient(p, i, c.(group := s)), true)
    else
      var p1 := Join(p, s, i);
      var (p2, done) := if p1.groups[s].mask != 0 && !p1.groups[s].enabled then Enable(p1, s, ok) else (p1, true);
      if !done then (Leave(p2, s, i), false)
      else (WithClient(LeaveAndStop(p2, c.group, i, ok), i, c.(group := s)), true)
  }

  /** handle_sampling_adjust */
  function SamplingAdjust(p: Pids, i: nat, sampling: int, ok: Oracle): (r: (Pids, bool))
    requires WellFormed(p) && i < |p.clients|
    ensures WellFormed(r.0) && |r.0.clients| == |p.clients|
  {
    hide Move;
    if sampling < SAMPLING_MS_MINIMUM then (p, false)
    else
      var s := FindGroup(p.groups, sampling);
      if s < |p.groups| then Move(p, i, s, ok)
      else if |p.groups| == MAX_PID_INSTANCES_SUPPORTED then (p, false)
      else
        var p1 := WithNewGroup(p, sampling, ok(p.calls));
        if !ok(p.calls) then (p1, false) else Move(p1, i, s, ok)
  }

  // --------------------------------------------------------------- thresholds

  /** The client after its temperature has been compared: hysteresis at the clear point. */
  function ThreshedClient(c: Client, temp: int): (d: Client)
    ensures d.group == c.group && (|c.errs| == I_SAMPLES ==> |d.errs| == I_SAMPLES)
  {
    var flips := if c.mitigating then temp <= c.setPointClr else temp >= c.setPointClr;
    var d := if !flips then c
             else if c.mitigating then c.(mitigating := false)
             else c.(mitigating := true, devOpLvl := c.maxOpLvl);
    if d.mitigating then d else d.(prevAdjustment := 0, errs := Flushed())
  }

  /** handle_thresh_sig for one client whose threshold was reached. */
  function ThreshClient(p: Pids, i: nat, temp: int): (q: Pids)
    requires WellFormed(p) && i < |p.clients|
    ensures WellFormed(q) && |q.clients| == |p.clients| && |q.groups| == |p.groups|
  {
    hide WithClient, Join, Leave;
    WellFormedAt(p, i);
    var c := p.clients[i];
    var p1 := p.(reached := Clear(p.reached, i));
    if !Has(p.reached, i) then p
    else if c.disabled then p1
    else
      var d := ThreshedClient(c, temp);
      if d.mitigating then Join(WithClient(p1, i, d), c.group, i) else Leave(WithClient(p1, i, d), c.group, i)
  }

  function ThreshClients(p: Pids, temps: Temps, n: nat): (q: Pids)
    requires WellFormed(p) && n <= |p.clients|
    ensures WellFormed(q) && |q.clients| == |p.clients| && |q.groups| == |p.groups|
  {
    hide ThreshClient, WellFormed;
    if n == 0 then p else ThreshClient(ThreshClients(p, temps, n - 1), n - 1, temps(n - 1))
  }

  /** ... and for one group: its timer follows its mask. */
  function ThreshGroup(p: Pids, g: nat, ok: Oracle): (q: Pids)
    requires g < |p.groups|
    ensures q.clients == p.clients && |q.groups| == |p.groups| && (WellFormed(p) ==> WellFormed(q))
  {
    hide Enable, Disable;
    if p.groups[g].mask != 0 then
      if p.groups[g].enabled then p else Enable(p, g, ok).0
    else if !p.groups[g].enabled then p else Disable(p, g, ok)
  }

  function ThreshGroups(p: Pids, ok: Oracle, n: nat): (q: Pids)
    requires WellFormed(p) && n <= |p.groups|
    ensures WellFormed(q) && q.clients == p.clients && |q.groups| == |p.groups|
  {
    hide ThreshGroup, WellFormed;
    if n == 0 then p else ThreshGroup(ThreshGroups(p, ok, n - 1), n - 1, ok)
  }

  function OnThresh(p: Pids, temps: Temps, ok: Oracle): (q: Pids)
    requires WellFormed(p)
    ensures WellFormed(q) && |q.clients| == |p.clients| && |q.groups| == |p.groups|
  {
    hide ThreshGroups, ThreshClients, WellFormed;
    ThreshGroups(ThreshClients(p, temps, |p.clients|), ok, |p.groups|)
  }

  // ----------------------------------------------------------------- override

  function OverrideClient(p: Pids, i: nat, mode: bool): (q: Pids)
    requires WellFormed(p) && i < |p.clients|
    ensures WellFormed(q) && |q.clients| == |p.clients| && |q.groups| == |p.groups|
  {
    hide WithClient, Renotify, WellFormed;
    WellFormedAt(p, i);
    var c := p.clients[i];
    if c.disabled || c.setting.overshoot == 0 then p
    else
      var shift := if mode then c.setting.overshoot else 0;
      Renotify(WithClient(p, i, c.(setPoint := c.setting.setPoint + shift, setPointClr := c.setting.setPointClr + shift,
                                   prevAdjustment := 0)), i)
  }

  function OnOverride(p: Pids, mode: bool, n: nat): (q: Pids)
    requires WellFormed(p) && n <= |p.clients|
    ensures WellFormed(q) && |q.clients| == |p.clients| && |q.groups| == |p.groups|
  {
    hide OverrideClient, WellFormed;
    if n == 0 then p else OverrideClient(OnOverride(p, mode, n - 1), n - 1, mode)
  }

  // -------------------------------------------------------------------- timer

  /** A real converted to `int`: towards zero. */
  function Trunc(r: real): int {
    if r >= 0.0 then r.Floor else -((-r).Floor)
  }

  function Proportional(k: real, e0: real, e1: real): real {
    k * (e0 - e1)
  }

  function Integral(k: real, e0: real, ts: real): real {
    k * e0 * ts
  }

  function Derivative(k: real, e0: real, e1: real, e2: real, ts: real): real
    requires ts > 0.0
  {
    (k / ts) * (e0 - 2.0 * e1 + e2)
  }

  function InUnits(x: real, unitsPerC: int): int {
    Trunc(x * unitsPerC as real)
  }

  /** The three terms, errors in degrees and the period in seconds, in units of the device. */
  function Correction(s: Setting, errs: seq<int>, sampling: int): int
    requires |errs| == I_SAMPLES && sampling > 0
  {
    var e0, e1, e2 := errs[0] as real / 1000.0, errs[1] as real / 1000.0, errs[2] as real / 1000.0;
    var ts := sampling as real / 1000.0;
    InUnits(Proportional(s.pConst, e0, e1) + Integral(s.iConst, e0, ts) + Derivative(s.dConst, e0, e1, e2, ts),
            s.unitsPerC)
  }

  lemma {:induction false} NoDerivative(k: real, e0: real, e1: real, e2: real, ts: real)
    requires ts > 0.0 && e0 - e1 == e1 - e2
    ensures Derivative(k, e0, e1, e2, ts) == 0.0
  {
    assert e0 - 2.0 * e1 + e2 == 0.0;
  }

  lemma {:induction false} NoProportional(k: real, e: real)
    ensures Proportional(k, e, e) == 0.0
  {
    assert e - e == 0.0;
  }

  lemma IntegralSign(k: real, e: real, ts: real)
    requires k >= 0.0 && ts > 0.0
    ensures e >= 0.0 ==> Integral(k, e, ts) >= 0.0
    ensures e <= 0.0 ==> Integral(k, e, ts) <= 0.0
  {
    SameSign(k, e);
    SameSign(ts, k * e);
  }

  lemma SameSign(k: real, x: real)
    requires k >= 0.0
    ensures (x >= 0.0 ==> k * x >= 0.0) && (x <= 0.0 ==> k * x <= 0.0)
  {
  }

  lemma UnitsSign(x: real, unitsPerC: int)
    requires unitsPerC >= 0
    ensures (x >= 0.0 ==> InUnits(x, unitsPerC) >= 0) && (x <= 0.0 ==> InUnits(x, unitsPerC) <= 0)
  {
    SameSign(unitsPerC as real, x);
  }

  /** Errors that change at a steady rate leave no derivative term. */
  lemma {:induction false} SteadyRate(s: Setting, errs: seq<int>, sampling: int)
    requires |errs| == I_SAMPLES && sampling > 0 && errs[0] - errs[1] == errs[1] - errs[2]
    ensures Correction(s, errs, sampling) == Correction(s.(dConst := 0.0), errs, sampling)
  {
    hide InUnits, Proportional, Integral, Derivative;
    var e0, e1, e2 := errs[0] as real / 1000.0, errs[1] as real / 1000.0, errs[2] as real / 1000.0;
    NoDerivative(s.dConst, e0, e1, e2, sampling as real / 1000.0);
    NoDerivative(0.0, e0, e1, e2, sampling as real / 1000.0);
  }

  /** An error that does not change leaves the integral term alone, and so, with gains and
      units that are not negative, moves the level towards the set point. */
  lemma {:induction false} SteadyError(s: Setting, errs: seq<int>, sampling: int)
    requires |errs| == I_SAMPLES && sampling > 0 && errs[0] == errs[1] == errs[2]
    requires s.iConst >= 0.0 && s.unitsPerC >= 0
    ensures Correction(s, errs, sampling) == Correction(s.(pConst := 0.0, dConst := 0.0), errs, sampling)
    ensures errs[0] >= 0 ==> Correction(s, errs, sampling) >= 0
    ensures errs[0] <= 0 ==> Correction(s, errs, sampling) <= 0
  {
    hide InUnits, Proportional, Integral, Derivative;
    var e, ts := errs[0] as real / 1000.0, sampling as real / 1000.0;
    NoDerivative(s.dConst, e, e, e, ts);
    NoDerivative(0.0, e, e, e, ts);
    NoProportional(s.pConst, e);
    NoProportional(0.0, e);
    IntegralSign(s.iConst, e, ts);
    UnitsSign(Integral(s.iConst, e, ts), s.unitsPerC);
  }

  /** Crossing or meeting the set point drops the accumulated adjustment. */
  predicate Resets(errs: seq<int>)
    requires |errs| == I_SAMPLES
  {
    errs[0] == 0 || (errs[0] > 0 && errs[1] < 0) || (errs[0] < 0 && errs[1] > 0)
  }

  /** The level after an adjustment, and what of the adjustment is remembered. */
  function Adjusted(c: Client, adjustment: int): Client {
    var lvl := c.devOpLvl + adjustment;
    if lvl < c.minOpLvl then
      c.(devOpLvl := if c.minOpLvl > c.maxOpLvl then c.maxOpLvl else c.minOpLvl, prevAdjustment := 0)
    else if lvl > c.maxOpLvl then c.(devOpLvl := c.maxOpLvl, prevAdjustment := 0)
    else c.(devOpLvl := lvl, prevAdjustment := adjustment)
  }

  /** What one more error, already in the history, makes of a mitigating client. */
  function Regulated(c: Client, sampling: int): (d: Client)
    requires |c.errs| == I_SAMPLES && sampling > 0
    ensures d.errs == c.errs && d.group == c.group
  {
    var c1 := c.(prevAdjustment := if Resets(c.errs) then 0 else c.prevAdjustment);
    if c.errs == [0, 0, 0] then c1 else Adjusted(c1, c1.prevAdjustment + Correction(c.setting, c.errs, sampling))
  }

  /** One sample of one mitigating client. */
  function Sampled(c: Client, temp: int, sampleCnt: int, sampling: int): (d: Client)
    requires |c.errs| == I_SAMPLES && sampling > 0
    ensures |d.errs| == I_SAMPLES && d.group == c.group
  {
    Regulated(c.(errs := Pushed(c.errs, c.setPoint - temp, sampleCnt)), sampling)
  }

  function TimerClient(p: Pids, g: nat, i: nat, temp: int, sampleCnt: int): (q: Pids)
    requires WellFormed(p) && g < |p.groups| && i < |p.clients|
    ensures WellFormed(q) && |q.clients| == |p.clients| && q.groups == p.groups && q.pending == p.pending
  {
    hide Sampled;
    var c := p.clients[i];
    if c.disabled || !Has(p.groups[g].mask, i) || !c.mitigating then p
    else WithClient(p, i, Sampled(c, temp, sampleCnt, p.groups[g].sampling))
  }

  function TimerClients(p: Pids, g: nat, temps: Temps, sampleCnt: int, n: nat): (q: Pids)
    requires WellFormed(p) && g < |p.groups| && n <= |p.clients|
    ensures WellFormed(q) && |q.clients| == |p.clients| && q.groups == p.groups && q.pending == p.pending
  {
    hide TimerClient, WellFormed;
    if n == 0 then p else TimerClient(TimerClients(p, g, temps, sampleCnt, n - 1), g, n - 1, temps(n - 1), sampleCnt)
  }

  function SampleCount(elapsed: int, sampling: int): int
    requires sampling > 0
  {
    var n := CDiv(elapsed, sampling);
    if n > I_SAMPLES then I_SAMPLES else n
  }

  /** One group of those expired when the handler began; `elapsed` is in milliseconds. */
  function TimerGroup(p: Pids, g: nat, expired: bv32, temps: Temps, elapsed: int): (q: Pids)
    requires WellFormed(p) && g < |p.groups|
    ensures WellFormed(q) && |q.clients| == |p.clients| && q.groups == p.groups
  {
    hide TimerClients;
    if !Has(expired, g) then p
    else
      var q := TimerClients(p, g, temps, SampleCount(elapsed, p.groups[g].sampling), |p.clients|);
      q.(pending := Clear(q.pending, g))
  }

  function TimerGroups(p: Pids, expired: bv32, temps: nat -> Temps, elapsed: nat -> int, n: nat): (q: Pids)
    requires WellFormed(p) && n <= |p.groups|
    ensures WellFormed(q) && |q.clients| == |p.clients| && q.groups == p.groups
  {
    hide TimerGroup, WellFormed;
    if n == 0 then p
    else TimerGroup(TimerGroups(p, expired, temps, elapsed, n - 1), n - 1, expired, temps(n - 1), elapsed(n - 1))
  }

  function Restart(p: Pids, expired: bv32, ok: Oracle, n: nat): (q: Pids)
    requires WellFormed(p) && n <= |p.groups|
    ensures WellFormed(q) && q.clients == p.clients && |q.groups| == |p.groups|
  {
    hide SetTimer, WellFormed;
    if n == 0 then p
    else
      var q := Restart(p, expired, ok, n - 1);
      if Has(expired, n - 1) then SetTimer(q, n - 1, ok).0 else q
  }

  function OnTimer(p: Pids, clockOk: bool, temps: nat -> Temps, elapsed: nat -> int, ok: Oracle): (q: Pids)
    requires WellFormed(p)
    ensures WellFormed(q) && |q.clients| == |p.clients| && |q.groups| == |p.groups|
  {
    hide Restart, TimerGroups, WellFormed;
    if !clockOk then p
    else Restart(TimerGroups(p, p.pending, temps, elapsed, |p.groups|), p.pending, ok, |p.groups|)
  }

  // ------------------------------------------------------------- configuration

  const DISABLE_FIELD: bv32 := 0x1
  const SAMPLING_FIELD: bv32 := 0x2
  const SET_POINT_FIELD: bv32 := 0x4
  const SET_POINT_CLR_FIELD: bv32 := 0x8
  const INT_MIN := -0x8000_0000

  datatype Entry = Entry(desc: string, fieldsMask: bv32, disable: int, sampling: int, setPoint: int, setPointClr: int)

  predicate Names(e: Entry, field: bv32) {
    e.fieldsMask & field != 0
  }

  /** The first client with a description, or the number of clients. */
  function FindClient(clients: seq<Client>, desc: string): (i: nat)
    ensures i <= |clients| && (i < |clients| ==> clients[i].desc == desc)
    ensures forall k | 0 <= k < i :: clients[k].desc != desc
  {
    FirstIndex(clients, (c: Client) => c.desc == desc)
  }

  predicate ValidSetPoint(e: Entry, c: Client) {
    e.setPoint != INT_MIN
    && !(e.setPointClr != INT_MIN && e.setPoint <= e.setPointClr)
    && !(e.setPointClr == INT_MIN && e.setPoint <= c.setPointClr)
  }

  predicate ValidSetPointClr(e: Entry, c: Client) {
    e.setPointClr != INT_MIN
    && !(e.setPoint != INT_MIN && e.setPoint <= e.setPointClr)
    && !(e.setPoint == INT_MIN && e.setPointClr >= c.setPoint)
  }

  predicate ValidEntry(e: Entry, c: Client) {
    && e.fieldsMask != 0
    && (Names(e, DISABLE_FIELD) ==> 0 <= e.disable <= 1)
    && (Names(e, SAMPLING_FIELD) ==> e.sampling >= SAMPLING_MS_MINIMUM)
    && (Names(e, SET_POINT_FIELD) ==> ValidSetPoint(e, c))
    && (Names(e, SET_POINT_CLR_FIELD) ==> ValidSetPointClr(e, c))
  }

  /** validate_client_config: the client an entry is for, or the number of clients. */
  function Validate(p: Pids, e: Entry): (i: nat)
    ensures i <= |p.clients|
  {
    var i := FindClient(p.clients, e.desc);
    if i < |p.clients| && ValidEntry(e, p.clients[i]) then i else |p.clients|
  }

  predicate Changes(p: Pids, i: nat, e: Entry, field: bv32)
    requires WellFormed(p) && i < |p.clients|
  {
    var c := p.clients[i];
    Names(e, field) &&
    if field == DISABLE_FIELD then (e.disable == 1) != c.disabled
    else if field == SAMPLING_FIELD then e.sampling != p.groups[c.group].sampling
    else if field == SET_POINT_FIELD then e.setPoint != c.setPoint
    else e.setPointClr != c.setPointClr
  }

  /** The two steps of an entry that can fail, with what undoes the first. */
  function ApplyDisable(p: Pids, i: nat, e: Entry, ok: Oracle): (r: (Pids, bool, bool))
    requires WellFormed(p) && i < |p.clients|
    ensures WellFormed(r.0) && |r.0.clients| == |p.clients|
  {
    hide DisableAdjust, WellFormed, Changes;
    if !Changes(p, i, e, DISABLE_FIELD) then (p, true, false)
    else
      var (p1, r) := DisableAdjust(p, i, e.disable == 1, ok);
      (p1, r, r)
  }

  function ApplySampling(p: Pids, i: nat, e: Entry, ok: Oracle): (r: (Pids, bool, bool))
    requires WellFormed(p) && i < |p.clients|
    ensures WellFormed(r.0) && |r.0.clients| == |p.clients|
  {
    hide SamplingAdjust, WellFormed, Changes;
    if !Changes(p, i, e, SAMPLING_FIELD) then (p, true, false)
    else
      var (p1, r) := SamplingAdjust(p, i, e.sampling, ok);
      (p1, r, r)
  }

  /** The two that cannot. */
  function ApplySetPoints(p: Pids, i: nat, e: Entry): (q: Pids)
    requires WellFormed(p) && i < |p.clients|
    ensures WellFormed(q) && |q.clients| == |p.clients| && q.groups == p.groups
  {
    hide WithClient, Changes;
    var c := p.clients[i];
    var c1 := if Changes(p, i, e, SET_POINT_FIELD) then c.(setPoint := e.setPoint) else c;
    var c2 := if Changes(p, i, e, SET_POINT_CLR_FIELD) then c1.(setPointClr := e.setPointClr) else c1;
    WithClient(p, i, c2)
  }

  /** One entry of a batch, once the whole batch has been found valid. */
  function ApplyEntry(p: Pids, i: nat, e: Entry, ok: Oracle): (q: Pids)
    requires WellFormed(p) && i < |p.clients|
    ensures WellFormed(q) && |q.clients| == |p.clients|
  {
    hide ApplyDisable, ApplySampling, ApplySetPoints, DisableAdjust, Renotify, WellFormed, Changes;
    var was := p.clients[i].disabled;
    var (p1, ok1, disableDone) := ApplyDisable(p, i, e, ok);
    if !ok1 then p1
    else
      var (p2, ok2, samplingDone) := ApplySampling(p1, i, e, ok);
      if !ok2 then
        if disableDone then Renotify(DisableAdjust(p2, i, was, ok).0, i) else p2
      else
        var p3 := ApplySetPoints(p2, i, e);
        if disableDone || samplingDone || Changes(p2, i, e, SET_POINT_FIELD) || Changes(p2, i, e, SET_POINT_CLR_FIELD)
        then Renotify(p3, i) else p3
  }

  function ApplyBatch(p: Pids, targets: seq<nat>, batch: seq<Entry>, ok: Oracle, n: nat): (q: Pids)
    requires WellFormed(p) && n <= |batch| == |targets|
    requires forall k | 0 <= k < |targets| :: targets[k] < |p.clients|
    ensures WellFormed(q) && |q.clients| == |p.clients|
  {
    hide ApplyEntry, WellFormed;
    if n == 0 then p else ApplyEntry(ApplyBatch(p, targets, batch, ok, n - 1), targets[n - 1], batch[n - 1], ok)
  }

  function Targets(p: Pids, batch: seq<Entry>): (t: seq<nat>)
    ensures |t| == |batch|
  {
    seq(|batch|, k requires 0 <= k < |batch| => Validate(p, batch[k]))
  }

  predicate AllValid(p: Pids, batch: seq<Entry>) {
    forall k | 0 <= k < |batch| :: Validate(p, batch[k]) < |p.clients|
  }

  /** handle_config_set_sig */
  function OnConfig(p: Pids, batch: seq<Entry>, ok: Oracle): (q: Pids)
    requires WellFormed(p)
    ensures WellFormed(q) && |q.clients| == |p.clients|
  {
    if AllValid(p, batch) then ApplyBatch(p, Targets(p, batch), batch, ok, |batch|) else p
  }

  // ------------------------------------------------------------------ whole runs

  /** A controller as the configuration names it, once its sensor and device are found. */
  datatype Init = Init(desc: string, setting: Setting, minOpLvl: int, maxOpLvl: int, disable: bool, samplingPeriodMs: nat)

  /** What a device reports, and a period above zero: PidImport shows that no other is taken on. */
  predicate GoodInit(e: Init) {
    e.minOpLvl <= e.maxOpLvl && e.samplingPeriodMs > 0
  }

  /** pid_algo_init for one of them: join the group of its period, or make it. */
  function AddClient(p: Pids, e: Init): (q: Pids)
    requires WellFormed(p) && |p.groups| <= |p.clients| < MAX_PID_INSTANCES_SUPPORTED && GoodInit(e)
    ensures WellFormed(q) && |q.groups| <= |q.clients|
  {
    var period := if PID_SAMPLE_PERIOD < e.samplingPeriodMs then PID_SAMPLE_PERIOD else e.samplingPeriodMs;
    var g := FindGroup(p.groups, period);
    var c := Client(e.desc, e.setting, e.minOpLvl, e.maxOpLvl, e.maxOpLvl, false, Flushed(),
                    e.setting.setPoint, e.setting.setPointClr, 0, e.disable, g);
    p.(clients := p.clients + [c],
       groups := if g < |p.groups| then p.groups else p.groups + [Group(period, 0, false, period, false)])
  }

  function Boot(es: seq<Init>): (p: Pids)
    requires forall e | e in es :: GoodInit(e)
    ensures WellFormed(p) && |p.groups| <= |p.clients|
  {
    hide AddClient;
    if es == [] then Pids([], [], 0, 0, NO_FLAGS, 0)
    else
      var p := Boot(es[..|es| - 1]);
      if |p.clients| >= MAX_PID_INSTANCES_SUPPORTED then p else AddClient(p, es[|es| - 1])
  }

  /** What the monitor thread does, and what is done to the masks it reads. */
  datatype Event =
    | Override(mode: bool)     // the four handlers
    | Timer(clockOk: bool, temps: nat -> Temps, elapsed: nat -> int)
    | Thresh(at: Temps)
    | ConfigSet(batch: seq<Entry>)
    | Started                  // every threshold is to be set
    | Woken                    // the flags have been copied
    | Expired(group: nat)      // a timer goes off
    | Crossed(client: nat)     // a sensor reports its threshold
    | OverrideAsked
    | ConfigAsked

  function Step(p: Pids, e: Event, ok: Oracle): (q: Pids)
    requires WellFormed(p)
    ensures WellFormed(q)
  {
    match e
    case Override(mode) => OnOverride(p, mode, |p.clients|)
    case Timer(clockOk, temps, elapsed) => OnTimer(p, clockOk, temps, elapsed, ok)
    case Thresh(temps) => OnThresh(p, temps, ok)
    case ConfigSet(batch) => OnConfig(p, batch, ok)
    case Started => p.(reached := FirstBits(|p.clients|))
    case Woken => p.(flags := NO_FLAGS)
    case Expired(g) => TimerExpires(p, g)
    case Crossed(i) => p.(reached := Set(p.reached, i), flags := p.flags.(thresh := true))
    case OverrideAsked => p.(flags := p.flags.(overriding := true))
    case ConfigAsked => p.(flags := p.flags.(config := true))
  }

  /** Only a timer that is running goes off, and only once. */
  function TimerExpires(p: Pids, g: nat): (q: Pids)
    ensures WellFormed(p) ==> WellFormed(q)
  {
    if g < |p.groups| && p.groups[g].armed then
      WithGroup(p, g, p.groups[g].(armed := false)).(pending := Set(p.pending, g), flags := p.flags.(timer := true))
    else p
  }

  function Run(p: Pids, events: seq<Event>, ok: Oracle): (q: Pids)
    requires WellFormed(p)
    ensures WellFormed(q)
  {
    if events == [] then p else Step(Run(p, events[..|events| - 1], ok), events[|events| - 1], ok)
  }
}
