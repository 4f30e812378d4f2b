/** What the handlers of thermal-engine/pid_algorithm.c do to a controller, in readings,
    errors and levels: which are sampled, and how far a sample moves the level; when
    mitigation starts and stops; how an override shifts the set points; and that a change of
    configuration is acted on in the next turn of the thread. */
module PidEffects {
  import opened Bitmask
  import opened ErrorRing
  import opened Numbers
  import opened Pid
  import opened PidBatch
  import opened PidInvariant
  import opened PidMonitor

  // ------------------------------------------------------------ who is sampled

  lemma {:induction false} TimerClientsEffect(p: Pids, g: nat, temps: Temps, sampleCnt: int, n: nat)
    requires WellFormed(p) && g < |p.groups| && n <= |p.clients|
    ensures p.groups[g].sampling > 0
    ensures var q := TimerClients(p, g, temps, sampleCnt, n);
            forall k | 0 <= k < |p.clients| ::
              |p.clients[k].errs| == I_SAMPLES &&
              q.clients[k] == if k < n && Has(p.groups[g].mask, k) && p.clients[k].mitigating && !p.clients[k].disabled
                              then Sampled(p.clients[k], temps(k), sampleCnt, p.groups[g].sampling) else p.clients[k]
  {
    hide Has, Sampled, WellFormed;
    PositivePeriod(p, g);
    forall k | 0 <= k < |p.clients| ensures |p.clients[k].errs| == I_SAMPLES {
      WellFormedAt(p, k);
    }
    if n > 0 {
      TimerClientsEffect(p, g, temps, sampleCnt, n - 1);
    }
  }

  /** A client is sampled for a group exactly if it mitigates there. */
  predicate Due(p: Pids, expired: bv32, n: nat, i: nat)
    requires i < |p.clients|
  {
    p.clients[i].mitigating && p.clients[i].group < n && Has(expired, p.clients[i].group)
  }

  lemma {:induction false} TimerGroupsEffect(p: Pids, expired: bv32, temps: nat -> Temps, elapsed: nat -> int, n: nat,
                                             i: nat)
    requires Inv(p) && WellFormed(p) && n <= |p.groups| && i < |p.clients|
    ensures p.clients[i].group < |p.groups| && p.groups[p.clients[i].group].sampling > 0
    ensures |p.clients[i].errs| == I_SAMPLES
    ensures var q, c := TimerGroups(p, expired, temps, elapsed, n), p.clients[i];
            var period := p.groups[c.group].sampling;
            q.clients[i] == if Due(p, expired, n, i)
                            then Sampled(c, temps(c.group)(i), SampleCount(elapsed(c.group), period), period) else c
  {
    hide Has, Sampled, SampleCount, TimerClients, WellFormed, Inv;
    InvAt(p, i);
    PositivePeriod(p, p.clients[i].group);
    if n > 0 {
      TimerGroupsEffect(p, expired, temps, elapsed, n - 1, i);
      var q, g := TimerGroups(p, expired, temps, elapsed, n - 1), n - 1;
      assert Has(p.groups[g].mask, i) <==> Belongs(p, g, i);
      PositivePeriod(q, g);
      TimerClientsEffect(q, g, temps(g), SampleCount(elapsed(g), q.groups[g].sampling), |q.clients|);
      DisabledIdle(p, i);
    }
  }

  lemma {:induction false} DisabledIdle(p: Pids, i: nat)
    requires Inv(p) && i < |p.clients|
    ensures p.clients[i].disabled ==> !p.clients[i].mitigating
    ensures p.clients[i].minOpLvl <= p.clients[i].devOpLvl <= p.clients[i].maxOpLvl
  {
    InvAt(p, i);
  }

  // ------------------------------------------------------------ one sample

  /** How many whole periods have passed, as far as the history goes back. */
  function Periods(elapsed: int, period: int): nat {
    if elapsed < period then 0 else if elapsed < 2 * period then 1 else if elapsed < 3 * period then 2 else 3
  }

  lemma {:induction false} CountIsPeriods(elapsed: int, period: int)
    requires period > 0
    ensures Periods(elapsed, period) == Max(0, SampleCount(elapsed, period))
  {
    var q, r := elapsed / period, elapsed % period;
    assert elapsed == period * q + r && 0 <= r < period;
    if elapsed >= 0 {
      QuotientAt(period, q, r);
    }
  }

  lemma QuotientAt(period: int, q: int, r: int)
    requires period > 0 && 0 <= r < period
    ensures q <= 0 ==> period * q + r < period
    ensures q == 1 ==> period <= period * q + r < 2 * period
    ensures q == 2 ==> 2 * period <= period * q + r < 3 * period
    ensures q >= 3 ==> 3 * period <= period * q + r
  {
    if q <= 0 {
      assert period * q <= 0;
    } else if q >= 3 {
      assert period * (q - 3) >= 0;
    }
  }

  /** `n` is `x` rounded towards zero. */
  predicate Towards0(x: real, n: int) {
    if x >= 0.0 then n as real <= x < n as real + 1.0 else n as real - 1.0 < x <= n as real
  }

  lemma TruncTowards0(x: real)
    ensures Towards0(x, Trunc(x))
    ensures forall n | Towards0(x, n) :: n == Trunc(x)
  {
  }

  /** The three terms, from errors in degrees and a period in seconds. */
  function PTerm(p: real, x0: real, x1: real): real {
    p * (x0 - x1)
  }

  function ITerm(i: real, x0: real, ts: real): real {
    i * x0 * ts
  }

  function DTerm(d: real, x0: real, x1: real, x2: real, ts: real): real
    requires ts > 0.0
  {
    (d / ts) * (x0 - 2.0 * x1 + x2)
  }

  function Scaled(x: real, u: real): real {
    x * u
  }

  /** ... and their sum in units of the device. */
  function Terms(p: real, i: real, d: real, x0: real, x1: real, x2: real, ts: real, u: real): real
    requires ts > 0.0
  {
    Scaled(PTerm(p, x0, x1) + ITerm(i, x0, ts) + DTerm(d, x0, x1, x2, ts), u)
  }

  /** ... in thousandths of a degree and in milliseconds. */
  function Drive(s: Setting, e0: int, e1: int, e2: int, period: int): real
    requires period > 0
  {
    Terms(s.pConst, s.iConst, s.dConst, e0 as real / 1000.0, e1 as real / 1000.0, e2 as real / 1000.0,
          period as real / 1000.0, s.unitsPerC as real)
  }

  lemma UnitsOf(x: real, units: int)
    ensures InUnits(x, units) == Trunc(Scaled(x, units as real))
  {
    hide Trunc;
    var y := x * units as real;
    assert InUnits(x, units) == Trunc(y);
    assert Scaled(x, units as real) == y;
  }

  lemma SameTerms(p: real, i: real, d: real, x0: real, x1: real, x2: real, ts: real)
    requires ts > 0.0
    ensures Proportional(p, x0, x1) == PTerm(p, x0, x1) && Integral(i, x0, ts) == ITerm(i, x0, ts)
    ensures Derivative(d, x0, x1, x2, ts) == DTerm(d, x0, x1, x2, ts)
  {
  }

  lemma TermsSum(p: real, i: real, d: real, x0: real, x1: real, x2: real, ts: real, units: int)
    requires ts > 0.0
    ensures InUnits(Proportional(p, x0, x1) + Integral(i, x0, ts) + Derivative(d, x0, x1, x2, ts), units) ==
            Trunc(Terms(p, i, d, x0, x1, x2, ts, units as real))
  {
    hide Trunc, InUnits, Proportional, Integral, Derivative, PTerm, ITerm, DTerm, Scaled;
    SameTerms(p, i, d, x0, x1, x2, ts);
    UnitsOf(PTerm(p, x0, x1) + ITerm(i, x0, ts) + DTerm(d, x0, x1, x2, ts), units);
  }

  lemma {:induction false} CorrectionDrive(s: Setting, errs: seq<int>, period: int)
    requires |errs| == I_SAMPLES && period > 0
    ensures Correction(s, errs, period) == Trunc(Drive(s, errs[0], errs[1], errs[2], period))
  {
    hide InUnits, Trunc, Proportional, Integral, Derivative, Terms;
    TermsSum(s.pConst, s.iConst, s.dConst, errs[0] as real / 1000.0, errs[1] as real / 1000.0, errs[2] as real / 1000.0,
             period as real / 1000.0, s.unitsPerC);
  }

  function Within(lo: int, x: int, hi: int): int {
    if x < lo then lo else if x > hi then hi else x
  }

  /** Crossing or meeting the set point. */
  predicate Crossing(e0: int, e1: int) {
    e0 == 0 || (e0 > 0 > e1) || (e0 < 0 < e1)
  }

  /** What one timer event owes a controller that is sampled, having read `temp` after
      `elapsed` ms: the error goes into its history as often as periods have passed; the level
      moves by what was remembered of the last adjustment, nothing if the error has met or
      crossed zero, and the rounded sum of the three terms, as far as the device goes. */
  ghost predicate Controls(c: Client, d: Client, temp: int, elapsed: int, period: int)
    requires |c.errs| == |d.errs| == 3 && period > 0
  {
    var n := Periods(elapsed, period);
    && (forall j | 0 <= j < 3 :: d.errs[j] == if j < n then c.setPoint - temp else c.errs[j - n])
    && var kept := if Crossing(d.errs[0], d.errs[1]) then 0 else c.prevAdjustment;
       if d.errs == [0, 0, 0] then d == c.(errs := d.errs, prevAdjustment := 0)
       else
         exists m ::
           && Towards0(Drive(c.setting, d.errs[0], d.errs[1], d.errs[2], period), m)
           && var lvl := c.devOpLvl + (kept + m);
              d == c.(errs := d.errs, devOpLvl := Within(c.minOpLvl, lvl, c.maxOpLvl),
                      prevAdjustment := if c.minOpLvl <= lvl <= c.maxOpLvl then kept + m else 0)
  }

  lemma {:induction false} PushedAt(h: seq<int>, err: int, n: int, j: nat)
    requires |h| == I_SAMPLES && n <= I_SAMPLES && j < I_SAMPLES
    ensures Pushed(h, err, n)[j] == if j < Max(0, n) then err else h[j - Max(0, n)]
  {
  }

  lemma {:induction false} SampledControls(c: Client, temp: int, elapsed: int, period: int)
    requires |c.errs| == I_SAMPLES && period > 0 && c.minOpLvl <= c.maxOpLvl
    ensures Controls(c, Sampled(c, temp, SampleCount(elapsed, period), period), temp, elapsed, period)
  {
    hide Pushed, SampleCount, Correction, Trunc, Drive;
    var cnt := SampleCount(elapsed, period);
    var errs := Pushed(c.errs, c.setPoint - temp, cnt);
    CountIsPeriods(elapsed, period);
    CountCut(elapsed, period);
    forall j | 0 <= j < 3
      ensures errs[j] == if j < Periods(elapsed, period) then c.setPoint - temp else c.errs[j - Periods(elapsed, period)]
    {
      PushedAt(c.errs, c.setPoint - temp, cnt, j);
    }
    CorrectionDrive(c.setting, errs, period);
    TruncTowards0(Drive(c.setting, errs[0], errs[1], errs[2], period));
  }

  lemma CountCut(elapsed: int, period: int)
    requires period > 0
    ensures SampleCount(elapsed, period) <= I_SAMPLES
  {
  }

  /** After a timer event with the clock readable, every mitigating client of an expired group
      has been controlled by its own reading and its group's elapsed time; everyone else is as
      it was. */
  lemma {:induction false} TimerControls(p: Pids, temps: nat -> Temps, elapsed: nat -> int, ok: Oracle, i: nat)
    requires Inv(p) && WellFormed(p) && i < |p.clients|
    ensures p.clients[i].group < |p.groups| && p.groups[p.clients[i].group].sampling > 0
    ensures var q, c := OnTimer(p, true, temps, elapsed, ok), p.clients[i];
            && |q.clients| == |p.clients| && |c.errs| == |q.clients[i].errs| == 3
            && (if c.mitigating && Has(p.pending, c.group)
                then Controls(c, q.clients[i], temps(c.group)(i), elapsed(c.group), p.groups[c.group].sampling)
                else q.clients[i] == c)
  {
    hide Has, Sampled, SampleCount, TimerGroups, Restart, WellFormed, Inv, Controls;
    TimerGroupsEffect(p, p.pending, temps, elapsed, |p.groups|, i);
    WellFormedAt(OnTimer(p, true, temps, elapsed, ok), i);
    DisabledIdle(p, i);
    var c := p.clients[i];
    SampledControls(c, temps(c.group)(i), elapsed(c.group), p.groups[c.group].sampling);
  }

  /** ... of all clients, as the handler leaves them. */
  ghost predicate AllControlled(p: Pids, q: Pids, temps: nat -> Temps, elapsed: nat -> int)
    requires WellFormed(p) && WellFormed(q)
  {
    |q.clients| == |p.clients| &&
    forall i | 0 <= i < |p.clients| ::
      var c := p.clients[i];
      if c.mitigating && Has(p.pending, c.group)
      then Controls(c, q.clients[i], temps(c.group)(i), elapsed(c.group), p.groups[c.group].sampling)
      else q.clients[i] == c
  }

  lemma {:induction false} TimerControlsAll(p: Pids, temps: nat -> Temps, elapsed: nat -> int, ok: Oracle)
    requires Inv(p) && WellFormed(p)
    ensures AllControlled(p, OnTimer(p, true, temps, elapsed, ok), temps, elapsed)
  {
    hide Has, OnTimer, Inv, Controls;
    forall i | 0 <= i < |p.clients|
      ensures var (q, c) := (OnTimer(p, true, temps, elapsed, ok), p.clients[i]);
              if c.mitigating && Has(p.pending, c.group)
              then Controls(c, q.clients[i], temps(c.group)(i), elapsed(c.group), p.groups[c.group].sampling)
              else q.clients[i] == c
    {
      TimerControls(p, temps, elapsed, ok, i);
    }
  }

  /** A clock that cannot be read leaves everything as it is. */
  lemma {:induction false} TimerIdle(p: Pids, temps: nat -> Temps, elapsed: nat -> int, ok: Oracle)
    requires WellFormed(p)
    ensures OnTimer(p, false, temps, elapsed, ok) == p
  {
  }

  // ------------------------------------------------------------ which way it goes

  lemma {:induction false} Follow(c: Client, d: Client, temp: int, elapsed: int, period: int)
    requires |c.errs| == |d.errs| == 3 && period > 0 && Controls(c, d, temp, elapsed, period)
    requires c.minOpLvl <= c.devOpLvl <= c.maxOpLvl && d.errs != [0, 0, 0]
    ensures var x := Drive(c.setting, d.errs[0], d.errs[1], d.errs[2], period);
            && (c.prevAdjustment <= 0 && x <= -1.0 ==>
                  d.devOpLvl == c.minOpLvl || c.minOpLvl < d.devOpLvl < c.devOpLvl)
            && (c.prevAdjustment >= 0 && x >= 1.0 ==>
                  d.devOpLvl == c.maxOpLvl || c.maxOpLvl > d.devOpLvl > c.devOpLvl)
  {
    hide Drive;
    TruncTowards0(Drive(c.setting, d.errs[0], d.errs[1], d.errs[2], period));
  }

  lemma MulSign(k: real, x: real)
    requires k >= 0.0
    ensures (x <= 0.0 ==> k * x <= 0.0) && (x >= 0.0 ==> k * x >= 0.0)
  {
  }

  lemma ScaleUp(x: real, y: real, u: real)
    requires u >= 0.0 && x <= y
    ensures Scaled(x, u) <= Scaled(y, u)
  {
    MulSign(u, y - x);
    assert u * (y - x) == u * y - u * x;
  }

  lemma PSign(p: real, x0: real, x1: real)
    requires p >= 0.0
    ensures (x0 <= x1 ==> PTerm(p, x0, x1) <= 0.0) && (x0 >= x1 ==> PTerm(p, x0, x1) >= 0.0)
  {
    MulSign(p, x0 - x1);
  }

  lemma ISign(i: real, x0: real, ts: real)
    requires i >= 0.0 && ts > 0.0
    ensures (x0 <= 0.0 ==> ITerm(i, x0, ts) <= 0.0) && (x0 >= 0.0 ==> ITerm(i, x0, ts) >= 0.0)
  {
    MulSign(i, x0);
    MulSign(ts, i * x0);
  }

  lemma DSign(d: real, x0: real, x1: real, x2: real, ts: real)
    requires d >= 0.0 && ts > 0.0
    ensures x0 - x1 <= x1 - x2 ==> DTerm(d, x0, x1, x2, ts) <= 0.0
    ensures x0 - x1 >= x1 - x2 ==> DTerm(d, x0, x1, x2, ts) >= 0.0
  {
    DerivativeGain(d, ts);
    MulSign(d / ts, x0 - 2.0 * x1 + x2);
  }

  lemma DerivativeGain(k: real, ts: real)
    requires k >= 0.0 && ts > 0.0
    ensures k / ts >= 0.0
  {
  }

  /** Where no term points the other way, the sum goes at least as far as each. */
  lemma TermsSign(p: real, i: real, d: real, x0: real, x1: real, x2: real, ts: real, u: real)
    requires p >= 0.0 && i >= 0.0 && d >= 0.0 && ts > 0.0 && u >= 0.0
    ensures x0 <= 0.0 && x0 <= x1 && x0 - x1 <= x1 - x2 ==>
              Terms(p, i, d, x0, x1, x2, ts, u) <= Scaled(PTerm(p, x0, x1), u) &&
              Terms(p, i, d, x0, x1, x2, ts, u) <= Scaled(ITerm(i, x0, ts), u)
    ensures x0 >= 0.0 && x0 >= x1 && x0 - x1 >= x1 - x2 ==>
              Terms(p, i, d, x0, x1, x2, ts, u) >= Scaled(PTerm(p, x0, x1), u) &&
              Terms(p, i, d, x0, x1, x2, ts, u) >= Scaled(ITerm(i, x0, ts), u)
  {
    hide PTerm, ITerm, DTerm, Scaled;
    PSign(p, x0, x1);
    ISign(i, x0, ts);
    DSign(d, x0, x1, x2, ts);
    var a, b, c := PTerm(p, x0, x1), ITerm(i, x0, ts), DTerm(d, x0, x1, x2, ts);
    if a <= 0.0 && b <= 0.0 && c <= 0.0 {
      ScaleUp(a + b + c, a, u);
      ScaleUp(a + b + c, b, u);
    }
    if a >= 0.0 && b >= 0.0 && c >= 0.0 {
      ScaleUp(a, a + b + c, u);
      ScaleUp(b, a + b + c, u);
    }
  }

  /** A controller that is too hot and getting no cooler is throttled, and one that is too cool
      and getting no warmer is let go: with gains that are not negative, an error that is at or
      below zero, not above the last, and not rising faster than before, strictly lowers the
      level, down to the lowest, as soon as the proportional or the integral term alone comes to
      one unit; and the other way round. */
  lemma {:induction false} TimerFollows(p: Pids, temps: nat -> Temps, elapsed: nat -> int, ok: Oracle, i: nat)
    requires Inv(p) && WellFormed(p) && i < |p.clients|
    requires p.clients[i].mitigating && Has(p.pending, p.clients[i].group)
    requires var s := p.clients[i].setting;
             s.pConst >= 0.0 && s.iConst >= 0.0 && s.dConst >= 0.0 && s.unitsPerC >= 0
    ensures p.clients[i].group < |p.groups| && |OnTimer(p, true, temps, elapsed, ok).clients| == |p.clients|
    ensures var (c, d, period) := (p.clients[i], OnTimer(p, true, temps, elapsed, ok).clients[i],
                                   p.groups[p.clients[i].group].sampling);
            && |d.errs| == 3
            && var (e0, e1, e2) := (d.errs[0], d.errs[1], d.errs[2]);
               var (x0, x1, ts, u) :=
                 (e0 as real / 1000.0, e1 as real / 1000.0, period as real / 1000.0, c.setting.unitsPerC as real);
               var (proportional, integral) :=
                 (Scaled(PTerm(c.setting.pConst, x0, x1), u), Scaled(ITerm(c.setting.iConst, x0, ts), u));
               && (c.prevAdjustment <= 0 && e0 <= 0 && e0 <= e1 && e0 - e1 <= e1 - e2 &&
                   (proportional <= -1.0 || integral <= -1.0) ==>
                     d.devOpLvl == c.minOpLvl || c.minOpLvl < d.devOpLvl < c.devOpLvl)
               && (c.prevAdjustment >= 0 && e0 >= 0 && e0 >= e1 && e0 - e1 >= e1 - e2 &&
                   (proportional >= 1.0 || integral >= 1.0) ==>
                     d.devOpLvl == c.maxOpLvl || c.maxOpLvl > d.devOpLvl > c.devOpLvl)
  {
    hide Has, OnTimer, WellFormed, Inv, Controls, Terms, PTerm, ITerm, Scaled;
    TimerControls(p, temps, elapsed, ok, i);
    DisabledIdle(p, i);
    var c, d, g := p.clients[i], OnTimer(p, true, temps, elapsed, ok).clients[i], p.clients[i].group;
    if d.errs != [0, 0, 0] {
      Follow(c, d, temps(g)(i), elapsed(g), p.groups[g].sampling);
      var s := c.setting;
      TermsSign(s.pConst, s.iConst, s.dConst, d.errs[0] as real / 1000.0, d.errs[1] as real / 1000.0,
                d.errs[2] as real / 1000.0, p.groups[g].sampling as real / 1000.0, s.unitsPerC as real);
    } else {
      NoDrive(c.setting.pConst, c.setting.iConst, d.errs[0] as real / 1000.0, d.errs[1] as real / 1000.0,
              p.groups[g].sampling as real / 1000.0, c.setting.unitsPerC as real);
    }
  }

  lemma NoDrive(p: real, i: real, x0: real, x1: real, ts: real, u: real)
    requires x0 == 0.0 && x1 == 0.0
    ensures Scaled(PTerm(p, x0, x1), u) == 0.0 && Scaled(ITerm(i, x0, ts), u) == 0.0
  {
    assert PTerm(p, x0, x1) == 0.0 && ITerm(i, x0, ts) == 0.0;
  }

  // ------------------------------------------------------------ thresholds

  /** What the threshold handler owes a client that reads `temp`, if its threshold was reached:
      mitigation begins at or above the clear point, at the highest level, and ends at or below
      it; who does not mitigate starts afresh. A disabled client is left alone. */
  predicate Decided(c: Client, d: Client, reached: bool, temp: int) {
    if !reached || c.disabled then d == c
    else
      && (d.mitigating <==> if c.mitigating then temp > c.setPointClr else temp >= c.setPointClr)
      && d == c.(mitigating := d.mitigating,
                 devOpLvl := if d.mitigating && !c.mitigating then c.maxOpLvl else c.devOpLvl,
                 prevAdjustment := if d.mitigating then c.prevAdjustment else 0,
                 errs := if d.mitigating then c.errs else [0, 0, 0])
  }

  lemma {:induction false} ThreshDecides(p: Pids, temps: Temps, ok: Oracle)
    requires WellFormed(p)
    ensures var q := OnThresh(p, temps, ok);
            && |q.clients| == |p.clients| && q.flags == p.flags && q.pending == p.pending
            && (forall i | 0 <= i < |p.clients| :: Decided(p.clients[i], q.clients[i], Has(p.reached, i), temps(i)))
            && (forall i | 0 <= i < |p.clients| :: !Has(q.reached, i))
  {
    hide Has, ThreshClients, ThreshGroups, WellFormed;
    AtMost(p);
    ThreshClientsEffect(p, temps, |p.clients|);
    ThreshGroupsSilent(ThreshClients(p, temps, |p.clients|), ok, |p.groups|);
  }

  // ------------------------------------------------------------ override

  /** The thread is to look at the client's threshold, and its history starts afresh. */
  predicate Notified(p: Pids, i: nat) {
    i < |p.clients| && Has(p.reached, i) && p.flags.thresh && p.clients[i].errs == [0, 0, 0]
  }

  lemma {:induction false} RenotifyNotifies(p: Pids, i: nat, k: nat)
    requires i < |p.clients| <= WIDTH && k < |p.clients|
    ensures Renotify(p, i).clients == p.clients[i := p.clients[i].(errs := [0, 0, 0])]
    ensures Renotify(p, i).flags == p.flags.(thresh := true) && Renotify(p, i).pending == p.pending
    ensures Has(Renotify(p, i).reached, k) <==> k == i || Has(p.reached, k)
    ensures Notified(Renotify(p, i), k) <== k == i || Notified(p, k)
  {
    hide Has, Set;
    HasSet(p.reached, i, k);
  }

  /** What an override mode owes an enabled client that has an overshoot: the set points
      configured, raised by the overshoot if the mode is on, and a fresh start. */
  predicate Shifted(c: Client, d: Client, mode: bool) {
    var shift := if mode then c.setting.overshoot else 0;
    d == c.(setPoint := c.setting.setPoint + shift, setPointClr := c.setting.setPointClr + shift,
            prevAdjustment := 0, errs := [0, 0, 0])
  }

  predicate HasOvershoot(c: Client) {
    !c.disabled && c.setting.overshoot != 0
  }

  lemma {:induction false} OverrideOneSets(p: Pids, k: nat, mode: bool, i: nat)
    requires WellFormed(p) && k < |p.clients| && i < |p.clients|
    ensures var q := OverrideClient(p, k, mode);
            && q.groups == p.groups && q.pending == p.pending
            && (p.flags.thresh ==> q.flags.thresh) && q.flags == p.flags.(thresh := q.flags.thresh)
            && if k == i && HasOvershoot(p.clients[i]) then Notified(q, i) && Shifted(p.clients[i], q.clients[i], mode)
               else q.clients[i] == p.clients[i] && (Has(q.reached, i) <==> Has(p.reached, i))
  {
    hide Has, Renotify, WellFormed;
    AtMost(p);
    var c, shift := p.clients[k], if mode then p.clients[k].setting.overshoot else 0;
    RenotifyNotifies(WithClient(p, k, c.(setPoint := c.setting.setPoint + shift,
                                         setPointClr := c.setting.setPointClr + shift, prevAdjustment := 0)), k, i);
  }

  /** An override mode takes hold of every enabled client that has an overshoot, and the thread
      is told to look at their thresholds again; the others stay as they are. */
  lemma {:induction false} OverrideSets(p: Pids, mode: bool, n: nat, i: nat)
    requires WellFormed(p) && n <= |p.clients| && i < |p.clients|
    ensures var q := OnOverride(p, mode, n);
            && |q.clients| == |p.clients| && q.groups == p.groups && q.pending == p.pending
            && (p.flags.thresh ==> q.flags.thresh) && q.flags == p.flags.(thresh := q.flags.thresh)
            && if i < n && HasOvershoot(p.clients[i]) then Notified(q, i) && Shifted(p.clients[i], q.clients[i], mode)
               else q.clients[i] == p.clients[i] && (Has(q.reached, i) <==> Has(p.reached, i))
  {
    hide Has, OverrideClient, WellFormed, Shifted, HasOvershoot;
    if n > 0 {
      OverrideSets(p, mode, n - 1, i);
      OverrideOneSets(OnOverride(p, mode, n - 1), n - 1, mode, i);
    }
  }

  // ------------------------------------------------------------ configuration

  /** What a step of a configuration change owes every client: one whose settings change is
      notified, and who was already still is; one that is disabled goes to its highest level;
      nothing but the threshold flag is raised. */
  ghost predicate Tells(p: Pids, q: Pids)
    requires WellFormed(p) && WellFormed(q) && |q.clients| == |p.clients|
  {
    && q.flags == p.flags.(thresh := q.flags.thresh) && (p.flags.thresh ==> q.flags.thresh)
    && forall i | 0 <= i < |p.clients| ::
         && (Notified(p, i) || QuadOf(q, i) != QuadOf(p, i) ==> Notified(q, i))
         && (q.clients[i].disabled ==> p.clients[i].disabled || q.clients[i].devOpLvl == q.clients[i].maxOpLvl)
         && (p.clients[i].disabled && p.clients[i].devOpLvl == p.clients[i].maxOpLvl && q.clients[i].disabled ==>
               q.clients[i].devOpLvl == q.clients[i].maxOpLvl)
  }

  lemma {:induction false} TellsThen(p: Pids, q: Pids, r: Pids)
    requires WellFormed(p) && WellFormed(q) && WellFormed(r) && |r.clients| == |q.clients| == |p.clients|
    requires Tells(p, q) && Tells(q, r)
    ensures Tells(p, r)
  {
    hide Notified, WellFormed, QuadOf;
  }

  /** Silent and local steps, and at the end the notification if there is to be one. */
  lemma {:induction false} TellsEntry(p: Pids, q: Pids, i: nat)
    requires WellFormed(p) && WellFormed(q) && i < |p.clients| == |q.clients| && Local(p, q, i)
    requires forall k | 0 <= k < |p.clients| && k != i && Has(p.reached, k) :: Has(q.reached, k)
    requires q.flags == p.flags.(thresh := q.flags.thresh) && (p.flags.thresh ==> q.flags.thresh)
    requires Notified(q, i) || (QuadOf(q, i) == QuadOf(p, i) && q.clients[i].errs == p.clients[i].errs &&
                                (Has(p.reached, i) ==> Has(q.reached, i)))
    requires q.clients[i].disabled ==>
               q.clients[i].devOpLvl == q.clients[i].maxOpLvl ||
               (p.clients[i].disabled && q.clients[i].devOpLvl == p.clients[i].devOpLvl &&
                q.clients[i].maxOpLvl == p.clients[i].maxOpLvl)
    ensures Tells(p, q)
  {
    hide Has, WellFormed;
    LocalOnlyOne(p, q, i);
  }

  /** What the steps of an entry leave of a client besides its settings. */
  predicate Kept(p: Pids, q: Pids, i: nat) {
    && i < |p.clients| == |q.clients| && q.clients[i].errs == p.clients[i].errs
    && q.clients[i].maxOpLvl == p.clients[i].maxOpLvl
    && (q.clients[i].disabled ==>
          q.clients[i].devOpLvl == q.clients[i].maxOpLvl ||
          (p.clients[i].disabled && q.clients[i].devOpLvl == p.clients[i].devOpLvl))
  }

  lemma {:induction false} DisableKeeps(p: Pids, i: nat, disable: bool, ok: Oracle)
    requires WellFormed(p) && i < |p.clients|
    ensures Kept(p, DisableAdjust(p, i, disable, ok).0, i)
  {
    hide LeaveAndStop;
    WellFormedAt(p, i);
  }

  lemma {:induction false} SamplingKeeps(p: Pids, i: nat, sampling: int, ok: Oracle)
    requires WellFormed(p) && i < |p.clients|
    ensures Kept(p, SamplingAdjust(p, i, sampling, ok).0, i)
  {
    hide Move, FirstIndex;
    WellFormedAt(p, i);
    var s := FindGroup(p.groups, sampling);
    if sampling >= SAMPLING_MS_MINIMUM && s < |p.groups| {
      MoveQuad(p, i, s, ok);
    } else if sampling >= SAMPLING_MS_MINIMUM && |p.groups| < MAX_PID_INSTANCES_SUPPORTED {
      var p1 := WithNewGroup(p, sampling, ok(p.calls));
      NewGroupWellFormed(p, sampling, ok(p.calls));
      MoveQuad(p1, i, s, ok);
    }
  }

  lemma {:induction false} KeptThen(p: Pids, q: Pids, r: Pids, i: nat)
    requires Kept(p, q, i) && Kept(q, r, i)
    ensures Kept(p, r, i)
  {
  }

  lemma {:induction false} SetPointsKeep(p: Pids, i: nat, e: Entry)
    requires WellFormed(p) && i < |p.clients|
    ensures Kept(p, ApplySetPoints(p, i, e), i)
  {
    hide Changes;
  }

  /** The steps of an entry before the notification, and whether there is one. */
  lemma {:induction false} EntryUpTo(p: Pids, i: nat, e: Entry, ok: Oracle) returns (r: Pids)
    requires WellFormed(p) && i < |p.clients|
    ensures WellFormed(r) && |r.clients| == |p.clients| && Local(p, r, i) && Kept(p, r, i) && Silent(p, r)
    ensures ApplyEntry(p, i, e, ok) == Renotify(r, i) ||
            (ApplyEntry(p, i, e, ok) == r && QuadOf(r, i) == QuadOf(p, i))
  {
    hide WellFormed, DisableAdjust, SamplingAdjust, ApplySetPoints, Renotify, Names, CanEnable, Local, Kept, Silent;
    WellFormedAt(p, i);
    LocalHere(p, i);
    StillKept(p, i);
    StillSilent(p);
    DisableAdjustQuad(p, i, e.disable == 1, ok);
    DisableKeeps(p, i, e.disable == 1, ok);
    DisableAdjustSilent(p, i, e.disable == 1, ok);
    var (p1, ok1, disableDone) := ApplyDisable(p, i, e, ok);
    if !ok1 {
      r := p1;
    } else {
      WellFormedAt(p1, i);
      LocalHere(p1, i);
      StillKept(p1, i);
      StillSilent(p1);
      SamplingLocal(p1, i, e.sampling, ok);
      SamplingKeeps(p1, i, e.sampling, ok);
      SamplingAdjustSilent(p1, i, e.sampling, ok);
      var (p2, ok2, samplingDone) := ApplySampling(p1, i, e, ok);
      LocalThen(p, p1, p2, i);
      KeptThen(p, p1, p2, i);
      SilentThen(p, p1, p2);
      WellFormedAt(p2, i);
      var was := p.clients[i].disabled;
      r := if ok2 then ApplySetPoints(p2, i, e) else if disableDone then DisableAdjust(p2, i, was, ok).0 else p2;
      SetPointsQuad(p2, i, e);
      SetPointsKeep(p2, i, e);
      SetPointsSilent(p2, i, e);
      DisableAdjustQuad(p2, i, was, ok);
      DisableKeeps(p2, i, was, ok);
      DisableAdjustSilent(p2, i, was, ok);
      LocalThen(p, p2, r, i);
      KeptThen(p, p2, r, i);
      SilentThen(p, p2, r);
      UnchangedPoints(p2, i, e);
    }
  }

  lemma {:induction false} StillKept(p: Pids, i: nat)
    requires i < |p.clients|
    ensures Kept(p, p, i)
  {
  }

  lemma {:induction false} UnchangedPoints(p: Pids, i: nat, e: Entry)
    requires WellFormed(p) && i < |p.clients|
    ensures !Changes(p, i, e, SET_POINT_FIELD) && !Changes(p, i, e, SET_POINT_CLR_FIELD) ==>
              QuadOf(ApplySetPoints(p, i, e), i) == QuadOf(p, i)
  {
    hide Names;
  }

  /** A period that is refused changes nothing a client can query. */
  lemma {:induction false} SamplingLocal(p: Pids, i: nat, sampling: int, ok: Oracle)
    requires WellFormed(p) && i < |p.clients|
    ensures var (q, r) := SamplingAdjust(p, i, sampling, ok);
            Local(p, q, i) && (!r ==> QuadOf(q, i) == QuadOf(p, i))
  {
    hide SamplingAdjust, Local, FirstIndex;
    LocalHere(p, i);
    if sampling >= SAMPLING_MS_MINIMUM {
      SamplingAdjustQuad(p, i, sampling, ok);
    } else {
      TooShort(p, i, sampling, ok);
    }
  }

  lemma {:induction false} TooShort(p: Pids, i: nat, sampling: int, ok: Oracle)
    requires WellFormed(p) && i < |p.clients| && sampling < SAMPLING_MS_MINIMUM
    ensures SamplingAdjust(p, i, sampling, ok) == (p, false)
  {
  }

  lemma {:induction false} EntryTells(p: Pids, i: nat, e: Entry, ok: Oracle)
    requires WellFormed(p) && i < |p.clients|
    ensures Tells(p, ApplyEntry(p, i, e, ok))
  {
    hide WellFormed, ApplyEntry, Renotify, Has, Local;
    AtMost(p);
    var q := ApplyEntry(p, i, e, ok);
    var r := EntryUpTo(p, i, e, ok);
    if q == Renotify(r, i) {
      RenotifyQuad(r, i);
      LocalThen(p, r, q, i);
      forall k | 0 <= k < |p.clients|
        ensures Has(q.reached, k) <==> k == i || Has(p.reached, k)
        ensures k == i ==> Notified(q, k)
      {
        RenotifyNotifies(r, i, k);
      }
      RenotifyNotifies(r, i, i);
    }
    TellsEntry(p, q, i);
  }

  lemma {:induction false} BatchTells(p: Pids, targets: seq<nat>, batch: seq<Entry>, ok: Oracle, n: nat)
    requires WellFormed(p) && n <= |batch| == |targets|
    requires forall k | 0 <= k < |targets| :: targets[k] < |p.clients|
    ensures Tells(p, ApplyBatch(p, targets, batch, ok, n))
  {
    hide WellFormed, ApplyEntry, Tells;
    if n > 0 {
      BatchTells(p, targets, batch, ok, n - 1);
      var q := ApplyBatch(p, targets, batch, ok, n - 1);
      EntryTells(q, targets[n - 1], batch[n - 1], ok);
      TellsThen(p, q, ApplyBatch(p, targets, batch, ok, n));
    } else {
      TellsNothing(p);
    }
  }

  lemma {:induction false} TellsNothing(p: Pids)
    requires WellFormed(p)
    ensures Tells(p, p)
  {
    hide Has;
  }

  /** Whatever has changed of an instance that a client can query, the thread is told to look at
      its threshold again, with a history of zeros; an instance that was disabled is at its
      highest level; and nothing else is flagged. */
  ghost predicate ChangesHeard(p: Pids, q: Pids)
    requires WellFormed(p) && WellFormed(q)
  {
    && |q.clients| == |p.clients| && q.flags == p.flags.(thresh := q.flags.thresh)
    && forall i | 0 <= i < |p.clients| ::
         && (QuadOf(q, i) != QuadOf(p, i) ==> Has(q.reached, i) && q.flags.thresh && q.clients[i].errs == [0, 0, 0])
         && (q.clients[i].disabled && !p.clients[i].disabled ==> q.clients[i].devOpLvl == q.clients[i].maxOpLvl)
  }

  /** So it is after every request, whichever timer calls fail. */
  lemma {:induction false} ConfigNotifies(p: Pids, batch: seq<Entry>, ok: Oracle)
    requires WellFormed(p)
    ensures ChangesHeard(p, OnConfig(p, batch, ok))
  {
    hide WellFormed, ApplyBatch, Has;
    TellsNothing(p);
    if AllValid(p, batch) {
      BatchTells(p, Targets(p, batch), batch, ok, |batch|);
    }
  }

  // ------------------------------------------------------------ when a request takes effect

  /** A client that its group does not sample. */
  predicate Unsampled(p: Pids, i: nat)
    requires WellFormed(p) && i < |p.clients|
  {
    p.clients[i].disabled || !Has(p.groups[p.clients[i].group].mask, i)
  }

  lemma {:induction false} MoveIff(p: Pids, i: nat, s: nat, ok: Oracle)
    requires WellFormed(p) && i < |p.clients| && s < |p.groups|
    ensures Move(p, i, s, ok).1 <==> Unsampled(p, i) || p.groups[s].enabled || ok(p.calls)
  {
    hide LeaveAndStop, Join, Leave, Enable, Has, WellFormed;
    AtMost(p);
    WellFormedAt(p, i);
    JoinEffect(p, s, i);
    EnableEffect(Join(p, s, i), s, ok);
  }

  lemma {:induction false} SamplingIff(p: Pids, i: nat, sampling: int, ok: Oracle)
    requires WellFormed(p) && i < |p.clients| && sampling >= 50
    ensures var s := FindGroup(p.groups, sampling);
            SamplingAdjust(p, i, sampling, ok).1 <==>
            if s < |p.groups| then Unsampled(p, i) || p.groups[s].enabled || ok(p.calls)
            else |p.groups| < 32 && ok(p.calls) && (Unsampled(p, i) || ok(p.calls + 1))
  {
    hide Move, FirstIndex, Has;
    WellFormedAt(p, i);
    var s := FindGroup(p.groups, sampling);
    if s < |p.groups| {
      MoveIff(p, i, s, ok);
    } else if |p.groups| < 32 {
      var p1 := WithNewGroup(p, sampling, ok(p.calls));
      NewGroupWellFormed(p, sampling, ok(p.calls));
      MoveIff(p1, i, s, ok);
    }
  }

  /** Whether disabling a client stops its group's timer. */
  predicate Stops(p: Pids, i: nat)
    requires WellFormed(p) && i < |p.clients|
  {
    var group := p.groups[p.clients[i].group];
    group.enabled && forall k | 0 <= k < WIDTH && Has(group.mask, k) :: k == i
  }

  /** The one or two timer calls that an entry cannot do without: the one that makes a group for
      a new period, and the one that starts the timer of the group a mitigating client moves to. */
  predicate Hindered(p: Pids, i: nat, e: Entry, ok: Oracle)
    requires WellFormed(p) && i < |p.clients|
  {
    var c := p.clients[i];
    var disables, enables := e.fieldsMask & 0x1 != 0 && e.disable == 1 && !c.disabled,
                             e.fieldsMask & 0x1 != 0 && e.disable == 0 && c.disabled;
    var s := FindGroup(p.groups, e.sampling);
    var call := if disables && Stops(p, i) then p.calls + 1 else p.calls;
    || (enables && !(c.setPoint > c.setPointClr && p.groups[c.group].sampling >= 50))
    || (e.fieldsMask & 0x2 != 0 && e.sampling != p.groups[c.group].sampling &&
        (|| (s == |p.groups| && (s == 32 || !ok(call)))
         || (c.mitigating && !disables && if s == |p.groups| then !ok(call + 1) else !p.groups[s].enabled && !ok(call))))
  }

  lemma {:induction false} ClearEmpty(mask: bv32, i: nat)
    requires i < WIDTH
    ensures Clear(mask, i) == 0 <==> forall k | 0 <= k < WIDTH && Has(mask, k) :: k == i
  {
    hide Has, Clear;
    Empty(Clear(mask, i));
    forall k | 0 <= k < WIDTH ensures Has(Clear(mask, i), k) <==> k != i && Has(mask, k) {
      HasClear(mask, i, k);
    }
  }

  /** What disabling leaves for the next step of an entry. */
  lemma {:induction false} DisableLeaves(p: Pids, i: nat, disable: bool, ok: Oracle)
    requires Inv(p) && WellFormed(p) && i < |p.clients|
    ensures var (q, r) := DisableAdjust(p, i, disable, ok);
            && q.calls == p.calls + (if disable && Stops(p, i) then 1 else 0)
            && |q.groups| == |p.groups| && (forall g | 0 <= g < |p.groups| :: q.groups[g].sampling == p.groups[g].sampling)
            && (!disable ==> q.groups == p.groups)
            && (disable || (p.clients[i].disabled && r) ==> Unsampled(q, i))
            && q.clients[i].group == p.clients[i].group
  {
    hide Has, Clear, ClientOk;
    InvAt(p, i);
    DisabledIdle(p, i);
    var c := p.clients[i];
    ClearEmpty(p.groups[c.group].mask, i);
    if disable {
      LeaveAndStopPeriods(
        WithClient(p, i, c.(devOpLvl := c.maxOpLvl, mitigating := false, prevAdjustment := 0, disabled := true)),
        c.group, i, ok);
    } else {
      assert Has(p.groups[c.group].mask, i) <==> Belongs(p, c.group, i);
    }
  }

  /** Both steps of an entry that can fail succeed. */
  predicate GoesThrough(p: Pids, i: nat, e: Entry, ok: Oracle)
    requires WellFormed(p) && i < |p.clients|
  {
    var (p1, ok1, _) := ApplyDisable(p, i, e, ok);
    ok1 && ApplySampling(p1, i, e, ok).1
  }

  lemma {:induction false} GoesThroughIff(p: Pids, i: nat, e: Entry, ok: Oracle)
    requires Inv(p) && WellFormed(p) && i < |p.clients| && ValidEntry(e, p.clients[i])
    ensures GoesThrough(p, i, e, ok) <==> !Hindered(p, i, e, ok)
  {
    hide WellFormed, Inv, DisableAdjust, SamplingAdjust, ValidSetPoint, ValidSetPointClr, Local, Has, Names, FirstIndex,
         Stops, Unsampled;
    FieldBits(e);
    AtMost(p);
    WellFormedAt(p, i);
    DisableAdjustQuad(p, i, e.disable == 1, ok);
    DisableLeaves(p, i, e.disable == 1, ok);
    SampledIff(p, i);
    DisabledIdle(p, i);
    var (p1, ok1, disableDone) := ApplyDisable(p, i, e, ok);
    if ok1 {
      WellFormedAt(p1, i);
      SameGroup(p, p1, e.sampling);
      if Changes(p1, i, e, SAMPLING_FIELD) {
        SamplingIff(p1, i, e.sampling, ok);
      }
    }
  }

  lemma {:induction false} AppliedIff(p: Pids, i: nat, e: Entry, ok: Oracle)
    requires WellFormed(p) && i < |p.clients| && ValidEntry(e, p.clients[i])
    ensures QuadOf(ApplyEntry(p, i, e, ok), i) == PidBatch.Requested(QuadOf(p, i), e) <==> GoesThrough(p, i, e, ok)
  {
    hide WellFormed, DisableAdjust, SamplingAdjust, ApplySetPoints, Renotify, ValidSetPoint, ValidSetPointClr, CanEnable,
         Local, Names, NoGroup;
    WellFormedAt(p, i);
    DisableAdjustQuad(p, i, e.disable == 1, ok);
    var (p1, ok1, disableDone) := ApplyDisable(p, i, e, ok);
    if ok1 {
      WellFormedAt(p1, i);
      if Changes(p1, i, e, SAMPLING_FIELD) {
        SamplingAdjustQuad(p1, i, e.sampling, ok);
      }
      var (p2, ok2, _) := ApplySampling(p1, i, e, ok);
      WellFormedAt(p2, i);
      if ok2 {
        SetPointsQuad(p2, i, e);
        RenotifyQuad(ApplySetPoints(p2, i, e), i);
      } else if disableDone {
        DisableAdjustQuad(p2, i, p.clients[i].disabled, ok);
        RenotifyQuad(DisableAdjust(p2, i, p.clients[i].disabled, ok).0, i);
      }
    }
  }

  /** A valid entry takes effect if and only if it is not hindered: no other failing timer call
      matters. If it is, the instance keeps what it had, or is left disabled. */
  lemma {:induction false} EntryTakesEffectIff(p: Pids, i: nat, e: Entry, ok: Oracle)
    requires Inv(p) && WellFormed(p) && i < |p.clients| && ValidEntry(e, p.clients[i])
    ensures var (q, was) := (ApplyEntry(p, i, e, ok), QuadOf(p, i));
            && (QuadOf(q, i) == PidBatch.Requested(was, e) <==> !Hindered(p, i, e, ok))
            && (Hindered(p, i, e, ok) ==> QuadOf(q, i) == was || QuadOf(q, i) == was.(disabled := true))
  {
    hide WellFormed, Inv, ApplyEntry, ValidEntry, GoesThrough, Hindered, Stuck, PidBatch.Requested;
    GoesThroughIff(p, i, e, ok);
    AppliedIff(p, i, e, ok);
    EntryAtomic(p, i, e, ok);
  }

  lemma {:induction false} SampledIff(p: Pids, i: nat)
    requires Inv(p) && WellFormed(p) && i < |p.clients|
    ensures Unsampled(p, i) <==> !p.clients[i].mitigating
  {
    hide Has;
    InvAt(p, i);
    DisabledIdle(p, i);
  }

  // ------------------------------------------------------------ the next turn

  predicate Quiet(w: Wake) {
    w.before == w.afterOverride == w.afterTimer == w.afterThresh == []
  }

  /** A turn in which nothing comes in: the flags are cleared, and the handlers they name run in
      order, on the mode and the request that are stored. */
  lemma {:induction false} QuietTurn(m: Monitor, w: Wake, ok: Oracle)
    requires WellFormed(m.pids) && Quiet(w)
    ensures WellFormed(m.pids.(flags := NO_FLAGS))
    ensures var (flags, p0) := (m.pids.flags, m.pids.(flags := NO_FLAGS));
            var p1 := if flags.overriding then OnOverride(p0, m.mode, |p0.clients|) else p0;
            var p2 := if flags.timer then OnTimer(p1, w.clockOk, w.timerTemps, w.elapsed, ok) else p1;
            var p3 := if flags.thresh then OnThresh(p2, w.threshTemps, ok) else p2;
            OnWake(m, w, ok).pids == if flags.config then OnConfig(p3, m.batch, ok) else p3
  {
    hide WellFormed, OnConfig, OnOverride, OnTimer, OnThresh;
    assert forall n: Monitor | WellFormed(n.pids) :: NotedAll(n, [], ok) == n;
    assert WellFormed(Do(m, Woken, ok).pids) && Do(m, Woken, ok).pids == m.pids.(flags := NO_FLAGS);
  }

  /** Only one thing comes in while the thread waits with nothing flagged. */
  predicate Single(w: Wake, note: Note) {
    w.before == [note] && w.afterOverride == w.afterTimer == w.afterThresh == []
  }

  lemma {:induction false} SingleTurn(m: Monitor, w: Wake, note: Note, ok: Oracle)
    requires WellFormed(m.pids) && Single(w, note)
    ensures OnWake(m, w, ok) == OnWake(Noted(m, note, ok), w.(before := []), ok)
  {
    hide WellFormed, Noted, DoIf;
    assert w.before[..0] == [] && NotedAll(m, [], ok) == m;
    assert NotedAll(m, [note], ok) == Noted(m, note, ok);
    assert NotedAll(Noted(m, note, ok), [], ok) == Noted(m, note, ok);
  }

  /** A request is applied in the turn that it wakes. */
  lemma {:induction false} RequestHandled(m: Monitor, w: Wake, batch: seq<Entry>, ok: Oracle)
    requires WellFormed(m.pids) && m.pids.flags == NO_FLAGS && 0 < |batch| <= 32
    requires Single(w, PidMonitor.Requested(batch))
    ensures OnWake(m, w, ok).pids == OnConfig(m.pids, batch, ok)
  {
    hide WellFormed, OnConfig, OnWake;
    SingleTurn(m, w, PidMonitor.Requested(batch), ok);
    assert Fitting(batch) == batch;
    var n := Noted(m, PidMonitor.Requested(batch), ok);
    assert n.pids.(flags := NO_FLAGS) == m.pids && n.batch == batch;
    QuietTurn(n, w.(before := []), ok);
  }

  /** A timer that is running goes off, the clock can be read, and nothing else comes in: then
      everyone who mitigates in its group has been controlled, and nobody else is touched. */
  lemma {:induction false} ExpiryControls(m: Monitor, w: Wake, g: nat, ok: Oracle)
    requires WellFormed(m.pids) && Inv(m.pids) && m.pids.flags == NO_FLAGS && m.pids.pending == 0
    requires g < |m.pids.groups| && m.pids.groups[g].armed && Single(w, TimerExpired(g)) && w.clockOk
    ensures var (p, q) := (m.pids, OnWake(m, w, ok).pids);
            |q.clients| == |p.clients| &&
            forall i | 0 <= i < |p.clients| ::
              var c := p.clients[i];
              |c.errs| == |q.clients[i].errs| == 3 && p.groups[g].sampling > 0 &&
              if c.mitigating && c.group == g
              then Controls(c, q.clients[i], w.timerTemps(g)(i), w.elapsed(g), p.groups[g].sampling)
              else q.clients[i] == c
  {
    hide WellFormed, Inv, OnTimer, OnWake, Has, Set, Controls;
    SingleTurn(m, w, TimerExpired(g), ok);
    var n := Noted(m, TimerExpired(g), ok);
    QuietTurn(n, w.(before := []), ok);
    var p := n.pids.(flags := NO_FLAGS);
    StepInv(m.pids, Expired(g), ok);
    BitsInv(n.pids, p);
    AtMost(p);
    forall h | 0 <= h < WIDTH ensures Has(p.pending, h) <==> h == g {
      HasSet(0, g, h);
      HasNothing(h);
    }
    TimerControlsAll(p, w.timerTemps, w.elapsed, ok);
    var q := OnTimer(p, true, w.timerTemps, w.elapsed, ok);
    forall i | 0 <= i < |p.clients|
      ensures var c := p.clients[i];
              |c.errs| == |q.clients[i].errs| == 3 && p.groups[g].sampling > 0 &&
              if c.mitigating && c.group == g
              then Controls(c, q.clients[i], w.timerTemps(g)(i), w.elapsed(g), p.groups[g].sampling)
              else q.clients[i] == c
    {
      WellFormedAt(p, i);
      WellFormedAt(q, i);
      PositivePeriod(p, g);
      assert Has(p.pending, p.clients[i].group) <==> p.clients[i].group == g;
    }
    assert OnWake(m, w, ok).pids == q;
    assert p.clients == m.pids.clients && p.groups[g].sampling == m.pids.groups[g].sampling;
  }

  /** A new override mode is in force after two turns: every enabled client with an overshoot
      mitigates or not as it reads against its clear point, raised or not. */
  lemma {:induction false} OverrideTakesEffect(m: Monitor, w: Wake, next: Wake, mode: bool, ok: Oracle, i: nat)
    requires WellFormed(m.pids) && m.pids.flags == NO_FLAGS && m.mode != mode
    requires Single(w, OverrideSet(mode)) && Quiet(next)
    requires i < |m.pids.clients| && HasOvershoot(m.pids.clients[i])
    ensures var (c, r) := (m.pids.clients[i], OnWake(OnWake(m, w, ok), next, ok).pids);
            var clear := c.setting.setPointClr + if mode then c.setting.overshoot else 0;
            && |r.clients| == |m.pids.clients|
            && (r.clients[i].mitigating <==>
                  if c.mitigating then next.threshTemps(i) > clear else next.threshTemps(i) >= clear)
            && r.clients[i].setPoint == c.setting.setPoint + (if mode then c.setting.overshoot else 0)
            && r.clients[i].setPointClr == clear && r.clients[i].prevAdjustment == 0 && r.clients[i].errs == [0, 0, 0]
  {
    hide WellFormed, OnOverride, OnThresh, OnWake, Has;
    SingleTurn(m, w, OverrideSet(mode), ok);
    var n := Noted(m, OverrideSet(mode), ok);
    assert n.pids.(flags := NO_FLAGS) == m.pids && n.mode == mode;
    QuietTurn(n, w.(before := []), ok);
    OverrideSets(m.pids, mode, |m.pids.clients|, i);
    var m1 := OnWake(m, w, ok);
    QuietTurn(m1, next, ok);
    ThreshDecides(m1.pids.(flags := NO_FLAGS), next.threshTemps, ok);
  }

  /** A change of configuration takes effect. If a request changes what an instance is set to and
      nothing else comes in, the next turn decides anew, from the temperature it reads: the
      instance mitigates if and only if it is enabled and reads no less than its clear point, or
      more than that if it mitigated before; and one that begins to does so at its highest level. */
  lemma {:induction false} ChangeTakesEffect(m: Monitor, w: Wake, next: Wake, batch: seq<Entry>, ok: Oracle, i: nat)
    requires WellFormed(m.pids) && Inv(m.pids) && m.pids.flags == NO_FLAGS && 0 < |batch| <= 32
    requires Single(w, PidMonitor.Requested(batch)) && Quiet(next) && i < |m.pids.clients|
    ensures var q := OnConfig(m.pids, batch, ok);
            var r := OnWake(OnWake(m, w, ok), next, ok).pids;
            && |q.clients| == |r.clients| == |m.pids.clients|
            && (QuadOf(q, i) != QuadOf(m.pids, i) ==>
                  var (c, d, temp) := (q.clients[i], r.clients[i], next.threshTemps(i));
                  && (d.mitigating <==> !c.disabled && if c.mitigating then temp > c.setPointClr else temp >= c.setPointClr)
                  && (d.mitigating && !c.mitigating ==> d.devOpLvl == c.maxOpLvl))
  {
    hide WellFormed, Inv, OnConfig, OnWake, OnThresh, Has, QuadOf;
    RequestHandled(m, w, batch, ok);
    ConfigNotifies(m.pids, batch, ok);
    var m1 := OnWake(m, w, ok);
    var q := m1.pids;
    StepInv(m.pids, ConfigSet(batch), ok);
    QuietTurn(m1, next, ok);
    if QuadOf(q, i) != QuadOf(m.pids, i) {
      DisabledIdle(q, i);
      ThreshDecides(q.(flags := NO_FLAGS), next.threshTemps, ok);
    }
  }

  // ------------------------------------------------------------ what is accepted

  /** An entry is accepted if and only if some instance has its description and, of the first
      that does, it names something, a switch of 0 or 1, a period of at least 50 ms, and set
      points that are values and in order; a set point whose field holds INT_MIN is taken from
      the instance for the comparison. */
  lemma {:induction false} AcceptedIff(p: Pids, e: Entry)
    ensures Validate(p, e) < |p.clients| <==>
            exists i :: 0 <= i < |p.clients| && p.clients[i].desc == e.desc &&
              (forall k | 0 <= k < i :: p.clients[k].desc != e.desc) && Acceptable(e, p.clients[i])
    ensures forall i | 0 <= i < |p.clients| && p.clients[i].desc == e.desc &&
              (forall k | 0 <= k < i :: p.clients[k].desc != e.desc) && Acceptable(e, p.clients[i]) ::
              Validate(p, e) == i
  {
    hide Names, FirstIndex;
    var f := FindClient(p.clients, e.desc);
    forall i | 0 <= i < |p.clients| && p.clients[i].desc == e.desc && (forall k | 0 <= k < i :: p.clients[k].desc != e.desc)
      ensures i == f && (ValidEntry(e, p.clients[i]) <==> Acceptable(e, p.clients[i]))
    {
      FieldBits(e);
    }
    if f < |p.clients| {
      FieldBits(e);
    }
  }

  lemma {:induction false} FieldBits(e: Entry)
    ensures Names(e, DISABLE_FIELD) <==> e.fieldsMask & 0x1 != 0
    ensures Names(e, SAMPLING_FIELD) <==> e.fieldsMask & 0x2 != 0
    ensures Names(e, SET_POINT_FIELD) <==> e.fieldsMask & 0x4 != 0
    ensures Names(e, SET_POINT_CLR_FIELD) <==> e.fieldsMask & 0x8 != 0
  {
  }

  predicate Acceptable(e: Entry, c: Client) {
    var none := -0x8000_0000;
    var high, low := if e.setPoint == none then c.setPoint else e.setPoint,
                     if e.setPointClr == none then c.setPointClr else e.setPointClr;
    && e.fieldsMask != 0
    && (e.fieldsMask & 0x1 != 0 ==> e.disable == 0 || e.disable == 1)
    && (e.fieldsMask & 0x2 != 0 ==> e.sampling >= 50)
    && (e.fieldsMask & 0x4 != 0 ==> e.setPoint != none && high > low)
    && (e.fieldsMask & 0x8 != 0 ==> e.setPointClr != none && high > low)
  }

  // ------------------------------------------------------------ the start

  /** What start-up makes of a controller as configured: idle at its device's highest level, with
      the set points configured, in the group of its period, a thousand seconds at most. */
  lemma {:induction false} BootAt(es: seq<Init>, i: nat)
    requires (forall e | e in es :: GoodInit(e)) && i < |Boot(es).clients|
    ensures |Boot(es).clients| == Min(32, |es|) && i < |es|
    ensures var (p, e) := (Boot(es), es[i]);
            var c := p.clients[i];
            && c.desc == e.desc && c.setting == e.setting && c.minOpLvl == e.minOpLvl && c.maxOpLvl == e.maxOpLvl
            && c.devOpLvl == e.maxOpLvl && !c.mitigating && c.errs == [0, 0, 0] && c.prevAdjustment == 0
            && c.setPoint == e.setting.setPoint && c.setPointClr == e.setting.setPointClr && c.disabled == e.disable
            && c.group < |p.groups| && p.groups[c.group].sampling == Min(1000000, e.samplingPeriodMs)
  {
    hide WellFormed, FirstIndex, GoodInit;
    BootCount(es);
    var front := Boot(es[..|es| - 1]);
    if |front.clients| < 32 && i == |front.clients| {
      BootCount(es[..|es| - 1]);
    } else {
      BootCount(es[..|es| - 1]);
      BootAt(es[..|es| - 1], i);
    }
  }

  lemma {:induction false} BootCount(es: seq<Init>)
    requires forall e | e in es :: GoodInit(e)
    ensures |Boot(es).clients| == Min(32, |es|)
  {
    hide WellFormed, FindGroup, GoodInit;
    if es != [] {
      BootCount(es[..|es| - 1]);
    }
  }
}
