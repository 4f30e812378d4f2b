/** What every handler of the controllers keeps, and so every run: who is in which timer
    group, which timers run, and the bounds of each controller. */
module PidInvariant {
  import opened Bitmask
  import opened ErrorRing
  import opened Pid

  // --------------------------------------------------------------- invariants

  /** A controller's level is within its device's range, what it remembers of its last
      adjustment is within the width of that range, and it remembers nothing while idle;
      a disabled client is idle. */
  predicate ClientOk(c: Client) {
    && c.minOpLvl <= c.devOpLvl <= c.maxOpLvl
    && -(c.maxOpLvl - c.minOpLvl) <= c.prevAdjustment <= c.maxOpLvl - c.minOpLvl
    && (!c.mitigating ==> c.prevAdjustment == 0)
    && (c.disabled ==> !c.mitigating)
  }

  predicate Belongs(p: Pids, g: nat, i: nat) {
    i < |p.clients| && p.clients[i].mitigating && p.clients[i].group == g
  }

  /** A client's bit is set in a group exactly when it is mitigating and the group is its own. */
  ghost predicate Membership(p: Pids) {
    forall g, i | 0 <= g < |p.groups| && 0 <= i < WIDTH :: Has(p.groups[g].mask, i) <==> Belongs(p, g, i)
  }

  ghost predicate Distinct(groups: seq<Group>) {
    forall g, h | 0 <= g < h < |groups| :: groups[g].sampling != groups[h].sampling
  }

  ghost predicate Inv(p: Pids) {
    && WellFormed(p) && Membership(p) && Distinct(p.groups)
    && forall i | 0 <= i < |p.clients| :: ClientOk(p.clients[i])
  }

  /** An enabled group has its own period in its timer, and the timer is running or has
      expired and waits to be handled. A group that is not has no timer running. */
  predicate GroupOk(group: Group, expired: bool) {
    if group.enabled then group.value == group.sampling && (group.armed || expired)
    else !group.armed && (expired ==> group.value == 0)
  }

  ghost predicate Ticking(p: Pids, n: nat)
    requires n <= |p.groups|
  {
    && (forall g | 0 <= g < n :: GroupOk(p.groups[g], Has(p.pending, g)))
    && (forall g | |p.groups| <= g < WIDTH :: !Has(p.pending, g))
  }

  /** Of the first `n` groups, those are enabled that somebody is in. */
  ghost predicate Matched(p: Pids, n: nat)
    requires n <= |p.groups|
  {
    forall g | 0 <= g < n :: p.groups[g].enabled <==> p.groups[g].mask != 0
  }

  ghost predicate Timers(p: Pids) {
    Ticking(p, |p.groups|) && Matched(p, |p.groups|)
  }

  ghost predicate AlwaysOk(ok: Oracle) {
    forall n :: ok(n)
  }

  // ------------------------------------------------------------ small steps

  /** Groups as they were, but for their timers. */
  ghost predicate SameMasks(p: Pids, q: Pids) {
    && q.clients == p.clients && |q.groups| == |p.groups| && q.pending == p.pending
    && forall g | 0 <= g < |p.groups| ::
         q.groups[g].mask == p.groups[g].mask && q.groups[g].sampling == p.groups[g].sampling
  }

  lemma {:induction false} EnableEffect(p: Pids, g: nat, ok: Oracle)
    requires g < |p.groups|
    ensures var (q, r) := Enable(p, g, ok);
            && SameMasks(p, q) && r == ok(p.calls)
            && (forall h | 0 <= h < |p.groups| && h != g :: q.groups[h] == p.groups[h])
            && (r ==> q.groups[g] == p.groups[g].(value := p.groups[g].sampling, armed := p.groups[g].sampling != 0,
                                                 enabled := true))
  {
  }

  lemma {:induction false} DisableEffect(p: Pids, g: nat, ok: Oracle)
    requires g < |p.groups|
    ensures var q := Disable(p, g, ok);
            && SameMasks(p, q)
            && (forall h | 0 <= h < |p.groups| && h != g :: q.groups[h] == p.groups[h])
            && (ok(p.calls) ==> q.groups[g] == p.groups[g].(value := 0, armed := false, enabled := false))
  {
  }

  lemma SetNotEmpty(mask: bv32, i: nat)
    requires i < WIDTH
    ensures Set(mask, i) != 0
  {
    HasSet(mask, i, i);
    HasNothing(i);
  }

  lemma {:induction false} JoinEffect(p: Pids, g: nat, i: nat)
    requires g < |p.groups| && i < WIDTH
    ensures var q := Join(p, g, i);
            && q.clients == p.clients && |q.groups| == |p.groups| && q.pending == p.pending && q.calls == p.calls
            && q.groups[g].mask != 0
            && (forall h | 0 <= h < |p.groups| :: q.groups[h] == p.groups[h].(mask := q.groups[h].mask))
            && (forall h | 0 <= h < |p.groups| && h != g :: q.groups[h] == p.groups[h])
            && (forall h, k | 0 <= h < |p.groups| && 0 <= k < WIDTH ::
                  Has(q.groups[h].mask, k) <==> (h == g && k == i) || Has(p.groups[h].mask, k))
  {
    hide Set, Has;
    var q := Join(p, g, i);
    SetNotEmpty(p.groups[g].mask, i);
    forall h, k | 0 <= h < |p.groups| && 0 <= k < WIDTH
      ensures Has(q.groups[h].mask, k) <==> (h == g && k == i) || Has(p.groups[h].mask, k)
    {
      HasSet(p.groups[g].mask, i, k);
    }
  }

  lemma {:induction false} LeaveEffect(p: Pids, g: nat, i: nat)
    requires g < |p.groups| && i < WIDTH
    ensures var q := Leave(p, g, i);
            && q.clients == p.clients && |q.groups| == |p.groups| && q.pending == p.pending && q.calls == p.calls
            && (forall h | 0 <= h < |p.groups| :: q.groups[h] == p.groups[h].(mask := q.groups[h].mask))
            && (forall h | 0 <= h < |p.groups| && h != g :: q.groups[h] == p.groups[h])
            && (forall h, k | 0 <= h < |p.groups| && 0 <= k < WIDTH ::
                  Has(q.groups[h].mask, k) <==> !(h == g && k == i) && Has(p.groups[h].mask, k))
  {
    hide Clear, Has;
    var q := Leave(p, g, i);
    forall h, k | 0 <= h < |p.groups| && 0 <= k < WIDTH
      ensures Has(q.groups[h].mask, k) <==> !(h == g && k == i) && Has(p.groups[h].mask, k)
    {
      HasClear(p.groups[g].mask, i, k);
    }
  }

  /** Leaving a group keeps its timer right, when the timer calls succeed. */
  lemma {:induction false} LeaveAndStopEffect(p: Pids, g: nat, i: nat, ok: Oracle)
    requires g < |p.groups| && i < WIDTH
    ensures var q := LeaveAndStop(p, g, i, ok);
            && q.clients == p.clients && |q.groups| == |p.groups| && q.pending == p.pending
            && (forall h | 0 <= h < |p.groups| :: q.groups[h].sampling == p.groups[h].sampling)
            && (forall h | 0 <= h < |p.groups| && h != g :: q.groups[h] == p.groups[h])
            && (forall h, k | 0 <= h < |p.groups| && 0 <= k < WIDTH ::
                  Has(q.groups[h].mask, k) <==> !(h == g && k == i) && Has(p.groups[h].mask, k))
            && (AlwaysOk(ok) && GroupOk(p.groups[g], Has(p.pending, g)) &&
                (p.groups[g].mask != 0 ==> p.groups[g].enabled) ==>
                  GroupOk(q.groups[g], Has(q.pending, g)) &&
                  (q.groups[g].enabled ==> q.groups[g].mask != 0) &&
                  (q.groups[g].mask != 0 ==> q.groups[g].enabled))
  {
    hide Leave, Disable, Has, Clear;
    LeaveEffect(p, g, i);
    LeaveMask(p, g, i);
    DisableEffect(Leave(p, g, i), g, ok);
  }

  lemma {:induction false} LeaveMask(p: Pids, g: nat, i: nat)
    requires g < |p.groups| && i < WIDTH
    ensures Leave(p, g, i).groups[g].mask != 0 ==> p.groups[g].mask != 0
  {
    hide Clear, Has;
    var m := Clear(p.groups[g].mask, i);
    if m != 0 {
      var k := SomeBit(m);
      HasClear(p.groups[g].mask, i, k);
      HasNothing(k);
    }
  }

  // ------------------------------------------------------------- membership

  /** Only client `i` and its bits have changed, and they agree. */
  ghost predicate Rejoined(p: Pids, q: Pids, i: nat) {
    && i < |p.clients| == |q.clients| && |q.groups| == |p.groups| && q.pending == p.pending
    && (forall k | 0 <= k < |p.clients| && k != i :: q.clients[k] == p.clients[k])
    && (forall h | 0 <= h < |p.groups| :: q.groups[h].sampling == p.groups[h].sampling)
    && (forall h, k | 0 <= h < |p.groups| && 0 <= k < WIDTH ::
          Has(q.groups[h].mask, k) <==> if k == i then Belongs(q, h, i) else Has(p.groups[h].mask, k))
  }

  lemma {:induction false} RejoinedInv(p: Pids, q: Pids, i: nat)
    requires Inv(p) && WellFormed(q) && Rejoined(p, q, i) && ClientOk(q.clients[i])
    ensures Inv(q)
  {
    hide Has, ClientOk, WellFormed;
    forall g, k | 0 <= g < |q.groups| && 0 <= k < WIDTH
      ensures Has(q.groups[g].mask, k) <==> Belongs(q, g, k)
    {
      assert Has(p.groups[g].mask, k) <==> Belongs(p, g, k);
    }
    forall k | 0 <= k < |q.clients| ensures ClientOk(q.clients[k]) {
      assert ClientOk(p.clients[k]);
    }
  }

  /** A client that changes neither its state nor its group. */
  lemma {:induction false} SameBits(p: Pids, q: Pids, i: nat, c: Client)
    requires Inv(p) && i < |p.clients| && q.clients == p.clients[i := c] && q.groups == p.groups
    requires c.mitigating == p.clients[i].mitigating && c.group == p.clients[i].group && ClientOk(c)
    requires |c.errs| == I_SAMPLES
    ensures Inv(q)
  {
    hide Has, ClientOk;
    forall g, k | 0 <= g < |q.groups| && 0 <= k < WIDTH
      ensures Has(q.groups[g].mask, k) <==> Belongs(q, g, k)
    {
      assert Has(p.groups[g].mask, k) <==> Belongs(p, g, k);
    }
    forall k | 0 <= k < |q.clients| ensures ClientOk(q.clients[k]) {
      assert k != i ==> ClientOk(p.clients[k]);
    }
  }

  lemma {:induction false} SameMasksInv(p: Pids, q: Pids)
    requires Inv(p) && WellFormed(q) && SameMasks(p, q)
    ensures Inv(q)
  {
    hide Has, ClientOk, WellFormed;
    forall g, k | 0 <= g < |q.groups| && 0 <= k < WIDTH
      ensures Has(q.groups[g].mask, k) <==> Belongs(q, g, k)
    {
      assert Has(p.groups[g].mask, k) <==> Belongs(p, g, k);
    }
  }

  // --------------------------------------------------------------- thresholds

  lemma {:induction false} ThreshClientInv(p: Pids, i: nat, temp: int)
    requires Inv(p) && i < |p.clients|
    ensures var q := ThreshClient(p, i, temp);
            Inv(q)
  {
    hide Has, Set, Clear, Join, Leave, Inv, WellFormed;
    InvAt(p, i);
    var q, c := ThreshClient(p, i, temp), p.clients[i];
    if !Has(p.reached, i) {
    } else if c.disabled {
      assert p.clients == p.clients[i := c];
      SameBits(p, q, i, c);
    } else {
      JoinEffect(WithClient(p.(reached := Clear(p.reached, i)), i, q.clients[i]), c.group, i);
      LeaveEffect(WithClient(p.(reached := Clear(p.reached, i)), i, q.clients[i]), c.group, i);
      RejoinedHere(p, q, i);
      RejoinedInv(p, q, i);
    }
  }

  lemma {:induction false} ThreshClientTicking(p: Pids, i: nat, temp: int)
    requires WellFormed(p) && i < |p.clients| && Ticking(p, |p.groups|)
    ensures Ticking(ThreshClient(p, i, temp), |p.groups|)
  {
    hide Has, Clear, WellFormed, Join, Leave, Ticking;
    WellFormedAt(p, i);
    AtMost(p);
    var q, c := ThreshClient(p, i, temp), p.clients[i];
    var p1 := p.(reached := Clear(p.reached, i));
    if !Has(p.reached, i) {
    } else if c.disabled {
      MasksTick(p, q);
    } else {
      var p2 := WithClient(p1, i, ThreshedClient(c, temp));
      if ThreshedClient(c, temp).mitigating {
        JoinEffect(p2, c.group, i);
      } else {
        LeaveEffect(p2, c.group, i);
      }
      MasksTick(p, q);
    }
  }

  /** Timers do not depend on the masks. */
  lemma {:induction false} MasksTick(p: Pids, q: Pids)
    requires Ticking(p, |p.groups|) && |q.groups| == |p.groups| && q.pending == p.pending
    requires forall h | 0 <= h < |p.groups| :: q.groups[h] == p.groups[h].(mask := q.groups[h].mask)
    ensures Ticking(q, |q.groups|)
  {
    hide Has;
    forall g | 0 <= g < |q.groups| ensures GroupOk(q.groups[g], Has(q.pending, g)) {
      assert GroupOk(p.groups[g], Has(p.pending, g));
    }
  }

  lemma {:induction false} InvAt(p: Pids, i: nat)
    requires Inv(p) && i < |p.clients|
    ensures WellFormed(p) && ClientOk(p.clients[i]) && p.clients[i].group < |p.groups| && |p.clients[i].errs| == I_SAMPLES
    ensures i < WIDTH && |p.clients| <= WIDTH && |p.groups| <= WIDTH
    ensures forall g | 0 <= g < |p.groups| :: Has(p.groups[g].mask, i) <==> Belongs(p, g, i)
  {
    hide Has, ClientOk;
  }

  /** A bit set or cleared in the client's own group, to say whether it is mitigating. */
  lemma {:induction false} RejoinedHere(p: Pids, q: Pids, i: nat)
    requires Inv(p) && i < |p.clients| == |q.clients| && |q.groups| == |p.groups| && q.pending == p.pending
    requires forall k | 0 <= k < |p.clients| && k != i :: q.clients[k] == p.clients[k]
    requires q.clients[i].group == p.clients[i].group
    requires forall h | 0 <= h < |p.groups| :: q.groups[h].sampling == p.groups[h].sampling
    requires forall h, k | 0 <= h < |p.groups| && 0 <= k < WIDTH ::
               Has(q.groups[h].mask, k) <==>
               if h == p.clients[i].group && k == i then q.clients[i].mitigating else Has(p.groups[h].mask, k)
    ensures Rejoined(p, q, i)
  {
    hide Has, ClientOk, WellFormed;
    forall h, k | 0 <= h < |p.groups| && 0 <= k < WIDTH
      ensures Has(q.groups[h].mask, k) <==> if k == i then Belongs(q, h, i) else Has(p.groups[h].mask, k)
    {
      assert Has(p.groups[h].mask, k) <==> Belongs(p, h, k);
    }
  }

  lemma {:induction false} ThreshClientsInv(p: Pids, temps: Temps, n: nat)
    requires Inv(p) && WellFormed(p) && n <= |p.clients|
    ensures var q := ThreshClients(p, temps, n);
            Inv(q) && (Ticking(p, |p.groups|) ==> Ticking(q, |p.groups|))
  {
    hide ThreshClient, Inv, WellFormed, Ticking;
    if n > 0 {
      ThreshClientsInv(p, temps, n - 1);
      var q := ThreshClients(p, temps, n - 1);
      ThreshClientInv(q, n - 1, temps(n - 1));
      if Ticking(q, |q.groups|) {
        ThreshClientTicking(q, n - 1, temps(n - 1));
      }
    }
  }

  lemma {:induction false} ThreshGroupInv(p: Pids, g: nat, ok: Oracle)
    requires Inv(p) && g < |p.groups|
    ensures var q := ThreshGroup(p, g, ok);
            && Inv(q) && |q.groups| == |p.groups|
            && (AlwaysOk(ok) && Ticking(p, |p.groups|) && Matched(p, g) ==> Ticking(q, |p.groups|) && Matched(q, g + 1))
  {
    hide Enable, Disable, Has, ClientOk;
    EnableEffect(p, g, ok);
    DisableEffect(p, g, ok);
    assert p.groups[g].sampling > 0;
    if SameMasks(p, ThreshGroup(p, g, ok)) {
      SameMasksInv(p, ThreshGroup(p, g, ok));
    }
  }

  lemma {:induction false} ThreshGroupsInv(p: Pids, ok: Oracle, n: nat)
    requires Inv(p) && WellFormed(p) && n <= |p.groups|
    ensures var q := ThreshGroups(p, ok, n);
            && Inv(q)
            && (AlwaysOk(ok) && Ticking(p, |p.groups|) ==> Ticking(q, |p.groups|) && Matched(q, n))
  {
    hide ThreshGroup, Inv, WellFormed, Ticking;
    if n > 0 {
      ThreshGroupsInv(p, ok, n - 1);
      ThreshGroupInv(ThreshGroups(p, ok, n - 1), n - 1, ok);
    }
  }

  /** After the threshold handler the timers are right again even if the masks and the
      enabled flags had come apart. */
  lemma {:induction false} ThreshInv(p: Pids, temps: Temps, ok: Oracle)
    requires Inv(p) && WellFormed(p)
    ensures var q := OnThresh(p, temps, ok);
            Inv(q) && (AlwaysOk(ok) && Ticking(p, |p.groups|) ==> Timers(q))
  {
    hide ThreshClients, ThreshGroups, Inv, WellFormed, Ticking, Matched;
    ThreshClientsInv(p, temps, |p.clients|);
    ThreshGroupsInv(ThreshClients(p, temps, |p.clients|), ok, |p.groups|);
  }

  // ----------------------------------------------------------------- override

  lemma {:induction false} OverrideClientInv(p: Pids, i: nat, mode: bool)
    requires Inv(p) && WellFormed(p) && i < |p.clients|
    ensures Inv(OverrideClient(p, i, mode)) && (Timers(p) ==> Timers(OverrideClient(p, i, mode)))
  {
    hide Has, Set, Inv;
    InvAt(p, i);
    var q := OverrideClient(p, i, mode);
    if q != p {
      assert q.clients == p.clients[i := q.clients[i]];
      SameBits(p, q, i, q.clients[i]);
    }
  }

  lemma {:induction false} OverrideInv(p: Pids, mode: bool, n: nat)
    requires Inv(p) && WellFormed(p) && n <= |p.clients|
    ensures Inv(OnOverride(p, mode, n)) && (Timers(p) ==> Timers(OnOverride(p, mode, n)))
  {
    hide OverrideClient, Inv, WellFormed, Timers;
    if n > 0 {
      OverrideInv(p, mode, n - 1);
      OverrideClientInv(OnOverride(p, mode, n - 1), n - 1, mode);
    }
  }

  // -------------------------------------------------------------------- timer

  /** Whatever the gains and the reading, one sample leaves the controller in bounds. */
  lemma {:induction false} SampledOk(c: Client, temp: int, sampleCnt: int, sampling: int)
    requires ClientOk(c) && c.mitigating && |c.errs| == I_SAMPLES && sampling > 0
    ensures var d := Sampled(c, temp, sampleCnt, sampling);
            ClientOk(d) && d.mitigating && d.group == c.group
  {
    hide Correction, Pushed;
  }

  lemma {:induction false} TimerClientInv(p: Pids, g: nat, i: nat, temp: int, sampleCnt: int)
    requires Inv(p) && WellFormed(p) && g < |p.groups| && i < |p.clients|
    ensures Inv(TimerClient(p, g, i, temp, sampleCnt))
  {
    hide Has, Sampled, Inv;
    InvAt(p, i);
    var q, c := TimerClient(p, g, i, temp, sampleCnt), p.clients[i];
    if c.mitigating {
      SampledOk(c, temp, sampleCnt, p.groups[g].sampling);
    }
    if q != p {
      SameBits(p, q, i, q.clients[i]);
    }
  }

  lemma {:induction false} TimerClientsInv(p: Pids, g: nat, temps: Temps, sampleCnt: int, n: nat)
    requires Inv(p) && WellFormed(p) && g < |p.groups| && n <= |p.clients|
    ensures Inv(TimerClients(p, g, temps, sampleCnt, n))
  {
    hide TimerClient, Inv, WellFormed;
    if n > 0 {
      TimerClientsInv(p, g, temps, sampleCnt, n - 1);
      TimerClientInv(TimerClients(p, g, temps, sampleCnt, n - 1), g, n - 1, temps(n - 1), sampleCnt);
    }
  }

  lemma {:induction false} TimerGroupInv(p: Pids, g: nat, expired: bv32, temps: Temps, elapsed: int)
    requires Inv(p) && WellFormed(p) && g < |p.groups|
    ensures var q := TimerGroup(p, g, expired, temps, elapsed);
            && Inv(q) && q.groups == p.groups
            && forall h | 0 <= h < WIDTH ::
                 Has(q.pending, h) <==> Has(p.pending, h) && !(h == g && Has(expired, g))
  {
    hide TimerClients, Has, Clear, SampleCount, ClientOk;
    if Has(expired, g) {
      TimerClientsInv(p, g, temps, SampleCount(elapsed, p.groups[g].sampling), |p.clients|);
      var q := TimerClients(p, g, temps, SampleCount(elapsed, p.groups[g].sampling), |p.clients|);
      SameMasksInv(q, TimerGroup(p, g, expired, temps, elapsed).(pending := q.pending));
      forall h | 0 <= h < WIDTH ensures Has(Clear(p.pending, g), h) <==> Has(p.pending, h) && h != g {
        HasClear(p.pending, g, h);
      }
    }
  }

  lemma {:induction false} TimerGroupsInv(p: Pids, expired: bv32, temps: nat -> Temps, elapsed: nat -> int, n: nat)
    requires Inv(p) && WellFormed(p) && n <= |p.groups|
    ensures var q := TimerGroups(p, expired, temps, elapsed, n);
            && Inv(q)
            && forall h | 0 <= h < WIDTH ::
                 Has(q.pending, h) <==> Has(p.pending, h) && !(h < n && Has(expired, h))
  {
    hide TimerGroup, Has, Inv, WellFormed;
    if n > 0 {
      TimerGroupsInv(p, expired, temps, elapsed, n - 1);
      TimerGroupInv(TimerGroups(p, expired, temps, elapsed, n - 1), n - 1, expired, temps(n - 1), elapsed(n - 1));
    }
  }

  lemma {:induction false} RestartEffect(p: Pids, expired: bv32, ok: Oracle, n: nat)
    requires Inv(p) && WellFormed(p) && n <= |p.groups|
    ensures var q := Restart(p, expired, ok, n);
            && Inv(q) && q.pending == p.pending
            && (AlwaysOk(ok) ==>
                  forall h | 0 <= h < |p.groups| ::
                    q.groups[h] == p.groups[h].(armed :=
                      if h < n && Has(expired, h) then p.groups[h].value != 0 else p.groups[h].armed))
  {
    hide Has, Inv, WellFormed;
    if n > 0 {
      RestartEffect(p, expired, ok, n - 1);
      var q := Restart(p, expired, ok, n - 1);
      SameMasksInv(q, Restart(p, expired, ok, n));
    }
  }

  /** The timer handler restarts what has expired, so no enabled group stops ticking. */
  lemma {:induction false} TimerInv(p: Pids, clockOk: bool, temps: nat -> Temps, elapsed: nat -> int, ok: Oracle)
    requires Inv(p) && WellFormed(p)
    ensures var q := OnTimer(p, clockOk, temps, elapsed, ok);
            Inv(q) && (AlwaysOk(ok) && Timers(p) ==> Timers(q))
  {
    hide Has, Restart, TimerGroups, ClientOk;
    if clockOk {
      var q := TimerGroups(p, p.pending, temps, elapsed, |p.groups|);
      TimerGroupsInv(p, p.pending, temps, elapsed, |p.groups|);
      RestartEffect(q, p.pending, ok, |p.groups|);
    }
  }

  // ------------------------------------------------------------ configuration

  lemma {:induction false} DisableAdjustInv(p: Pids, i: nat, disable: bool, ok: Oracle)
    requires Inv(p) && WellFormed(p) && i < |p.clients|
    ensures var q := DisableAdjust(p, i, disable, ok).0;
            Inv(q) && (AlwaysOk(ok) && Timers(p) ==> Timers(q))
  {
    hide Has, LeaveAndStop, Inv;
    InvAt(p, i);
    var q, c := DisableAdjust(p, i, disable, ok).0, p.clients[i];
    if !disable {
      if q != p {
        SameBits(p, q, i, q.clients[i]);
      }
    } else {
      var c1 := c.(devOpLvl := c.maxOpLvl, mitigating := false, prevAdjustment := 0, disabled := true);
      LeaveAndStopEffect(WithClient(p, i, c1), c.group, i, ok);
      RejoinedHere(p, q, i);
      RejoinedInv(p, q, i);
    }
  }

  lemma {:induction false} MoveInv(p: Pids, i: nat, s: nat, ok: Oracle)
    requires Inv(p) && WellFormed(p) && i < |p.clients| && s < |p.groups| && s != p.clients[i].group
    ensures Inv(Move(p, i, s, ok).0)
  {
    hide Has, LeaveAndStop, Join, Leave, Enable, Inv, ClientOk;
    InvAt(p, i);
    var (q, r) := Move(p, i, s, ok);
    var c := p.clients[i];
    if c.disabled || !Has(p.groups[c.group].mask, i) {
      IdleMoves(p, i, s);
    } else {
      var p1 := Join(p, s, i);
      JoinEffect(p, s, i);
      EnableEffect(p1, s, ok);
      var p2 := if p1.groups[s].mask != 0 && !p1.groups[s].enabled then Enable(p1, s, ok).0 else p1;
      LeaveEffect(p2, s, i);
      LeaveAndStopEffect(p2, c.group, i, ok);
      MovedRejoined(p, q, i, s, r);
      ElsewhereOk(c, s);
      RejoinedInv(p, q, i);
    }
  }

  lemma {:induction false} ElsewhereOk(c: Client, s: nat)
    requires ClientOk(c)
    ensures ClientOk(c.(group := s))
  {
  }

  lemma {:induction false} MoveTimers(p: Pids, i: nat, s: nat, ok: Oracle)
    requires WellFormed(p) && i < |p.clients| && s < |p.groups| && s != p.clients[i].group
    requires AlwaysOk(ok) && Timers(p)
    ensures Timers(Move(p, i, s, ok).0)
  {
    hide Has, LeaveAndStop, Join, Leave, Enable, WellFormed;
    WellFormedAt(p, i);
    assert p.groups[s].sampling > 0 by { PositivePeriod(p, s); }
    var c := p.clients[i];
    if !(c.disabled || !Has(p.groups[c.group].mask, i)) {
      var p1 := Join(p, s, i);
      AtMost(p);
      JoinEffect(p, s, i);
      EnableEffect(p1, s, ok);
      var p2 := if p1.groups[s].mask != 0 && !p1.groups[s].enabled then Enable(p1, s, ok).0 else p1;
      LeaveAndStopEffect(p2, c.group, i, ok);
    }
  }

  lemma {:induction false} AtMost(p: Pids)
    requires WellFormed(p)
    ensures |p.clients| <= WIDTH && |p.groups| <= WIDTH
  {
  }

  lemma {:induction false} IdleMoves(p: Pids, i: nat, s: nat)
    requires Inv(p) && i < |p.clients| && s < |p.groups|
    requires p.clients[i].disabled || !Has(p.groups[p.clients[i].group].mask, i)
    ensures Inv(WithClient(p, i, p.clients[i].(group := s)))
  {
    hide Has;
    var q := WithClient(p, i, p.clients[i].(group := s));
    assert Has(p.groups[p.clients[i].group].mask, i) <==> Belongs(p, p.clients[i].group, i);
    assert ClientOk(p.clients[i]) && !p.clients[i].mitigating;
    RejoinedIdle(p, q, i);
    RejoinedInv(p, q, i);
  }

  lemma {:induction false} RejoinedIdle(p: Pids, q: Pids, i: nat)
    requires Inv(p) && i < |p.clients| == |q.clients| && q.groups == p.groups && q.pending == p.pending
    requires forall k | 0 <= k < |p.clients| && k != i :: q.clients[k] == p.clients[k]
    requires !p.clients[i].mitigating && !q.clients[i].mitigating
    ensures Rejoined(p, q, i)
  {
    hide Has, ClientOk, WellFormed;
    forall h, k | 0 <= h < |p.groups| && 0 <= k < WIDTH
      ensures Has(q.groups[h].mask, k) <==> if k == i then Belongs(q, h, i) else Has(p.groups[h].mask, k)
    {
      assert Has(p.groups[h].mask, k) <==> Belongs(p, h, k);
    }
  }

  lemma {:induction false} MovedRejoined(p: Pids, q: Pids, i: nat, s: nat, r: bool)
    requires Inv(p) && i < |p.clients| == |q.clients| && |q.groups| == |p.groups| && q.pending == p.pending
    requires s < |p.groups| && s != p.clients[i].group && p.clients[i].mitigating
    requires q.clients == if r then p.clients[i := p.clients[i].(group := s)] else p.clients
    requires forall h | 0 <= h < |p.groups| :: q.groups[h].sampling == p.groups[h].sampling
    requires forall h, k | 0 <= h < |p.groups| && 0 <= k < WIDTH && k != i ::
               Has(q.groups[h].mask, k) <==> Has(p.groups[h].mask, k)
    requires forall h | 0 <= h < |p.groups| ::
               Has(q.groups[h].mask, i) <==>
               if h == s then r else if h == p.clients[i].group then !r else Has(p.groups[h].mask, i)
    ensures Rejoined(p, q, i)
  {
    hide Has, ClientOk, WellFormed;
    forall h, k | 0 <= h < |p.groups| && 0 <= k < WIDTH
      ensures Has(q.groups[h].mask, k) <==> if k == i then Belongs(q, h, i) else Has(p.groups[h].mask, k)
    {
      assert Has(p.groups[h].mask, k) <==> Belongs(p, h, k);
    }
  }

  lemma {:induction false} SamplingAdjustInv(p: Pids, i: nat, sampling: int, ok: Oracle)
    requires Inv(p) && WellFormed(p) && i < |p.clients|
    requires sampling != p.groups[p.clients[i].group].sampling
    ensures var q := SamplingAdjust(p, i, sampling, ok).0;
            Inv(q) && (AlwaysOk(ok) && Timers(p) ==> Timers(q))
  {
    hide Move, Inv, WellFormed, Timers;
    InvAt(p, i);
    var s := FindGroup(p.groups, sampling);
    if sampling < SAMPLING_MS_MINIMUM {
    } else if s < |p.groups| {
      MoveInv(p, i, s, ok);
      if AlwaysOk(ok) && Timers(p) {
        MoveTimers(p, i, s, ok);
      }
    } else if |p.groups| < MAX_PID_INSTANCES_SUPPORTED {
      var p1 := WithNewGroup(p, sampling, ok(p.calls));
      NewGroupInv(p, sampling, ok(p.calls));
      MoveInv(p1, i, s, ok);
      if AlwaysOk(ok) && Timers(p) {
        NewGroupTimers(p, sampling);
        MoveTimers(p1, i, s, ok);
      }
    }
  }

  lemma {:induction false} NewGroupInv(p: Pids, sampling: int, created: bool)
    requires Inv(p) && |p.groups| < MAX_PID_INSTANCES_SUPPORTED && sampling > 0
    requires forall g | 0 <= g < |p.groups| :: p.groups[g].sampling != sampling
    ensures Inv(WithNewGroup(p, sampling, created)) && WellFormed(WithNewGroup(p, sampling, created))
  {
    hide Has, ClientOk;
    var q := WithNewGroup(p, sampling, created);
    forall g, i | 0 <= g < |q.groups| && 0 <= i < WIDTH
      ensures Has(q.groups[g].mask, i) <==> Belongs(q, g, i)
    {
      HasNothing(i);
      if g < |p.groups| {
        assert Has(p.groups[g].mask, i) <==> Belongs(p, g, i);
      }
    }
  }

  lemma {:induction false} NewGroupTimers(p: Pids, sampling: int)
    requires Timers(p) && |p.groups| < MAX_PID_INSTANCES_SUPPORTED
    ensures Timers(WithNewGroup(p, sampling, true))
  {
    hide Has;
    assert !Has(p.pending, |p.groups|);
  }

  lemma {:induction false} RenotifyInv(p: Pids, i: nat)
    requires Inv(p) && i < |p.clients|
    ensures Inv(Renotify(p, i)) && (Timers(p) ==> Timers(Renotify(p, i)))
  {
    hide Inv, Has, Set;
    InvAt(p, i);
    SameBits(p, Renotify(p, i), i, p.clients[i].(errs := Flushed()));
  }

  lemma {:induction false} SetPointsInv(p: Pids, i: nat, e: Entry)
    requires Inv(p) && WellFormed(p) && i < |p.clients|
    ensures Inv(ApplySetPoints(p, i, e)) && (Timers(p) ==> Timers(ApplySetPoints(p, i, e)))
  {
    hide Inv, Has, Changes;
    InvAt(p, i);
    SameBits(p, ApplySetPoints(p, i, e), i, ApplySetPoints(p, i, e).clients[i]);
  }

  lemma {:induction false} ApplyEntryInv(p: Pids, i: nat, e: Entry, ok: Oracle)
    requires Inv(p) && WellFormed(p) && i < |p.clients|
    ensures var q := ApplyEntry(p, i, e, ok);
            Inv(q) && (AlwaysOk(ok) && Timers(p) ==> Timers(q))
  {
    hide Inv, WellFormed, Timers, DisableAdjust, SamplingAdjust, ApplySetPoints, Renotify, Names;
    DisableAdjustInv(p, i, e.disable == 1, ok);
    var (p1, ok1, disableDone) := ApplyDisable(p, i, e, ok);
    if ok1 {
      InvAt(p1, i);
      if Changes(p1, i, e, SAMPLING_FIELD) {
        SamplingAdjustInv(p1, i, e.sampling, ok);
      }
      var (p2, ok2, _) := ApplySampling(p1, i, e, ok);
      if ok2 {
        SetPointsInv(p2, i, e);
        RenotifyInv(ApplySetPoints(p2, i, e), i);
      } else if disableDone {
        DisableAdjustInv(p2, i, p.clients[i].disabled, ok);
        RenotifyInv(DisableAdjust(p2, i, p.clients[i].disabled, ok).0, i);
      }
    }
  }

  lemma {:induction false} ApplyBatchInv(p: Pids, targets: seq<nat>, batch: seq<Entry>, ok: Oracle, n: nat)
    requires Inv(p) && WellFormed(p) && n <= |batch| == |targets|
    requires forall k | 0 <= k < |targets| :: targets[k] < |p.clients|
    ensures var q := ApplyBatch(p, targets, batch, ok, n);
            Inv(q) && (AlwaysOk(ok) && Timers(p) ==> Timers(q))
  {
    hide ApplyEntry, Inv, WellFormed, Timers;
    if n > 0 {
      ApplyBatchInv(p, targets, batch, ok, n - 1);
      ApplyEntryInv(ApplyBatch(p, targets, batch, ok, n - 1), targets[n - 1], batch[n - 1], ok);
    }
  }

  // ---------------------------------------------------------------------- runs

  lemma {:induction false} AddClientInv(p: Pids, e: Init)
    requires Inv(p) && Timers(p) && GoodInit(e) && |p.clients| < MAX_PID_INSTANCES_SUPPORTED
    requires WellFormed(p) && |p.groups| <= |p.clients| && p.pending == 0
    ensures var q := AddClient(p, e);
            Inv(q) && Timers(q) && |q.groups| <= |q.clients| && q.pending == 0
  {
    hide Has;
    var q := AddClient(p, e);
    forall g, i | 0 <= g < |q.groups| && 0 <= i < WIDTH
      ensures Has(q.groups[g].mask, i) <==> Belongs(q, g, i)
    {
      HasNothing(i);
      if g < |p.groups| {
        assert Has(p.groups[g].mask, i) <==> Belongs(p, g, i);
      }
    }
    forall g | 0 <= g < WIDTH ensures !Has(q.pending, g) {
      HasNothing(g);
    }
  }

  lemma {:induction false} BootInv(es: seq<Init>)
    requires forall e | e in es :: GoodInit(e)
    ensures var p := Boot(es);
            Inv(p) && Timers(p) && |p.groups| <= |p.clients| && p.pending == 0
  {
    hide AddClient, Inv, Timers;
    if es == [] {
      NothingInv();
    } else {
      BootInv(es[..|es| - 1]);
      var p := Boot(es[..|es| - 1]);
      if |p.clients| < MAX_PID_INSTANCES_SUPPORTED {
        AddClientInv(p, es[|es| - 1]);
      }
    }
  }

  lemma NothingInv()
    ensures var p := Pids([], [], 0, 0, NO_FLAGS, 0);
            Inv(p) && Timers(p)
  {
    hide Has;
    forall g | 0 <= g < WIDTH ensures !Has(0, g) {
      HasNothing(g);
    }
  }

  lemma {:induction false} ExpiredInv(p: Pids, g: nat)
    requires Inv(p) && WellFormed(p)
    ensures var q := TimerExpires(p, g);
            Inv(q) && (Timers(p) ==> Timers(q))
  {
    hide Has, Set, ClientOk;
    var q := TimerExpires(p, g);
    if g < |p.groups| && p.groups[g].armed {
      SameMasksInv(p, q.(pending := p.pending, flags := p.flags));
      forall h | 0 <= h < WIDTH ensures Has(q.pending, h) <==> h == g || Has(p.pending, h) {
        HasSet(p.pending, g, h);
      }
    }
  }

  lemma {:induction false} StepInv(p: Pids, e: Event, ok: Oracle)
    requires Inv(p) && WellFormed(p)
    ensures var q := Step(p, e, ok);
            Inv(q) && (AlwaysOk(ok) && Timers(p) ==> Timers(q))
  {
    hide Inv, WellFormed, Timers, OnOverride, OnTimer, OnThresh, ApplyBatch, TimerExpires, Set, FirstBits;
    match e {
      case Override(mode) => OverrideInv(p, mode, |p.clients|);
      case Timer(clockOk, temps, elapsed) => TimerInv(p, clockOk, temps, elapsed, ok);
      case Thresh(temps) =>
        ThreshInv(p, temps, ok);
        TimersTick(p);
      case ConfigSet(batch) =>
        if AllValid(p, batch) {
          ApplyBatchInv(p, Targets(p, batch), batch, ok, |batch|);
        }
      case Expired(g) => ExpiredInv(p, g);
      case _ => BitsInv(p, Step(p, e, ok));
    }
  }

  lemma {:induction false} TimersTick(p: Pids)
    ensures Timers(p) ==> Ticking(p, |p.groups|)
  {
    hide Ticking;
  }

  /** The other events touch only the flags and the thresholds to be looked at. */
  lemma {:induction false} BitsInv(p: Pids, q: Pids)
    requires Inv(p) && WellFormed(q) && q.clients == p.clients && q.groups == p.groups && q.pending == p.pending
    ensures Inv(q) && (Timers(p) ==> Timers(q))
  {
    hide Has, ClientOk;
    assert SameMasks(p, q);
    SameMasksInv(p, q);
  }

  /** From any configuration, through any events, whatever timer calls fail: membership,
      the distinct periods and the bounds of every controller hold. If no timer call
      fails, a group is enabled exactly when somebody is in it, and then it keeps ticking. */
  lemma {:induction false} AllRuns(es: seq<Init>, events: seq<Event>, ok: Oracle)
    requires forall e | e in es :: GoodInit(e)
    ensures var p := Run(Boot(es), events, ok);
            Inv(p) && (AlwaysOk(ok) ==> Timers(p))
    decreases |events|
  {
    hide Inv, WellFormed, Timers, Step, Boot, GoodInit;
    if events == [] {
      BootInv(es);
    } else {
      AllRuns(es, events[..|events| - 1], ok);
      StepInv(Run(Boot(es), events[..|events| - 1], ok), events[|events| - 1], ok);
    }
  }
}
