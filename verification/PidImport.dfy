/** The loop of pid_algo_init that imports the configuration (thermal-engine/pid_algorithm.c,
    lines 1063-1184). It continues without moving on from a section whose sampling period is
    zero, so it does not always end. This module says when it does, and what it leaves. */
module PidImport {
  import opened Pid
  import opened PidBatch

  /** A section of the configuration; `found` says whether its sensor and its device could be
      registered and the device described itself, which fills in the range of `entry`. */
  datatype Section = Section(isPid: bool, errDisable: bool, found: bool, entry: Init)

  predicate Skipped(s: Section) {
    !s.isPid || s.errDisable
  }

  predicate Periodless(s: Section) {
    !Skipped(s) && s.entry.samplingPeriodMs == 0
  }

  predicate Accepted(s: Section) {
    !Skipped(s) && s.entry.samplingPeriodMs != 0 && s.found
  }

  /** A device's least operating level is at most its greatest. */
  ghost predicate Ranged(sections: seq<Section>) {
    forall s | s in sections :: s.entry.minOpLvl <= s.entry.maxOpLvl
  }

  /** The entries that are taken on, in order. */
  function Inits(sections: seq<Section>): (es: seq<Init>)
    ensures forall e | e in es :: exists s :: s in sections && Accepted(s) && s.entry == e
  {
    if sections == [] then []
    else
      var last := sections[|sections| - 1];
      Inits(sections[..|sections| - 1]) + if Accepted(last) then [last.entry] else []
  }

  lemma {:induction false} InitsStep(sections: seq<Section>, k: nat)
    requires k < |sections|
    ensures Inits(sections[..k + 1]) ==
            if Accepted(sections[k]) then Inits(sections[..k]) + [sections[k].entry] else Inits(sections[..k])
  {
    assert sections[..k + 1][..k] == sections[..k];
  }

  lemma {:induction false} InitsGood(sections: seq<Section>)
    requires Ranged(sections)
    ensures forall e | e in Inits(sections) :: GoodInit(e)
  {
  }

  /** A parser that raises short periods to the minimum may still leave a missing one at zero;
      either way what is taken on has a period that can be asked for. */
  lemma {:induction false} InitsProper(sections: seq<Section>)
    requires Ranged(sections)
    requires forall s | s in sections :: s.entry.samplingPeriodMs == 0 || s.entry.samplingPeriodMs >= SAMPLING_MS_MINIMUM
    requires forall s | s in sections :: s.entry.setting.setPointClr < s.entry.setting.setPoint
    ensures forall e | e in Inits(sections) :: Proper(e)
  {
  }

  // ------------------------------------------------------------------ the loop

  /** `at` is how far the list has been followed. */
  datatype Import = Import(at: nat, pids: Pids)

  predicate Done(s: Import, sections: seq<Section>) {
    s.at >= |sections| || |s.pids.clients| >= MAX_PID_INSTANCES_SUPPORTED
  }

  predicate Sound(s: Import) {
    WellFormed(s.pids) && |s.pids.groups| <= |s.pids.clients|
  }

  function Pass(s: Import, sections: seq<Section>): (t: Import)
    requires Sound(s) && Ranged(sections) && !Done(s, sections)
    ensures Sound(t)
  {
    var section := sections[s.at];
    assert section in sections;
    if Skipped(section) then s.(at := s.at + 1)
    else if section.entry.samplingPeriodMs == 0 then s
    else if !section.found then s.(at := s.at + 1)
    else Import(s.at + 1, AddClient(s.pids, section.entry))
  }

  function Passes(sections: seq<Section>, n: nat): (s: Import)
    requires Ranged(sections)
    ensures Sound(s)
  {
    hide Pass;
    if n == 0 then Import(0, Boot([]))
    else
      var s := Passes(sections, n - 1);
      if Done(s, sections) then s else Pass(s, sections)
  }

  lemma {:induction false} FirstPass(sections: seq<Section>)
    requires Ranged(sections)
    ensures Passes(sections, 0) == Import(0, Boot([]))
  {
  }

  lemma {:induction false} OnePass(sections: seq<Section>, n: nat)
    requires Ranged(sections) && !Done(Passes(sections, n), sections)
    ensures Passes(sections, n + 1) == Pass(Passes(sections, n), sections)
  {
    hide Pass;
  }

  /** No section without a period is reached before there are 32 clients. */
  ghost predicate GetsThrough(sections: seq<Section>) {
    forall k | 0 <= k < |sections| && Periodless(sections[k]) ::
      |Inits(sections[..k])| >= MAX_PID_INSTANCES_SUPPORTED
  }

  // ------------------------------------------------------------ what it leaves

  /** What has been taken on is what the sections passed so far ask for. */
  ghost predicate Follows(s: Import, sections: seq<Section>)
    requires Ranged(sections)
  {
    && s.at <= |sections|
    && Ranged(sections[..s.at])
    && |s.pids.clients| == |Inits(sections[..s.at])| <= MAX_PID_INSTANCES_SUPPORTED
    && (forall e | e in Inits(sections[..s.at]) :: GoodInit(e))
    && s.pids == Boot(Inits(sections[..s.at]))
  }

  lemma {:induction false} PassFollows(s: Import, sections: seq<Section>)
    requires Ranged(sections) && Sound(s) && Follows(s, sections) && !Done(s, sections)
    ensures Follows(Pass(s, sections), sections)
  {
    hide AddClient, WellFormed, Boot, Inits, GoodInit;
    var section, k := sections[s.at], s.at + 1;
    assert section in sections && (section.entry.samplingPeriodMs != 0 ==> GoodInit(section.entry)) by {
      RangedGood(sections, s.at);
    }
    InitsStep(sections, s.at);
    InitsGood(sections[..k]);
    if Accepted(section) {
      AddedClient(s.pids, section.entry);
      BootMore(Inits(sections[..s.at]), section.entry);
    }
  }

  lemma {:induction false} RangedGood(sections: seq<Section>, k: nat)
    requires Ranged(sections) && k < |sections|
    ensures sections[k].entry.samplingPeriodMs != 0 ==> GoodInit(sections[k].entry)
  {
    assert sections[k] in sections;
  }

  lemma {:induction false} AddedClient(p: Pids, e: Init)
    requires WellFormed(p) && |p.groups| <= |p.clients| < MAX_PID_INSTANCES_SUPPORTED && GoodInit(e)
    ensures |AddClient(p, e).clients| == |p.clients| + 1
  {
    hide FindGroup;
  }

  lemma {:induction false} BootMore(es: seq<Init>, e: Init)
    requires (forall x | x in es :: GoodInit(x)) && GoodInit(e)
    ensures var p := Boot(es);
            Boot(es + [e]) == if |p.clients| >= MAX_PID_INSTANCES_SUPPORTED then p else AddClient(p, e)
  {
    hide AddClient, GoodInit, WellFormed;
    assert (es + [e])[..|es|] == es;
  }

  lemma {:induction false} PassesFollow(sections: seq<Section>, n: nat)
    requires Ranged(sections)
    ensures Follows(Passes(sections, n), sections)
    decreases n
  {
    hide Pass, Sound;
    if n == 0 {
      assert Inits(sections[..0]) == [];
    } else {
      PassesFollow(sections, n - 1);
      if !Done(Passes(sections, n - 1), sections) {
        PassFollows(Passes(sections, n - 1), sections);
      }
    }
  }

  lemma {:induction false} BootFull(sections: seq<Section>, k: nat)
    requires Ranged(sections) && k <= |sections|
    ensures Ranged(sections[..k])
    ensures (forall e | e in Inits(sections[..k]) :: GoodInit(e)) && (forall e | e in Inits(sections) :: GoodInit(e))
    ensures |Boot(Inits(sections[..k])).clients| >= MAX_PID_INSTANCES_SUPPORTED ==>
              Boot(Inits(sections)) == Boot(Inits(sections[..k]))
    decreases |sections|
  {
    hide GoodInit, Boot, Inits;
    InitsGood(sections);
    InitsGood(sections[..k]);
    if k == |sections| {
      assert sections[..k] == sections;
    } else {
      var front, last := sections[..|sections| - 1], sections[|sections| - 1];
      assert front[..k] == sections[..k] && sections[..|sections|] == sections;
      BootFull(front, k);
      InitsStep(sections, |sections| - 1);
      if Accepted(last) {
        BootMore(Inits(front), last.entry);
      }
    }
  }

  /** When the loop ends, the clients are the accepted entries in order, up to 32 of them. */
  lemma {:induction false} DoneIsBoot(sections: seq<Section>, n: nat)
    requires Ranged(sections) && Done(Passes(sections, n), sections)
    ensures forall e | e in Inits(sections) :: GoodInit(e)
    ensures Inits(sections) == Usable(sections)
    ensures Passes(sections, n).pids == Boot(Inits(sections))
  {
    hide Passes, Boot, GoodInit, Usable;
    InitsUsable(sections);
    var s := Passes(sections, n);
    PassesFollow(sections, n);
    BootFull(sections, s.at);
    if s.at >= |sections| {
      assert sections[..s.at] == sections;
    }
  }

  /** A section makes a client if it is of a PID, not switched off by an error, has a period, and
      its sensor and device are found. */
  function Taken(s: Section): seq<Init> {
    if s.isPid && !s.errDisable && s.entry.samplingPeriodMs > 0 && s.found then [s.entry] else []
  }

  function Usable(sections: seq<Section>): seq<Init> {
    if sections == [] then [] else Taken(sections[0]) + Usable(sections[1..])
  }

  lemma {:induction false} UsableConcat(a: seq<Section>, b: seq<Section>)
    ensures Usable(a + b) == Usable(a) + Usable(b)
    decreases a
  {
    hide Taken;
    if a == [] {
      assert a + b == b;
    } else {
      assert (a + b)[0] == a[0] && (a + b)[1..] == a[1..] + b;
      UsableConcat(a[1..], b);
    }
  }

  /** Those and no others are what the loop takes on. */
  lemma {:induction false} InitsUsable(sections: seq<Section>)
    ensures Inits(sections) == Usable(sections)
  {
    hide Taken;
    if sections != [] {
      var front, last := sections[..|sections| - 1], sections[|sections| - 1];
      InitsUsable(front);
      UsableConcat(front, [last]);
      UsableOne(last);
      assert sections == front + [last];
    }
  }

  lemma {:induction false} UsableOne(s: Section)
    ensures Usable([s]) == if Accepted(s) then [s.entry] else []
  {
    assert [s][1..] == [];
  }

  // -------------------------------------------------------------- when it ends

  /** A section without a period is where it stays. */
  lemma {:induction false} StaysThere(sections: seq<Section>, n: nat, m: nat)
    requires Ranged(sections) && n <= m
    requires var s := Passes(sections, n); !Done(s, sections) && Periodless(sections[s.at])
    ensures Passes(sections, m) == Passes(sections, n)
    decreases m
  {
    hide AddClient, Boot, WellFormed;
    if n < m {
      StaysThere(sections, n, m - 1);
    }
  }

  lemma {:induction false} StaysDone(sections: seq<Section>, n: nat, m: nat)
    requires Ranged(sections) && n <= m && Done(Passes(sections, n), sections)
    ensures Passes(sections, m) == Passes(sections, n)
    decreases m
  {
    hide Pass, Done;
    if n < m {
      StaysDone(sections, n, m - 1);
    }
  }

  lemma {:induction false} StoppedOrPast(sections: seq<Section>, n: nat)
    requires Ranged(sections) && n <= |sections|
    requires Passes(sections, n).at == n < |sections| && |Inits(sections[..n])| >= MAX_PID_INSTANCES_SUPPORTED
    ensures Done(Passes(sections, n), sections)
  {
    hide Passes, Inits, Boot;
    PassesFollow(sections, n);
  }

  /** Until then each pass moves on by one section. */
  lemma {:induction false} OnePerPass(sections: seq<Section>, n: nat)
    requires Ranged(sections) && n <= |sections|
    requires forall k | 0 <= k < n :: Periodless(sections[k]) ==> |Inits(sections[..k])| >= MAX_PID_INSTANCES_SUPPORTED
    ensures var s := Passes(sections, n);
            Done(s, sections) || s.at == n
    decreases n
  {
    hide AddClient, Boot, WellFormed, Inits;
    if n > 0 {
      OnePerPass(sections, n - 1);
      if Passes(sections, n - 1).at == n - 1 && |Inits(sections[..n - 1])| >= MAX_PID_INSTANCES_SUPPORTED {
        StoppedOrPast(sections, n - 1);
      }
    }
  }

  /** The import ends exactly if no section without a period is reached before 32 clients
      have been taken on, and then within as many passes as there are sections. */
  lemma {:induction false} EndsIff(sections: seq<Section>)
    requires Ranged(sections)
    ensures (exists n: nat :: Done(Passes(sections, n), sections)) <==> GetsThrough(sections)
    ensures GetsThrough(sections) ==> Done(Passes(sections, |sections|), sections)
  {
    hide Passes, Inits;
    if GetsThrough(sections) {
      OnePerPass(sections, |sections|);
    } else {
      var k := FirstStop(sections);
      OnePerPass(sections, k);
      PassesFollow(sections, k);
      PassesReach(sections, k);
      forall n: nat ensures !Done(Passes(sections, n), sections) {
        if n >= k {
          StaysThere(sections, k, n);
        } else if Done(Passes(sections, n), sections) {
          StaysDone(sections, n, k);
        }
      }
    }
  }

  /** The first section that stops the loop. */
  lemma {:induction false} FirstStop(sections: seq<Section>) returns (k: nat)
    requires !GetsThrough(sections)
    ensures k < |sections| && Periodless(sections[k]) && |Inits(sections[..k])| < MAX_PID_INSTANCES_SUPPORTED
    ensures forall j | 0 <= j < k :: Periodless(sections[j]) ==> |Inits(sections[..j])| >= MAX_PID_INSTANCES_SUPPORTED
  {
    hide Inits, Periodless;
    k := 0;
    while k < |sections| && !(Periodless(sections[k]) && |Inits(sections[..k])| < MAX_PID_INSTANCES_SUPPORTED)
      invariant k <= |sections|
      invariant forall j | 0 <= j < k :: Periodless(sections[j]) ==> |Inits(sections[..j])| >= MAX_PID_INSTANCES_SUPPORTED
    {
      k := k + 1;
    }
  }

  /** With fewer than 32 entries before it a section is reached. */
  lemma {:induction false} PassesReach(sections: seq<Section>, k: nat)
    requires Ranged(sections) && k < |sections| && |Inits(sections[..k])| < MAX_PID_INSTANCES_SUPPORTED
    requires Done(Passes(sections, k), sections) || Passes(sections, k).at == k
    ensures Passes(sections, k).at == k && !Done(Passes(sections, k), sections)
  {
    hide Passes;
    PassesFollow(sections, k);
    var s := Passes(sections, k);
    PassesBehind(sections, k);
    FewerBefore(sections, s.at, k);
  }

  lemma {:induction false} PassesBehind(sections: seq<Section>, n: nat)
    requires Ranged(sections)
    ensures Passes(sections, n).at <= n
    decreases n
  {
    hide AddClient;
    if n > 0 {
      PassesBehind(sections, n - 1);
    }
  }

  lemma {:induction false} FewerBefore(sections: seq<Section>, j: nat, k: nat)
    requires j <= k <= |sections|
    ensures |Inits(sections[..j])| <= |Inits(sections[..k])|
    decreases k
  {
    if j < k {
      FewerBefore(sections, j, k - 1);
      assert sections[..k][..k - 1] == sections[..k - 1];
    }
  }

  /** So a loop that gets through never stops at one. */
  lemma {:induction false} NotStopped(sections: seq<Section>, n: nat)
    requires Ranged(sections) && GetsThrough(sections)
    requires Passes(sections, n).at < |sections| && !Done(Passes(sections, n), sections)
    ensures !Periodless(sections[Passes(sections, n).at])
    ensures Follows(Passes(sections, n), sections)
  {
    hide Passes, Inits, Periodless, Boot;
    PassesFollow(sections, n);
  }

  /** Nobody is taken on exactly if nobody is accepted. */
  lemma {:induction false} NobodyIff(sections: seq<Section>, n: nat)
    requires Ranged(sections) && Done(Passes(sections, n), sections)
    ensures |Passes(sections, n).pids.clients| == 0 <==> Inits(sections) == []
  {
    hide Passes, Inits, Boot;
    PassesFollow(sections, n);
    var at := Passes(sections, n).at;
    assert sections[..|sections|] == sections;
    FewerBefore(sections, at, |sections|);
  }

  /** The old parser leaves a section that names no period at zero: alone it is enough. */
  lemma {:induction false} OnePeriodlessHangs(section: Section, n: nat)
    requires Periodless(section) && Ranged([section])
    ensures !Done(Passes([section], n), [section])
  {
    hide Passes;
    assert [section][..0] == [];
    assert !GetsThrough([section]) by {
      assert Periodless([section][0]);
    }
    EndsIff([section]);
  }
}
