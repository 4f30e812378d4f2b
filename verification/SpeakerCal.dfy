/** The equilibrium detector of thermal-engine/speaker_cal.c. It reads a sensor and an
    array of sensors round after round, and reports a temperature once enough consecutive
    rounds have been steady. What it remembers of the past is a count and, for each
    sensor, the extremes of the open window. */
module SpeakerCal {
  import opened Numbers

  const SEED_MIN := 300000
  const SEED_MAX := -273000

  /** Unsigned settings are naturals; `longSamplingCnt` is signed. */
  datatype Setting = Setting(sensorDelta: nat, tempRange: nat, maxTemp: int,
                             longSampleRange: nat, longSamplingCnt: int, offset: int)

  /** One round: the cancel flag as the loop tests it, what the sensors read, and the flag
      as it stands if the round ends the loop. */
  datatype Round = Round(cancelled: bool, single: int, arr: seq<int>, cancelledAfter: bool)

  datatype Result = Waiting | Cancelled | Reported(temp: int)

  /** An unsigned number cast to `int`. */
  function Int32(n: nat): int {
    var m := n % 0x1_0000_0000;
    if m < 0x8000_0000 then m else m - 0x1_0000_0000
  }

  /** Millidegrees to degrees, with C's division. */
  function Rconv(x: int): int {
    CDiv(x, 1000)
  }

  // -------------------------------------------------------------- one round

  function Least(s: seq<int>, seed: int): (m: int)
    ensures m <= seed && (forall x | x in s :: m <= x) && (m == seed || m in s)
  {
    assert s != [] ==> s == s[..|s| - 1] + [s[|s| - 1]];
    if s == [] then seed else Min(Least(s[..|s| - 1], seed), s[|s| - 1])
  }

  function Greatest(s: seq<int>, seed: int): (m: int)
    ensures m >= seed && (forall x | x in s :: m >= x) && (m == seed || m in s)
  {
    assert s != [] ==> s == s[..|s| - 1] + [s[|s| - 1]];
    if s == [] then seed else Max(Greatest(s[..|s| - 1], seed), s[|s| - 1])
  }

  /** The delta, range and temperature checks, on the readings of one round. */
  predicate Steady(s: Setting, r: Round) {
    var min, max := Least(r.arr, SEED_MIN), Greatest(r.arr, SEED_MAX);
    && Abs(r.single - max) <= s.sensorDelta
    && max <= s.maxTemp
    && max - min <= Int32(s.tempRange)
  }

  /** A reading of the array that none exceeds; -273000 counts as one of the readings. */
  predicate Hottest(arr: seq<int>, hi: int) {
    hi in arr + [-273000] && forall x | x in arr + [-273000] :: x <= hi
  }

  /** One that none is below; 300000 counts as one. */
  predicate Coldest(arr: seq<int>, lo: int) {
    lo in arr + [300000] && forall x | x in arr + [300000] :: lo <= x
  }

  predicate Near(x: int, y: int, delta: int) {
    x - y <= delta && y - x <= delta
  }

  /** `unsigned` to `int`, in 32 bits. */
  predicate CastsTo(n: nat, k: int) {
    -0x8000_0000 <= k < 0x8000_0000 && (n - k) % 0x1_0000_0000 == 0
  }

  lemma Int32Casts(n: nat)
    ensures CastsTo(n, Int32(n))
  {
    var m := n % 0x1_0000_0000;
    assert n - m == 0x1_0000_0000 * (n / 0x1_0000_0000);
    assert n - (m - 0x1_0000_0000) == 0x1_0000_0000 * (n / 0x1_0000_0000 + 1);
  }

  lemma CastOnce(n: nat, k: int)
    requires CastsTo(n, k)
    ensures k == Int32(n)
  {
    var q, m := (n - k) / 0x1_0000_0000, n % 0x1_0000_0000;
    assert n - k == 0x1_0000_0000 * q && n == 0x1_0000_0000 * (n / 0x1_0000_0000) + m;
    assert k - m == 0x1_0000_0000 * (n / 0x1_0000_0000 - q);
  }

  lemma {:induction false} ExtremeReadings(arr: seq<int>)
    ensures Hottest(arr, Greatest(arr, SEED_MAX)) && Coldest(arr, Least(arr, SEED_MIN))
  {
    assert arr + [-273000] == arr + [SEED_MAX] && arr + [300000] == arr + [SEED_MIN];
    assert (arr + [SEED_MAX])[|arr|] == SEED_MAX && (arr + [SEED_MIN])[|arr|] == SEED_MIN;
    forall x | x in arr + [SEED_MAX] ensures x in arr || x == SEED_MAX {
    }
    forall x | x in arr + [SEED_MIN] ensures x in arr || x == SEED_MIN {
    }
    forall x | x in arr ensures x in arr + [SEED_MAX] && x in arr + [SEED_MIN] {
      var i :| 0 <= i < |arr| && arr[i] == x;
      assert (arr + [SEED_MAX])[i] == x && (arr + [SEED_MIN])[i] == x;
    }
  }

  /** Whether a round is steady, from its readings: whatever they are, the hottest is within
      the delta of the single sensor, it is not too hot, and the coldest is within range. */
  lemma {:induction false} SteadyOf(s: Setting, r: Round, hi: int, lo: int, tempRange: int)
    requires Hottest(r.arr, hi) && Coldest(r.arr, lo) && CastsTo(s.tempRange, tempRange)
    ensures Steady(s, r) <==>
            Near(r.single, hi, s.sensorDelta) && hi <= s.maxTemp && hi - lo <= tempRange
  {
    hide Int32, Least, Greatest;
    CastOnce(s.tempRange, tempRange);
    ExtremeReadings(r.arr);
  }

  /** All readings at their word: the seeds, and an array without sensors, aside. */
  lemma {:induction false} SteadyIff(s: Setting, r: Round, tempRange: int)
    requires r.arr != [] && (forall x | x in r.arr :: -273000 <= x <= 300000) && CastsTo(s.tempRange, tempRange)
    ensures Steady(s, r) <==>
            && (forall x | x in r.arr :: x <= s.maxTemp)
            && (forall x, y | x in r.arr && y in r.arr :: x - y <= tempRange)
            && (exists x | x in r.arr ::
                  (forall y | y in r.arr :: y <= x) && Near(r.single, x, s.sensorDelta))
  {
    hide Steady, Least, Greatest, Int32;
    var hi, lo := Greatest(r.arr, SEED_MAX), Least(r.arr, SEED_MIN);
    ExtremeReadings(r.arr);
    SteadyOf(s, r, hi, lo, tempRange);
    assert r.arr[0] in r.arr;
  }

  /** An array without sensors is as hot as its seed. */
  lemma SteadyEmpty(s: Setting, r: Round, tempRange: int)
    requires r.arr == [] && CastsTo(s.tempRange, tempRange)
    ensures Steady(s, r) <==>
            Near(r.single, -273000, s.sensorDelta) && -273000 <= s.maxTemp && -573000 <= tempRange
  {
    hide Steady;
    SteadyOf(s, r, -273000, 300000, tempRange);
  }

  // -------------------------------------------------------------- many rounds

  predicate Sized(rounds: seq<Round>, sensors: nat) {
    forall r | r in rounds :: |r.arr| == sensors
  }

  /** Sensor `i` of the array, or the single sensor after the last of them. */
  function Reading(r: Round, i: nat): int {
    if i < |r.arr| then r.arr[i] else r.single
  }

  function Low(rounds: seq<Round>, a: nat, b: nat, i: nat): int
    requires a < b <= |rounds|
    decreases b
  {
    var x := Reading(rounds[b - 1], i);
    if b == a + 1 then x else Min(Low(rounds, a, b - 1, i), x)
  }

  function High(rounds: seq<Round>, a: nat, b: nat, i: nat): int
    requires a < b <= |rounds|
    decreases b
  {
    var x := Reading(rounds[b - 1], i);
    if b == a + 1 then x else Max(High(rounds, a, b - 1, i), x)
  }

  /** Over rounds `a` to `b` the extremes of every sensor are within the long range. */
  predicate Fits(s: Setting, rounds: seq<Round>, a: nat, b: nat)
    requires a < b <= |rounds|
  {
    forall i | 0 <= i <= |rounds[b - 1].arr| :: High(rounds, a, b, i) - Low(rounds, a, b, i) <= s.longSampleRange
  }

  /** The same of any two readings of a sensor. */
  ghost predicate Close(s: Setting, rounds: seq<Round>, sensors: nat, a: nat, b: nat)
    requires b <= |rounds|
  {
    forall i: nat, j: nat, k: nat | i <= sensors && a <= j < b && a <= k < b ::
      Reading(rounds[j], i) - Reading(rounds[k], i) <= s.longSampleRange
  }

  lemma {:induction false} Extremes(rounds: seq<Round>, a: nat, b: nat, i: nat) returns (lo: nat, hi: nat)
    requires a < b <= |rounds|
    ensures a <= lo < b && Reading(rounds[lo], i) == Low(rounds, a, b, i)
    ensures a <= hi < b && Reading(rounds[hi], i) == High(rounds, a, b, i)
    ensures forall j | a <= j < b :: Low(rounds, a, b, i) <= Reading(rounds[j], i) <= High(rounds, a, b, i)
    decreases b
  {
    lo, hi := b - 1, b - 1;
    if b != a + 1 {
      var l, h := Extremes(rounds, a, b - 1, i);
      lo := if Low(rounds, a, b, i) == Reading(rounds[b - 1], i) then b - 1 else l;
      hi := if High(rounds, a, b, i) == Reading(rounds[b - 1], i) then b - 1 else h;
    }
  }

  lemma {:induction false} FitsIsClose(s: Setting, rounds: seq<Round>, sensors: nat, a: nat, b: nat)
    requires Sized(rounds, sensors) && a < b <= |rounds|
    ensures Fits(s, rounds, a, b) <==> Close(s, rounds, sensors, a, b)
  {
    assert rounds[b - 1] in rounds;
    if Fits(s, rounds, a, b) {
      forall i: nat, j: nat, k: nat | i <= sensors && a <= j < b && a <= k < b
        ensures Reading(rounds[j], i) - Reading(rounds[k], i) <= s.longSampleRange
      {
        var lo, hi := Extremes(rounds, a, b, i);
      }
    }
    if Close(s, rounds, sensors, a, b) {
      forall i | 0 <= i <= sensors
        ensures High(rounds, a, b, i) - Low(rounds, a, b, i) <= s.longSampleRange
      {
        var lo, hi := Extremes(rounds, a, b, i);
      }
    }
  }

  /** How many rounds the window holds after the first `n`. */
  function Window(s: Setting, rounds: seq<Round>, n: nat): (w: nat)
    requires n <= |rounds|
    ensures w <= n
  {
    if n == 0 then 0
    else
      var w := Window(s, rounds, n - 1);
      if Steady(s, rounds[n - 1]) && Fits(s, rounds, n - 1 - w, n) then w + 1 else 0
  }

  /** Is a window of `w` rounds, just extended, long enough? */
  predicate Enough(s: Setting, w: nat) {
    w > 0 && w >= s.longSamplingCnt
  }

  function Verdict(s: Setting, r: Round): Result {
    if r.cancelledAfter then Cancelled else Reported(Rconv(Least(r.arr, SEED_MIN) + s.offset))
  }

  /** What comes of the rounds from `n` on. */
  function From(s: Setting, rounds: seq<Round>, n: nat): Result
    requires n <= |rounds|
    decreases |rounds| - n
  {
    if n == |rounds| then Waiting
    else if rounds[n].cancelled then Cancelled
    else if Enough(s, Window(s, rounds, n + 1)) then Verdict(s, rounds[n])
    else From(s, rounds, n + 1)
  }

  // --------------------------------------------------------------- soundness

  function Needed(s: Setting): nat {
    if s.longSamplingCnt < 1 then 1 else s.longSamplingCnt
  }

  /** A window is what it should be: every round in it steady, every sensor's readings over
      the whole of it within the long range. */
  lemma {:induction false} WindowHolds(s: Setting, rounds: seq<Round>, sensors: nat, n: nat)
    requires Sized(rounds, sensors) && n <= |rounds|
    ensures var w := Window(s, rounds, n);
            && (forall j | n - w <= j < n :: Steady(s, rounds[j]))
            && Close(s, rounds, sensors, n - w, n)
  {
    hide Steady, Fits, Close;
    if n > 0 {
      WindowHolds(s, rounds, sensors, n - 1);
      var w := Window(s, rounds, n - 1);
      FitsIsClose(s, rounds, sensors, n - 1 - w, n);
    }
    EmptyIsClose(s, rounds, sensors, n);
  }

  lemma {:induction false} EmptyIsClose(s: Setting, rounds: seq<Round>, sensors: nat, n: nat)
    requires n <= |rounds|
    ensures Close(s, rounds, sensors, n, n)
  {
  }

  lemma {:induction false} ReportedAt(s: Setting, rounds: seq<Round>, n: nat) returns (m: nat)
    requires n <= |rounds| && From(s, rounds, n).Reported?
    requires n == 0 || !Enough(s, Window(s, rounds, n))
    ensures n < m <= |rounds| && Window(s, rounds, m) == Needed(s)
    ensures From(s, rounds, n) == Verdict(s, rounds[m - 1])
    ensures forall j | n <= j < m :: !rounds[j].cancelled
    decreases |rounds| - n
  {
    hide Steady, Fits, Verdict;
    if Enough(s, Window(s, rounds, n + 1)) {
      m := n + 1;
    } else {
      m := ReportedAt(s, rounds, n + 1);
    }
  }

  /** The checks a round has to pass, on its readings. */
  ghost predicate Passed(s: Setting, r: Round) {
    && (forall x | x in r.arr :: x <= s.maxTemp)
    && (forall x, y, k | x in r.arr && y in r.arr && CastsTo(s.tempRange, k) :: x - y <= k)
    && exists hi :: Hottest(r.arr, hi) && Near(r.single, hi, s.sensorDelta)
  }

  lemma {:induction false} SteadyPassed(s: Setting, r: Round)
    requires Steady(s, r)
    ensures Passed(s, r)
  {
    hide Least, Greatest, Int32, CastsTo;
    var hi, lo := Greatest(r.arr, SEED_MAX), Least(r.arr, SEED_MIN);
    ExtremeReadings(r.arr);
    assert Near(r.single, hi, s.sensorDelta);
    forall x, y, k | x in r.arr && y in r.arr && CastsTo(s.tempRange, k) ensures x - y <= k {
      CastOnce(s.tempRange, k);
    }
  }

  /** `temp` is `x` in thousands, rounded towards zero. */
  predicate InThousands(x: int, temp: int) {
    if x >= 0 then 1000 * temp <= x < 1000 * temp + 1000 else 1000 * temp - 1000 < x <= 1000 * temp
  }

  lemma {:induction false} CloseReadings(s: Setting, rounds: seq<Round>, sensors: nat, first: nat, m: nat)
    requires Sized(rounds, sensors) && m <= |rounds| && Close(s, rounds, sensors, first, m)
    ensures forall j, k | first <= j < m && first <= k < m ::
              |rounds[j].arr| == |rounds[k].arr| == sensors &&
              rounds[j].single - rounds[k].single <= s.longSampleRange
    ensures forall i, j, k | 0 <= i < sensors && first <= j < m && first <= k < m ::
              i < |rounds[j].arr| && i < |rounds[k].arr| &&
              rounds[j].arr[i] - rounds[k].arr[i] <= s.longSampleRange
  {
    forall j, k | first <= j < m && first <= k < m
      ensures |rounds[j].arr| == |rounds[k].arr| == sensors &&
              rounds[j].single - rounds[k].single <= s.longSampleRange
    {
      assert rounds[j] in rounds && rounds[k] in rounds;
      assert Reading(rounds[j], sensors) - Reading(rounds[k], sensors) <= s.longSampleRange;
    }
    forall i, j, k | 0 <= i < sensors && first <= j < m && first <= k < m
      ensures i < |rounds[j].arr| && i < |rounds[k].arr| &&
              rounds[j].arr[i] - rounds[k].arr[i] <= s.longSampleRange
    {
      assert rounds[j] in rounds && rounds[k] in rounds;
      assert Reading(rounds[j], i) - Reading(rounds[k], i) <= s.longSampleRange;
    }
  }

  /** Whenever a temperature is reported, the rounds just past, as many as are needed, have all
      passed: no reading of the array above the maximum, none further from another than the
      range, the hottest within the delta of the single sensor. Over them no sensor's readings
      differ by more than the long range, and the value is the coldest reading of the last of
      them, offset and in degrees. Nobody has cancelled. */
  lemma {:induction false} Soundness(s: Setting, rounds: seq<Round>, sensors: nat) returns (m: nat, lo: int)
    requires Sized(rounds, sensors) && From(s, rounds, 0).Reported?
    ensures 1 <= m <= |rounds| && s.longSamplingCnt <= m
    ensures var first := if s.longSamplingCnt < 1 then m - 1 else m - s.longSamplingCnt;
            && (forall j | first <= j < m :: Passed(s, rounds[j]))
            && (forall j, k | first <= j < m && first <= k < m ::
                  |rounds[j].arr| == |rounds[k].arr| == sensors &&
                  rounds[j].single - rounds[k].single <= s.longSampleRange)
            && (forall i, j, k | 0 <= i < sensors && first <= j < m && first <= k < m ::
                  rounds[j].arr[i] - rounds[k].arr[i] <= s.longSampleRange)
    ensures Coldest(rounds[m - 1].arr, lo) && InThousands(lo + s.offset, From(s, rounds, 0).temp)
    ensures (forall j | 0 <= j < m :: !rounds[j].cancelled) && !rounds[m - 1].cancelledAfter
  {
    hide Steady, Passed, Window, From, Fits, Close;
    m := ReportedAt(s, rounds, 0);
    lo := Least(rounds[m - 1].arr, SEED_MIN);
    WindowHolds(s, rounds, sensors, m);
    var first := m - Needed(s);
    forall j | first <= j < m ensures Passed(s, rounds[j]) {
      SteadyPassed(s, rounds[j]);
    }
    CloseReadings(s, rounds, sensors, first, m);
    ExtremeReadings(rounds[m - 1].arr);
    Thousands(lo + s.offset);
  }

  lemma Thousands(x: int)
    ensures InThousands(x, Rconv(x))
  {
  }

  /** A run is cancelled only by its flag. */
  lemma {:induction false} CancelNeeds(s: Setting, rounds: seq<Round>, n: nat)
    requires n <= |rounds| && From(s, rounds, n) == Cancelled
    ensures exists j | n <= j < |rounds| :: rounds[j].cancelled || rounds[j].cancelledAfter
    decreases |rounds| - n
  {
    hide Window, Enough;
    if !rounds[n].cancelled && !rounds[n].cancelledAfter {
      CancelNeeds(s, rounds, n + 1);
    }
  }

  // ---------------------------------------------------------------- liveness

  /** From round `a` to `b` nothing stands in the way. */
  ghost predicate Calm(s: Setting, rounds: seq<Round>, sensors: nat, a: nat, b: nat)
    requires b <= |rounds|
  {
    && (forall j | a <= j < b :: Steady(s, rounds[j]) && !rounds[j].cancelled && !rounds[j].cancelledAfter)
    && Close(s, rounds, sensors, a, b)
  }

  /** A calm round extends a window that is wholly calm, and one begun before either
      grows or is dropped. */
  lemma {:induction false} CalmStep(s: Setting, rounds: seq<Round>, sensors: nat, a: nat, b: nat, n: nat)
    requires Sized(rounds, sensors) && a <= n < b <= |rounds| && Calm(s, rounds, sensors, a, b)
    ensures var w := Window(s, rounds, n);
            var w1 := Window(s, rounds, n + 1);
            (w1 == w + 1 || w1 == 0) && (w <= n - a ==> w1 == w + 1)
  {
    hide Steady, Fits, Close;
    var w := Window(s, rounds, n);
    FitsIsClose(s, rounds, sensors, n - w, n + 1);
    if w <= n - a {
      CloseWithin(s, rounds, sensors, a, b, n - w, n + 1);
    }
  }

  lemma {:induction false} CloseWithin(s: Setting, rounds: seq<Round>, sensors: nat, a: nat, b: nat, c: nat, d: nat)
    requires a <= c && d <= b <= |rounds| && Close(s, rounds, sensors, a, b)
    ensures Close(s, rounds, sensors, c, d)
  {
  }

  /** With a window begun in the calm, as many rounds as it still needs are enough. */
  lemma {:induction false} FromCalmWindow(s: Setting, rounds: seq<Round>, sensors: nat, a: nat, b: nat, n: nat)
    requires Sized(rounds, sensors) && a <= n <= b <= |rounds| && Calm(s, rounds, sensors, a, b)
    requires Window(s, rounds, n) <= n - a && Window(s, rounds, n) < Needed(s)
    requires b - n >= Needed(s) - Window(s, rounds, n)
    ensures From(s, rounds, n).Reported?
    decreases b - n
  {
    hide Steady, Fits, Close, Window;
    CalmStep(s, rounds, sensors, a, b, n);
    if !Enough(s, Window(s, rounds, n + 1)) {
      FromCalmWindow(s, rounds, sensors, a, b, n + 1);
    }
  }

  /** A window left open from before may first have to be dropped. */
  lemma {:induction false} FromOldWindow(s: Setting, rounds: seq<Round>, sensors: nat, a: nat, b: nat, n: nat)
    requires Sized(rounds, sensors) && a <= n <= b <= |rounds| && Calm(s, rounds, sensors, a, b)
    requires n - a < Window(s, rounds, n) < Needed(s)
    requires b - a >= 2 * Needed(s) - 1
    ensures From(s, rounds, n).Reported?
    decreases b - n
  {
    hide Steady, Fits, Close, Window;
    CalmStep(s, rounds, sensors, a, b, n);
    var w1 := Window(s, rounds, n + 1);
    if w1 == 0 {
      FromCalmWindow(s, rounds, sensors, a, b, n + 1);
    } else if !Enough(s, w1) {
      FromOldWindow(s, rounds, sensors, a, b, n + 1);
    }
  }

  /** Once the rounds are calm, a run that has not ended reports within 2K - 1 of them,
      whatever window was open before. */
  lemma {:induction false} Liveness(s: Setting, rounds: seq<Round>, sensors: nat, a: nat)
    requires Sized(rounds, sensors) && a + 2 * Needed(s) - 1 <= |rounds|
    requires Calm(s, rounds, sensors, a, a + 2 * Needed(s) - 1)
    requires From(s, rounds[..a], 0) == Waiting
    ensures From(s, rounds, 0).Reported?
  {
    hide Steady, Fits, Close, Window, From, Calm;
    StillWaiting(s, rounds, a, 0);
    if Window(s, rounds, a) == 0 {
      FromCalmWindow(s, rounds, sensors, a, a + 2 * Needed(s) - 1, a);
    } else {
      FromOldWindow(s, rounds, sensors, a, a + 2 * Needed(s) - 1, a);
    }
  }

  lemma {:induction false} WindowPrefix(s: Setting, rounds: seq<Round>, a: nat, n: nat)
    requires n <= a <= |rounds|
    ensures Window(s, rounds[..a], n) == Window(s, rounds, n)
  {
    hide Steady;
    if n > 0 {
      WindowPrefix(s, rounds, a, n - 1);
      var first := n - 1 - Window(s, rounds, n - 1);
      forall i | 0 <= i <= |rounds[n - 1].arr|
        ensures Low(rounds[..a], first, n, i) == Low(rounds, first, n, i) &&
                High(rounds[..a], first, n, i) == High(rounds, first, n, i)
      {
        ExtremesPrefix(rounds, a, first, n, i);
      }
    }
  }

  lemma {:induction false} ExtremesPrefix(rounds: seq<Round>, m: nat, a: nat, b: nat, i: nat)
    requires a < b <= m <= |rounds|
    ensures Low(rounds[..m], a, b, i) == Low(rounds, a, b, i)
    ensures High(rounds[..m], a, b, i) == High(rounds, a, b, i)
    decreases b
  {
    if b > a + 1 {
      ExtremesPrefix(rounds, m, a, b - 1, i);
    }
  }

  lemma {:induction false} StillWaiting(s: Setting, rounds: seq<Round>, a: nat, n: nat)
    requires n <= a <= |rounds| && From(s, rounds[..a], n) == Waiting
    requires n == 0 || !Enough(s, Window(s, rounds, n))
    ensures From(s, rounds, n) == From(s, rounds, a) && !Enough(s, Window(s, rounds, a))
    decreases a - n
  {
    hide Steady, Fits, Window;
    WindowOfNone(s, rounds);
    if n < a {
      WindowPrefix(s, rounds, a, n + 1);
      StillWaiting(s, rounds, a, n + 1);
    }
  }

  lemma {:induction false} WindowOfNone(s: Setting, rounds: seq<Round>)
    ensures Window(s, rounds, 0) == 0
  {
  }

  // --------------------------------------------------------- the bound is exact

  /** A round in which every sensor reads `x`. */
  function Level(x: int, sensors: nat): Round {
    Round(false, x, seq(sensors, _ => x), false)
  }

  /** One round at zero, then calm ones, of which the first K - 2 still fit with it. */
  function Worst(s: Setting, sensors: nat): seq<Round> {
    [Level(0, sensors)] +
    seq(2 * Needed(s) - 2, i requires 0 <= i =>
      Level(if i < Needed(s) - 2 then s.longSampleRange else s.longSampleRange + 1, sensors))
  }

  lemma {:induction false} LevelExtremes(x: int, sensors: nat, n: nat)
    requires n <= sensors
    ensures n > 0 ==> Least(seq(n, _ => x), SEED_MIN) == Min(SEED_MIN, x)
    ensures n > 0 ==> Greatest(seq(n, _ => x), SEED_MAX) == Max(SEED_MAX, x)
  {
    if n > 1 {
      var t := seq(n, _ => x);
      assert t[..n - 1] == seq(n - 1, _ => x);
      LevelExtremes(x, sensors, n - 1);
    } else if n == 1 {
      assert seq(1, _ => x)[..0] == [];
    }
  }

  /** A level reading is steady unless it is too hot. */
  lemma {:induction false} LevelSteady(s: Setting, x: int, sensors: nat)
    requires sensors > 0 && 0 <= x <= s.maxTemp && x <= SEED_MIN && Int32(s.tempRange) >= 0
    ensures Steady(s, Level(x, sensors))
  {
    LevelExtremes(x, sensors, sensors);
  }

  lemma {:induction false} WorstRound(s: Setting, sensors: nat, j: nat)
    requires Needed(s) >= 2 && j < 2 * Needed(s) - 1
    ensures |Worst(s, sensors)| == 2 * Needed(s) - 1
    ensures Worst(s, sensors)[j] ==
            Level(if j == 0 then 0 else if j < Needed(s) - 1 then s.longSampleRange else s.longSampleRange + 1, sensors)
  {
  }

  lemma {:induction false} WorstWindow(s: Setting, sensors: nat, n: nat)
    requires Needed(s) >= 2 && n <= 2 * Needed(s) - 1
    requires sensors > 0 && s.longSampleRange + 1 <= s.maxTemp && s.longSampleRange + 1 <= SEED_MIN
    requires Int32(s.tempRange) >= 0 && s.longSampleRange > 0
    ensures n <= |Worst(s, sensors)| && Sized(Worst(s, sensors), sensors)
    ensures Window(s, Worst(s, sensors), n) == if n < Needed(s) then n else n - Needed(s)
  {
    hide Steady, Fits, Worst;
    var rounds, k := Worst(s, sensors), Needed(s);
    forall j | 0 <= j < |rounds| ensures |rounds[j].arr| == sensors {
      WorstSize(s, sensors);
      WorstRound(s, sensors, j);
    }
    WorstSize(s, sensors);
    if n > 0 {
      WorstWindow(s, sensors, n - 1);
      var first := n - 1 - Window(s, rounds, n - 1);
      var x := Reading(rounds[n - 1], 0);
      WorstRound(s, sensors, n - 1);
      LevelSteady(s, if n == 1 then 0 else if n < k then s.longSampleRange else s.longSampleRange + 1, sensors);
      FitsIsClose(s, rounds, sensors, first, n);
      if n == k {
        WorstRound(s, sensors, 0);
        assert Reading(rounds[n - 1], 0) - Reading(rounds[0], 0) > s.longSampleRange;
      } else {
        forall i: nat, j: nat, m: nat | i <= sensors && first <= j < n && first <= m < n
          ensures Reading(rounds[j], i) - Reading(rounds[m], i) <= s.longSampleRange
        {
          WorstRound(s, sensors, j);
          WorstRound(s, sensors, m);
        }
      }
    }
  }

  lemma {:induction false} WorstSize(s: Setting, sensors: nat)
    requires Needed(s) >= 2
    ensures |Worst(s, sensors)| == 2 * Needed(s) - 1
  {
    WorstRound(s, sensors, 0);
  }

  /** One calm round fewer is not enough: after 2K - 2 of them this run still waits. */
  lemma {:induction false} LivenessIsTight(s: Setting, sensors: nat)
    requires Needed(s) >= 2 && sensors > 0 && Int32(s.tempRange) >= 0
    requires 0 < s.longSampleRange < s.maxTemp && s.longSampleRange < SEED_MIN
    ensures var rounds := Worst(s, sensors);
            && |rounds| == 1 + (2 * Needed(s) - 2) && Sized(rounds, sensors)
            && Calm(s, rounds, sensors, 1, |rounds|)
            && From(s, rounds, 0) == Waiting
  {
    hide Worst, Steady;
    var rounds := Worst(s, sensors);
    WorstSize(s, sensors);
    WorstWindow(s, sensors, 0);
    forall j | 1 <= j < |rounds|
      ensures Steady(s, rounds[j]) && !rounds[j].cancelled && !rounds[j].cancelledAfter
    {
      WorstRound(s, sensors, j);
      LevelSteady(s, if j < Needed(s) - 1 then s.longSampleRange else s.longSampleRange + 1, sensors);
    }
    forall i: nat, j: nat, m: nat | i <= sensors && 1 <= j < |rounds| && 1 <= m < |rounds|
      ensures Reading(rounds[j], i) - Reading(rounds[m], i) <= s.longSampleRange
    {
      WorstRound(s, sensors, j);
      WorstRound(s, sensors, m);
    }
    WorstWaits(s, sensors, 0);
  }

  lemma {:induction false} WorstWaits(s: Setting, sensors: nat, n: nat)
    requires Needed(s) >= 2 && sensors > 0 && Int32(s.tempRange) >= 0
    requires 0 < s.longSampleRange < s.maxTemp && s.longSampleRange < SEED_MIN
    requires |Worst(s, sensors)| == 2 * Needed(s) - 1 && n <= |Worst(s, sensors)|
    ensures From(s, Worst(s, sensors), n) == Waiting
    decreases |Worst(s, sensors)| - n
  {
    hide Worst, Window, Steady;
    if n < |Worst(s, sensors)| {
      WorstRound(s, sensors, n);
      WorstWindow(s, sensors, n + 1);
      WorstWaits(s, sensors, n + 1);
    }
  }

  // ------------------------------------------------------------ the code, in place

  datatype SensorInfo = SensorInfo(curr: int, max: int, min: int)

  lemma StartLeast()
    ensures Least([], SEED_MIN) == SEED_MIN && Greatest([], SEED_MAX) == SEED_MAX
  {
  }

  lemma {:induction false} ExtendLeast(s: seq<int>, i: nat)
    requires i < |s|
    ensures Least(s[..i + 1], SEED_MIN) == Min(Least(s[..i], SEED_MIN), s[i])
    ensures Greatest(s[..i + 1], SEED_MAX) == Max(Greatest(s[..i], SEED_MAX), s[i])
  {
    assert s[..i + 1][..i] == s[..i];
  }

  class Calibration {
    const setting: Setting
    const sensorsArr: array<SensorInfo>
    var sensor: SensorInfo
    var state: nat

    constructor (setting: Setting, sensorsCnt: nat)
      ensures this.setting == setting && sensorsArr.Length == sensorsCnt && fresh(sensorsArr)
    {
      this.setting := setting;
      var arr := new SensorInfo[sensorsCnt](_ => SensorInfo(0, 0, 0));
      sensorsArr, sensor, state := arr, SensorInfo(0, 0, 0), 0;
    }

    /** The extremes kept are those of rounds `a` to `b`. */
    ghost predicate Keeps(rounds: seq<Round>, a: nat, b: nat)
      requires a < b <= |rounds|
      reads `sensor, sensorsArr
    {
      && sensor.min == Low(rounds, a, b, sensorsArr.Length) && sensor.max == High(rounds, a, b, sensorsArr.Length)
      && forall i | 0 <= i < sensorsArr.Length ::
           sensorsArr[i].min == Low(rounds, a, b, i) && sensorsArr[i].max == High(rounds, a, b, i)
    }

    /** The current readings are those of round `r`. */
    ghost predicate Read(r: Round)
      reads `sensor, sensorsArr
    {
      && |r.arr| == sensorsArr.Length && sensor.curr == r.single
      && forall i | 0 <= i < sensorsArr.Length :: sensorsArr[i].curr == r.arr[i]
    }

    method ReadSensors(r: Round) returns (min: int, max: int)
      requires |r.arr| == sensorsArr.Length
      modifies `sensor, sensorsArr
      ensures Read(r) && min == Least(r.arr, SEED_MIN) && max == Greatest(r.arr, SEED_MAX)
      ensures sensor.min == old(sensor.min) && sensor.max == old(sensor.max)
      ensures forall i | 0 <= i < sensorsArr.Length ::
                sensorsArr[i].min == old(sensorsArr[i].min) && sensorsArr[i].max == old(sensorsArr[i].max)
    {
      hide Least, Greatest, Min, Max;
      StartLeast();
      min, max := SEED_MIN, SEED_MAX;
      sensor := sensor.(curr := r.single);
      var idx := 0;
      while idx < sensorsArr.Length
        invariant 0 <= idx <= sensorsArr.Length
        invariant min == Least(r.arr[..idx], SEED_MIN) && max == Greatest(r.arr[..idx], SEED_MAX)
        invariant forall i | 0 <= i < idx :: sensorsArr[i].curr == r.arr[i]
        invariant forall i | 0 <= i < sensorsArr.Length ::
                    sensorsArr[i].min == old(sensorsArr[i].min) && sensorsArr[i].max == old(sensorsArr[i].max)
        modifies sensorsArr
      {
        ExtendLeast(r.arr, idx);
        sensorsArr[idx] := sensorsArr[idx].(curr := r.arr[idx]);
        min := Min(min, sensorsArr[idx].curr);
        max := Max(max, sensorsArr[idx].curr);
        idx := idx + 1;
      }
      assert r.arr[..idx] == r.arr;
    }

    method Extend(rounds: seq<Round>, a: nat, n: nat)
      requires a < n < |rounds| && Read(rounds[n]) && Keeps(rounds, a, n)
      modifies `sensor, sensorsArr
      ensures Keeps(rounds, a, n + 1)
    {
      sensor := sensor.(min := Min(sensor.min, sensor.curr), max := Max(sensor.max, sensor.curr));
      var idx := 0;
      while idx < sensorsArr.Length
        invariant 0 <= idx <= sensorsArr.Length
        invariant forall i | 0 <= i < sensorsArr.Length :: sensorsArr[i].curr == rounds[n].arr[i]
        invariant forall i | 0 <= i < idx ::
                    sensorsArr[i].min == Low(rounds, a, n + 1, i) && sensorsArr[i].max == High(rounds, a, n + 1, i)
        invariant forall i | idx <= i < sensorsArr.Length ::
                    sensorsArr[i].min == Low(rounds, a, n, i) && sensorsArr[i].max == High(rounds, a, n, i)
        modifies sensorsArr
      {
        var info := sensorsArr[idx];
        sensorsArr[idx] := info.(min := Min(info.min, info.curr), max := Max(info.max, info.curr));
        idx := idx + 1;
      }
    }

    method Open(rounds: seq<Round>, n: nat)
      requires n < |rounds| && Read(rounds[n])
      modifies `sensor, sensorsArr
      ensures Keeps(rounds, n, n + 1)
    {
      sensor := sensor.(max := sensor.curr, min := sensor.curr);
      var idx := 0;
      while idx < sensorsArr.Length
        invariant 0 <= idx <= sensorsArr.Length
        invariant forall i | 0 <= i < sensorsArr.Length :: sensorsArr[i].curr == rounds[n].arr[i]
        invariant forall i | 0 <= i < idx ::
                    sensorsArr[i].min == Low(rounds, n, n + 1, i) && sensorsArr[i].max == High(rounds, n, n + 1, i)
        modifies sensorsArr
      {
        var info := sensorsArr[idx];
        sensorsArr[idx] := info.(max := info.curr, min := info.curr);
        idx := idx + 1;
      }
    }

    method WithinLongRange(rounds: seq<Round>, a: nat, b: nat) returns (ok: bool)
      requires a < b <= |rounds| && Keeps(rounds, a, b) && |rounds[b - 1].arr| == sensorsArr.Length
      ensures ok == Fits(setting, rounds, a, b)
    {
      if sensor.max - sensor.min > setting.longSampleRange {
        return false;
      }
      var idx := 0;
      while idx < sensorsArr.Length
        invariant 0 <= idx <= sensorsArr.Length
        invariant forall i | 0 <= i < idx :: High(rounds, a, b, i) - Low(rounds, a, b, i) <= setting.longSampleRange
      {
        if sensorsArr[idx].max - sensorsArr[idx].min > setting.longSampleRange {
          return false;
        }
        idx := idx + 1;
      }
      ok := true;
    }

    /** One pass of the loop up to the count: is the window longer by this round? */
    method Poll(rounds: seq<Round>, n: nat, longSampleCnt: nat) returns (ok: bool, min: int)
      requires n < |rounds| && |rounds[n].arr| == sensorsArr.Length && longSampleCnt <= n
      requires longSampleCnt > 0 ==> Keeps(rounds, n - longSampleCnt, n)
      modifies `sensor, sensorsArr
      ensures min == Least(rounds[n].arr, SEED_MIN)
      ensures ok == (Steady(setting, rounds[n]) && Fits(setting, rounds, n - longSampleCnt, n + 1))
      ensures ok ==> Keeps(rounds, n - longSampleCnt, n + 1)
    {
      hide Fits;
      var max;
      min, max := ReadSensors(rounds[n]);
      if Abs(sensor.curr - max) > setting.sensorDelta {
        return false, min;
      }
      if max > setting.maxTemp || max - min > Int32(setting.tempRange) {
        return false, min;
      }
      if longSampleCnt != 0 {
        Extend(rounds, n - longSampleCnt, n);
      } else {
        Open(rounds, n);
      }
      ok := WithinLongRange(rounds, n - longSampleCnt, n + 1);
    }

    /** speaker_cal_algo, for as many rounds as there are. */
    method Calibrate(rounds: seq<Round>) returns (result: Result)
      requires Sized(rounds, sensorsArr.Length)
      modifies `sensor, `state, sensorsArr
      ensures result == From(setting, rounds, 0)
    {
      hide Steady, Fits;
      var longSampleCnt: nat, n := 0, 0;
      while n < |rounds|
        invariant 0 <= n <= |rounds|
        invariant longSampleCnt == Window(setting, rounds, n)
        invariant longSampleCnt > 0 ==> Keeps(rounds, n - longSampleCnt, n)
        invariant From(setting, rounds, 0) == From(setting, rounds, n)
      {
        if rounds[n].cancelled {
          return Cancelled;
        }
        assert rounds[n] in rounds;
        var ok, min := Poll(rounds, n, longSampleCnt);
        if ok {
          longSampleCnt := longSampleCnt + 1;
          if longSampleCnt >= setting.longSamplingCnt {
            if rounds[n].cancelledAfter {
              return Cancelled;
            }
            return Reported(Rconv(min + setting.offset));
          }
          state := 1;
        } else {
          state := 0;
        }
        if state == 0 {
          longSampleCnt := 0;
        }
        n := n + 1;
      }
      result := Waiting;
    }
  }
}
