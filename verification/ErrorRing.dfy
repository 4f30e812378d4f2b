/** The error ring of a controller (`struct err_history_t` in
    thermal-engine/pid_algorithm.c): three slots, an index that moves, and a running
    total. Its meaning is the three last samples, newest first. */
module ErrorRing {
  import opened Numbers

  const I_SAMPLES := 3

  // -------------------------------------------------------------- what it means

  /** The last three samples of a stream, newest first, zero where there were fewer. */
  function Recent(samples: seq<int>): (h: seq<int>)
    ensures |h| == I_SAMPLES
  {
    seq(I_SAMPLES, i requires 0 <= i => if i < |samples| then samples[|samples| - 1 - i] else 0)
  }

  function Copies(err: int, n: int): (s: seq<int>)
    ensures |s| == if n < 0 then 0 else n
  {
    seq(if n < 0 then 0 else n, _ => err)
  }

  datatype Call = Call(err: int, sampleCnt: int)

  /** All that has been fed in, each reading as often as its sample count says. */
  function Samples(calls: seq<Call>): seq<int> {
    if calls == [] then []
    else Samples(calls[..|calls| - 1]) + Copies(calls[|calls| - 1].err, calls[|calls| - 1].sampleCnt)
  }

  // ------------------------------------------------------- what one call does

  /** The history after `n` more samples of `err`; the count is cut off at three. */
  function Pushed(history: seq<int>, err: int, n: int): (h: seq<int>)
    requires |history| == I_SAMPLES
    ensures |h| == I_SAMPLES
  {
    var k := if n > I_SAMPLES then I_SAMPLES else if n < 0 then 0 else n;
    Copies(err, k) + history[..I_SAMPLES - k]
  }

  function After(calls: seq<Call>): (h: seq<int>)
    ensures |h| == I_SAMPLES
  {
    if calls == [] then [0, 0, 0]
    else Pushed(After(calls[..|calls| - 1]), calls[|calls| - 1].err, calls[|calls| - 1].sampleCnt)
  }

  lemma {:induction false} PushedRecent(samples: seq<int>, err: int, n: int)
    ensures Pushed(Recent(samples), err, n) == Recent(samples + Copies(err, n))
  {
  }

  /** After any calls from a ring of zeros the history is the three last samples of all
      that was fed in; cutting the counts off at three loses nothing. */
  lemma {:induction false} HistoryIsRecent(calls: seq<Call>)
    ensures After(calls) == Recent(Samples(calls))
  {
    if calls != [] {
      var front, last := calls[..|calls| - 1], calls[|calls| - 1];
      HistoryIsRecent(front);
      PushedRecent(Samples(front), last.err, last.sampleCnt);
    }
  }

  function Total(h: seq<int>): int
    requires |h| == I_SAMPLES
  {
    h[0] + h[1] + h[2]
  }

  /** The `k` oldest, which `k` new samples replace. */
  function Oldest(h: seq<int>, k: int): int
    requires |h| == I_SAMPLES && k <= I_SAMPLES
  {
    if k <= 0 then 0 else Oldest(h, k - 1) + h[I_SAMPLES - k]
  }

  lemma {:induction false} TotalPushed(h: seq<int>, err: int, n: int)
    requires |h| == I_SAMPLES && n <= I_SAMPLES
    ensures Total(Pushed(h, err, n)) == Total(h) - Oldest(h, n) + (if n < 0 then 0 else n) * err
  {
    var p := Pushed(h, err, n);
    if n <= 0 {
      assert p == h;
    } else if n == 1 {
      assert p == [err, h[0], h[1]];
    } else if n == 2 {
      assert p == [err, err, h[0]];
      assert Oldest(h, 1) == h[2] && Oldest(h, 2) == h[2] + h[1];
    } else {
      assert p == [err, err, err];
      assert Oldest(h, 1) == h[2] && Oldest(h, 2) == h[2] + h[1] && Oldest(h, 3) == Total(h);
    }
  }

  lemma {:induction false} PushedOneMore(h: seq<int>, err: int, k: nat)
    requires |h| == I_SAMPLES && k < I_SAMPLES
    ensures Pushed(h, err, 0) == h
    ensures Pushed(h, err, k + 1) == [err] + Pushed(h, err, k)[..I_SAMPLES - 1]
  {
  }

  // ------------------------------------------------------------ the code, in place

  class ErrHistory {
    const err: array<int>
    var errTotal: int    // err_I_total
    var currIdx: nat

    ghost predicate Valid()
      reads this, err
    {
      && err.Length == I_SAMPLES && currIdx < I_SAMPLES
      && errTotal == err[0] + err[1] + err[2]
    }

    /** The samples, newest first. */
    ghost function History(): (h: seq<int>)
      requires err.Length == I_SAMPLES && currIdx < I_SAMPLES
      reads `currIdx, err
      ensures |h| == I_SAMPLES
    {
      [err[currIdx], err[(currIdx + 2) % 3], err[(currIdx + 1) % 3]]
    }

    constructor ()
      ensures Valid() && History() == After([]) && fresh(err)
    {
      var slots := new int[I_SAMPLES](_ => 0);
      err, errTotal, currIdx := slots, 0, 0;
    }

    /** `idx` counts from the newest: 0 is it, -1 the one before; any other index wraps. */
    method GetErr(idx: int) returns (value: int)
      requires err.Length == I_SAMPLES && currIdx < I_SAMPLES
      ensures value == History()[(-idx) % I_SAMPLES]
    {
      var i := CMod(idx, I_SAMPLES);
      i := i + currIdx;
      if i < 0 {
        i := i + I_SAMPLES;
      } else if i >= I_SAMPLES {
        i := i - I_SAMPLES;
      }
      value := err[i];
    }

    method SetCurrErr(sample: int, sampleCnt: int)
      requires Valid()
      modifies this, err
      ensures Valid()
      ensures History() == Pushed(old(History()), sample, sampleCnt)
      ensures errTotal == Total(History())
    {
      hide Pushed, History, Total;
      TotalOfHistory();
      var n := if sampleCnt > I_SAMPLES then I_SAMPLES else sampleCnt;
      ghost var before := History();
      ghost var room := if n < 0 then 0 else n;
      var idx := 0;
      while idx < n
        invariant 0 <= idx <= room
        invariant errTotal == Total(before) - Oldest(before, idx)
        modifies `errTotal
      {
        var oldest := GetErr(idx + 1);
        errTotal := errTotal - oldest;
        idx := idx + 1;
      }
      PushedOneMore(before, sample, 0);
      idx := 0;
      while idx < n
        invariant 0 <= idx <= room && currIdx < I_SAMPLES
        invariant History() == Pushed(before, sample, idx)
        invariant errTotal == Total(before) - Oldest(before, room) + idx * sample
      {
        PushedOneMore(before, sample, idx);
        ghost var was := History();
        Advance(sample);
        assert History() == [sample] + was[..I_SAMPLES - 1];
        errTotal := errTotal + sample;
        idx := idx + 1;
      }
      TotalPushed(before, sample, n);
      PushedCut(before, sample, sampleCnt, room);
      TotalOfHistory();
    }

    lemma TotalOfHistory()
      requires err.Length == I_SAMPLES && currIdx < I_SAMPLES
      ensures Total(History()) == err[0] + err[1] + err[2]
    {
    }

    /** Move the index on and overwrite the slot it comes to, the oldest. */
    method Advance(sample: int)
      requires err.Length == I_SAMPLES && currIdx < I_SAMPLES
      modifies `currIdx, err
      ensures currIdx < I_SAMPLES && History() == [sample] + old(History())[..I_SAMPLES - 1]
    {
      currIdx := (currIdx + 1) % I_SAMPLES;
      err[currIdx] := sample;
    }
  }

  lemma {:induction false} PushedCut(h: seq<int>, err: int, n: int, room: nat)
    requires |h| == I_SAMPLES && room == if n > I_SAMPLES then I_SAMPLES else if n < 0 then 0 else n
    ensures Pushed(h, err, n) == Pushed(h, err, room)
  {
  }
}
