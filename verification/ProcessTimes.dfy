/** Busy time of an ION process over a sliding window (pyon/ion/process.py). */
module ProcessTimes {

  const StatIntervalLength: int := 60000

  /** A finished call: when it ended and how long it took, in ms. */
  datatype Call = Call(end: int, duration: nat)

  function Interval(time: int): int { time / StatIntervalLength }

  /** The time spent in the calls that ended at or after a moment. */
  function BusySince(calls: seq<Call>, since: int): nat {
    if calls == [] then 0
    else
      var last := calls[|calls| - 1];
      BusySince(calls[..|calls| - 1], since) + (if last.end >= since then last.duration else 0)
  }

  function Busy(calls: seq<Call>): nat {
    if calls == [] then 0 else Busy(calls[..|calls| - 1]) + calls[|calls| - 1].duration
  }

  /** One after the other: every call lasted within the time from the end of the one before to its own end. */
  predicate Sequential(calls: seq<Call>, start: int) {
    calls == [] ||
      var before, last := calls[..|calls| - 1], calls[|calls| - 1];
      Sequential(before, start) && last.end - last.duration >= LastEnd(before, start)
  }

  function LastEnd(calls: seq<Call>, start: int): int {
    if calls == [] then start else calls[|calls| - 1].end
  }

  lemma {:induction false} SequentialBusy(calls: seq<Call>, start: int)
    requires Sequential(calls, start)
    ensures Busy(calls) <= LastEnd(calls, start) - start
    decreases |calls|
  {
    if calls != [] {
      SequentialBusy(calls[..|calls| - 1], start);
    }
  }

  /** Nothing is busy since a moment exactly when no call that took time ended at or after it. */
  lemma {:induction false} IdleSince(calls: seq<Call>, since: int)
    ensures BusySince(calls, since) == 0
      <==> forall i | 0 <= i < |calls| && calls[i].duration > 0 :: calls[i].end < since
    decreases |calls|
  {
    if calls != [] {
      var n := |calls| - 1;
      IdleSince(calls[..n], since);
      assert forall i | 0 <= i < n :: calls[..n][i] == calls[i];
    }
  }

  lemma {:induction false} AllBefore(calls: seq<Call>, since: int)
    requires forall i | 0 <= i < |calls| :: calls[i].end < since
    ensures BusySince(calls, since) == 0
    decreases |calls|
  {
    if calls != [] { AllBefore(calls[..|calls| - 1], since); }
  }

  lemma IntervalStart(time: int, k: int)
    ensures time >= k * StatIntervalLength <==> Interval(time) >= k
  {
  }

  /** Three counters stand for the whole log of calls, as of the interval num. */
  ghost predicate Refines(calls: seq<Call>, total: int, prior: int, prior2: int, num: int) {
    && total == Busy(calls)
    && total - prior == BusySince(calls, num * StatIntervalLength)
    && total - prior2 == BusySince(calls, (num - 1) * StatIntervalLength)
    && forall i | 0 <= i < |calls| :: Interval(calls[i].end) <= num
  }

  /** The start of the interval before that of a moment. */
  function PriorStart(now: int): int { (Interval(now) - 1) * StatIntervalLength }

  /** What the counters tell of the time since then. */
  function WindowBusy(total: int, prior: int, prior2: int, num: int, now: int): int {
    if Interval(now) == num then total - prior2 else if Interval(now) - 1 == num then total - prior else 0
  }

  /** Two adjacent intervals are enough to tell what is busy since the start of the prior one, whenever that is. */
  lemma ReadsWindow(calls: seq<Call>, total: int, prior: int, prior2: int, num: int, now: int)
    requires Refines(calls, total, prior, prior2, num) && Interval(now) >= num
    ensures WindowBusy(total, prior, prior2, num, now) == BusySince(calls, PriorStart(now))
  {
    if Interval(now) - 1 > num {
      forall i | 0 <= i < |calls| ensures calls[i].end < PriorStart(now) {
        IntervalStart(calls[i].end, Interval(now) - 1);
      }
      AllBefore(calls, PriorStart(now));
    }
  }

  /**
   * On any clock: the window reads right exactly if the clock has not gone back before the last interval
   * recorded, or no call that took time ended in the window.
   */
  lemma ReadsWindowExactly(calls: seq<Call>, total: int, prior: int, prior2: int, num: int, now: int)
    requires Refines(calls, total, prior, prior2, num)
    ensures WindowBusy(total, prior, prior2, num, now) == BusySince(calls, PriorStart(now))
      <==> Interval(now) >= num || forall i | 0 <= i < |calls| && calls[i].duration > 0 ::
        calls[i].end < PriorStart(now)
  {
    if Interval(now) >= num {
      ReadsWindow(calls, total, prior, prior2, num, now);
    } else {
      IdleSince(calls, PriorStart(now));
    }
  }

  lemma MovesWindow(calls: seq<Call>, total: int, prior: int, prior2: int, num: int, now: int)
    requires Refines(calls, total, prior, prior2, num) && Interval(now) > num
    ensures Refines(calls, total, total, if Interval(now) - 1 == num then prior else total, Interval(now))
  {
    forall i | 0 <= i < |calls| ensures calls[i].end < Interval(now) * StatIntervalLength {
      IntervalStart(calls[i].end, Interval(now));
    }
    AllBefore(calls, Interval(now) * StatIntervalLength);
    ReadsWindow(calls, total, prior, prior2, num, now);
  }

  lemma LogsCall(calls: seq<Call>, total: int, prior: int, prior2: int, call: Call)
    requires Refines(calls, total, prior, prior2, Interval(call.end))
    ensures Refines(calls + [call], total + call.duration, prior, prior2, Interval(call.end))
  {
    var num, more := Interval(call.end), calls + [call];
    assert more[..|more| - 1] == calls;
    IntervalStart(call.end, num);
    IntervalStart(call.end, num - 1);
  }

  /** If the clock goes back an interval, the window reads as idle although a call ended in it. */
  lemma ClockBackwards() returns (calls: seq<Call>, now: int)
    ensures Refines(calls, Busy(calls), 0, 0, 1) && Interval(now) < 1
    ensures WindowBusy(Busy(calls), 0, 0, 1, now) == 0 && BusySince(calls, PriorStart(now)) > 0
  {
    calls, now := [Call(60000, 1)], 0;
    assert calls[..0] == [];
    assert BusySince([], -60000) == 0 && BusySince([], 0) == 0 && BusySince([], 60000) == 0 && Busy([]) == 0;
    ReadsWindowExactly(calls, Busy(calls), 0, 0, 1, now);
  }

  /** The control loop's account of its time; now is the clock. */
  class ProcessTime {
    var startTime: int
    var procTime: int
    var procTimePrior: int
    var procTimePrior2: int
    var procIntervalNum: int
    /** Every call made so far, and the moment last seen on the clock. */
    ghost var calls: seq<Call>
    ghost var clock: int

    ghost predicate Valid()
      reads this
    {
      && Refines(calls, procTime, procTimePrior, procTimePrior2, procIntervalNum)
      && procIntervalNum <= Interval(clock)
      && Sequential(calls, startTime)
      && LastEnd(calls, startTime) <= clock
    }

    constructor (now: int)
      ensures Valid() && calls == [] && clock == now == startTime
    {
      startTime, procTime, procTimePrior, procTimePrior2 := now, 0, 0, 0;
      procIntervalNum := now / StatIntervalLength;
      calls, clock := [], now;
    }

    /** Moves the window to the interval of curTime. */
    method RecordProcTime(curTime: int)
      requires Valid() && curTime >= clock
      modifies this
      ensures Valid() && calls == old(calls) && startTime == old(startTime) && clock == curTime
      ensures procIntervalNum == Interval(curTime) && procTime == old(procTime)
    {
      var curInterval := curTime / StatIntervalLength;
      if curInterval == procIntervalNum {
      } else if curInterval - 1 == procIntervalNum {
        MovesWindow(calls, procTime, procTimePrior, procTimePrior2, procIntervalNum, curTime);
        procIntervalNum := curInterval;
        procTimePrior2 := procTimePrior;
        procTimePrior := procTime;
      } else if curInterval - 1 > procIntervalNum {
        MovesWindow(calls, procTime, procTimePrior, procTimePrior2, procIntervalNum, curTime);
        procIntervalNum := curInterval;
        procTimePrior2 := procTime;
        procTimePrior := procTime;
      }
      clock := curTime;
    }

    /** A call that started at startProcTime, after the one before had ended, ends now. */
    method ComputeProcStats(startProcTime: int, now: int)
      requires Valid() && LastEnd(calls, startTime) <= startProcTime <= now && clock <= now
      modifies this
      ensures Valid() && startTime == old(startTime) && clock == now
      ensures calls == old(calls) + [Call(now, now - startProcTime)]
    {
      RecordProcTime(now);
      var procTimeDelta := now - startProcTime;
      LogsCall(calls, procTime, procTimePrior, procTimePrior2, Call(now, procTimeDelta));
      procTime := procTime + procTimeDelta;
      assert (calls + [Call(now, procTimeDelta)])[..|calls|] == calls;
      calls := calls + [Call(now, procTimeDelta)];
    }

    /**
     * Total, idle and busy time, the time since the prior interval began, and the busy time since then. At any
     * moment between or during calls the last is the time of the calls that ended in that window, unless the
     * clock has gone back too far.
     */
    method TimeStats(now: int) returns (running: int, idle: int, busy: int, sincePrior: int, busySincePrior: int)
      requires Valid()
      ensures running == now - startTime && busy == Busy(calls) && idle + busy == running
      ensures now >= clock ==> idle >= 0 && busySincePrior == BusySince(calls, now - sincePrior)
      ensures StatIntervalLength <= sincePrior < 2 * StatIntervalLength
      ensures (now - sincePrior) % StatIntervalLength == 0
      ensures busySincePrior == BusySince(calls, now - sincePrior) <==>
        Interval(now) >= procIntervalNum
        || forall i | 0 <= i < |calls| && calls[i].duration > 0 :: calls[i].end < now - sincePrior
    {
      running := now - startTime;
      idle := running - procTime;
      busy := procTime;
      var curInterval := now / StatIntervalLength;
      sincePrior := now - (curInterval - 1) * StatIntervalLength;
      if curInterval == procIntervalNum {
        busySincePrior := procTime - procTimePrior2;
      } else if curInterval - 1 == procIntervalNum {
        busySincePrior := procTime - procTimePrior;
      } else {
        busySincePrior := 0;
      }
      SequentialBusy(calls, startTime);
      ReadsWindowExactly(calls, procTime, procTimePrior, procTimePrior2, procIntervalNum, now);
    }
  }
}
