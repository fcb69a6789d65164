/** The control loop of an ION process: one queue of calls, run one at a time (pyon/ion/process.py). */
module ControlLoops {
  import opened Wrappers

  /** A queued call, known by its async result, or the marker that ends the loop. */
  datatype Item = Call(ar: nat, replyBy: Option<int>) | StopIteration

  /** What an async result is set to: False by a cancel, or what the call returned (None after an exception). */
  datatype Outcome = Cancelled | Returned(value: Option<int>)

  /**
   * The process between atomic steps. Async results are numbered as they are made. An interrupt that has
   * been asked for waits in kills, with the call it was meant for, until it reaches the control thread.
   * taken, started and expired record the past: how many calls left the queue, which of them were made,
   * and which were dropped because their reply-by time had come.
   */
  datatype State = State(
    queue: seq<Item>, current: Option<nat>, results: map<nat, Outcome>, kills: seq<nat>, running: bool,
    submitted: nat, taken: nat, started: seq<nat>, expired: set<nat>)

  datatype Step =
    | Submit(replyBy: Option<int>)
    | CancelOrAbort(ar: nat)
    | Take(now: int)
    | Finish(result: Option<int>)
    | Deliver
    | Stop

  const Init := State([], None, map[], [], true, 0, 0, [], {})

  /** The position at which the search for a call ends: at the call, at the stop marker, or after the queue. */
  function SearchFrom(queue: seq<Item>, ar: nat, i: nat): (k: nat)
    requires i <= |queue|
    ensures i <= k <= |queue|
    ensures k < |queue| ==> queue[k] == StopIteration || queue[k].ar == ar
    ensures forall j | i <= j < k :: queue[j].Call? && queue[j].ar != ar
    decreases |queue| - i
  {
    if i == |queue| || queue[i] == StopIteration || queue[i].ar == ar then i else SearchFrom(queue, ar, i + 1)
  }

  datatype Pending = Found | Absent | Raised

  /** Searching past the stop marker raises a TypeError, for it does not unpack. */
  function HasPendingCall(queue: seq<Item>, ar: nat): Pending {
    var k := SearchFrom(queue, ar, 0);
    if k == |queue| then Absent else if queue[k].Call? then Found else Raised
  }

  predicate Enabled(s: State, step: Step) {
    match step
    case Submit(_) => true
    case CancelOrAbort(ar) => ar < s.submitted
    case Take(_) => s.running && s.current.None? && s.queue != []
    case Finish(_) => s.running && s.current.Some?
    case Deliver => s.kills != []
    case Stop => true
  }

  function Next(s: State, step: Step): State
    requires Enabled(s, step)
  {
    match step
    case Submit(replyBy) => s.(queue := s.queue + [Call(s.submitted, replyBy)], submitted := s.submitted + 1)
    case CancelOrAbort(ar) =>
      (match HasPendingCall(s.queue, ar)
       case Found => s.(results := s.results[ar := Cancelled])
       case Raised => s
       case Absent => if ar in s.results then s else s.(kills := s.kills + [ar]))
    case Take(now) => Taken(s, now)
    case Finish(result) => Finished(s, result)
    case Deliver =>
      var s' := s.(kills := s.kills[1..]);
      if !s.running then s' else if s.current.Some? then Finished(s', None) else s'.(running := false)
    case Stop => s.(queue := s.queue + [StopIteration])
  }

  /** The loop takes the next item; reply-by is checked before the async result is. */
  function Taken(s: State, now: int): State
    requires s.queue != []
  {
    var rest := s.(queue := s.queue[1..]);
    match s.queue[0]
    case StopIteration => rest.(running := false)
    case Call(ar, replyBy) =>
      var out := rest.(taken := ar + 1);
      if replyBy.Some? && now >= replyBy.value then out.(expired := s.expired + {ar})
      else if ar in s.results then out
      else out.(current := Some(ar), started := s.started + [ar])
  }

  function Finished(s: State, result: Option<int>): State
    requires s.current.Some?
  {
    s.(current := None, results := s.results[s.current.value := Returned(result)])
  }

  // ------------------------------------------------- what every run keeps

  ghost predicate Queued(s: State, ar: nat) {
    exists i :: 0 <= i < |s.queue| && s.queue[i].Call? && s.queue[i].ar == ar
  }

  ghost predicate Current(s: State, ar: nat) { s.current == Some(ar) }

  ghost predicate Settled(s: State, ar: nat) { ar in s.results && !Queued(s, ar) && ar !in s.expired }

  ghost predicate Expired(s: State, ar: nat) { ar in s.expired }

  ghost predicate QueueOrdered(s: State) {
    && s.taken <= s.submitted
    && (forall i | 0 <= i < |s.queue| && s.queue[i].Call? :: s.taken <= s.queue[i].ar < s.submitted)
    && (forall i, j | 0 <= i < j < |s.queue| && s.queue[i].Call? && s.queue[j].Call? :: s.queue[i].ar < s.queue[j].ar)
    && (forall ar | s.taken <= ar < s.submitted :: Queued(s, ar))
  }

  ghost predicate StartedInOrder(s: State) {
    && (forall i | 0 <= i < |s.started| :: s.started[i] < s.taken && s.started[i] !in s.expired)
    && (forall i, j | 0 <= i < j < |s.started| :: s.started[i] < s.started[j])
    && (s.current.Some? ==> s.running && s.current.value !in s.results)
    && (s.current.Some? ==> s.started != [] && s.started[|s.started| - 1] == s.current.value)
    && (forall i | 0 <= i < |s.started| && s.current != Some(s.started[i]) ::
          s.started[i] in s.results && s.results[s.started[i]].Returned?)
  }

  ghost predicate Accounted(s: State) {
    && (forall ar | ar in s.expired :: ar < s.taken)
    && (forall ar | ar in s.results :: ar < s.submitted)
    && (forall ar | ar in s.results && s.results[ar].Returned? :: ar in s.started)
    && (forall ar | 0 <= ar < s.taken :: ar in s.expired || ar in s.results || s.current == Some(ar))
  }

  ghost predicate Inv(s: State) { QueueOrdered(s) && StartedInOrder(s) && Accounted(s) }

  lemma HeadIsNext(s: State)
    requires QueueOrdered(s) && s.queue != [] && s.queue[0].Call?
    ensures s.queue[0].ar == s.taken
  {
    assert Queued(s, s.taken);
  }

  lemma TakeKeepsQueue(s: State, now: int)
    requires Inv(s) && Enabled(s, Take(now))
    ensures QueueOrdered(Taken(s, now))
  {
    var t := Taken(s, now);
    if s.queue[0].Call? { HeadIsNext(s); }
    forall ar | t.taken <= ar < t.submitted ensures Queued(t, ar) {
      assert Queued(s, ar);
      var i :| 0 <= i < |s.queue| && s.queue[i].Call? && s.queue[i].ar == ar;
      assert i > 0 && t.queue[i - 1] == s.queue[i];
    }
  }

  lemma AppendKeepsQueue(s: State, item: Item)
    requires QueueOrdered(s) && (item.Call? ==> item.ar == s.submitted)
    ensures QueueOrdered(s.(queue := s.queue + [item], submitted := s.submitted + if item.Call? then 1 else 0))
  {
    var t := s.(queue := s.queue + [item], submitted := s.submitted + if item.Call? then 1 else 0);
    forall ar | t.taken <= ar < t.submitted ensures Queued(t, ar) {
      if ar < s.submitted {
        assert Queued(s, ar);
        var i :| 0 <= i < |s.queue| && s.queue[i].Call? && s.queue[i].ar == ar;
        assert t.queue[i] == s.queue[i];
      } else {
        assert t.queue[|s.queue|] == item;
      }
    }
  }

  lemma FinishKeeps(s: State, result: Option<int>)
    requires Inv(s) && s.current.Some?
    ensures Inv(Finished(s, result))
  {
    var t := Finished(s, result);
    forall ar | t.taken <= ar < t.submitted ensures Queued(t, ar) { assert Queued(s, ar); }
    assert s.started[|s.started| - 1] in t.started;
  }

  lemma CancelKeeps(s: State, ar: nat)
    requires Inv(s) && Enabled(s, CancelOrAbort(ar))
    ensures Inv(Next(s, CancelOrAbort(ar)))
  {
    var t := Next(s, CancelOrAbort(ar));
    forall c | t.taken <= c < t.submitted ensures Queued(t, c) { assert Queued(s, c); }
  }

  lemma TakeKeepsStarted(s: State, now: int)
    requires Inv(s) && Enabled(s, Take(now))
    ensures StartedInOrder(Taken(s, now))
  {
    if s.queue[0].Call? { HeadIsNext(s); }
  }

  lemma TakeKeeps(s: State, now: int)
    requires Inv(s) && Enabled(s, Take(now))
    ensures Inv(Taken(s, now))
  {
    TakeKeepsQueue(s, now);
    TakeKeepsStarted(s, now);
    if s.queue[0].Call? {
      HeadIsNext(s);
      var t := Taken(s, now);
      assert forall ar | ar in s.started :: ar in t.started;
    }
  }

  /** An item joins the queue: a new call, or the stop marker. */
  lemma AppendKeeps(s: State, item: Item)
    requires Inv(s) && (item.Call? ==> item.ar == s.submitted)
    ensures Inv(s.(queue := s.queue + [item], submitted := s.submitted + if item.Call? then 1 else 0))
  {
    AppendKeepsQueue(s, item);
  }

  /** Which interrupts are under way, and whether the loop runs while it is idle, is nothing to the calls. */
  lemma InterruptsKeep(s: State, kills: seq<nat>, running: bool)
    requires Inv(s) && (s.current.Some? ==> running)
    ensures Inv(s.(kills := kills, running := running))
  {
    var t := s.(kills := kills, running := running);
    forall ar | t.taken <= ar < t.submitted ensures Queued(t, ar) { assert Queued(s, ar); }
  }

  lemma DeliverKeeps(s: State)
    requires Inv(s) && s.kills != []
    ensures Inv(Next(s, Deliver))
  {
    var rest := s.kills[1..];
    InterruptsKeep(s, rest, s.running);
    if s.running && s.current.Some? {
      FinishKeeps(s.(kills := rest), None);
    } else if s.running {
      InterruptsKeep(s, rest, false);
    }
  }

  lemma StepKeeps(s: State, step: Step)
    requires Inv(s) && Enabled(s, step)
    ensures Inv(Next(s, step))
  {
    match step
    case Submit(replyBy) => AppendKeeps(s, Call(s.submitted, replyBy));
    case Stop => AppendKeeps(s, StopIteration);
    case CancelOrAbort(ar) => CancelKeeps(s, ar);
    case Take(now) => TakeKeeps(s, now);
    case Finish(result) => FinishKeeps(s, result);
    case Deliver => DeliverKeeps(s);
  }

  /** Steps that are not enabled have no effect. */
  function Stepped(s: State, step: Step): State { if Enabled(s, step) then Next(s, step) else s }

  function Run(s: State, steps: seq<Step>): State
    decreases |steps|
  {
    if steps == [] then s else Run(Stepped(s, steps[0]), steps[1..])
  }

  lemma {:induction false} RunKeeps(s: State, steps: seq<Step>)
    requires Inv(s)
    ensures Inv(Run(s, steps))
    decreases |steps|
  {
    if steps != [] {
      if Enabled(s, steps[0]) { StepKeeps(s, steps[0]); RunKeeps(Next(s, steps[0]), steps[1..]); }
      else { RunKeeps(s, steps[1..]); }
    }
  }

  ghost function One(b: bool): nat { if b then 1 else 0 }

  /** In how many of the four places a call is. */
  ghost function Places(s: State, ar: nat): nat {
    One(Queued(s, ar)) + One(Current(s, ar)) + One(Settled(s, ar)) + One(Expired(s, ar))
  }

  /** At every moment of every run, each submitted call is in exactly one place, and no other call in any. */
  lemma InOnePlace(steps: seq<Step>, ar: nat)
    ensures var s := Run(Init, steps);
      Places(s, ar) == One(ar < s.submitted)
  {
    RunKeeps(Init, steps);
    var s := Run(Init, steps);
    assert Queued(s, ar) <==> s.taken <= ar < s.submitted;
    if Current(s, ar) { assert ar < s.taken && ar !in s.expired by { assert s.started[|s.started| - 1] == ar; } }
  }

  /**
   * Calls are made in the order they were submitted, each at most once, only when those before it are done, and
   * never when expired.
   */
  lemma OneAtATime(steps: seq<Step>)
    ensures var s := Run(Init, steps);
      && (forall i, j | 0 <= i < j < |s.started| :: s.started[i] < s.started[j])
      && (forall i | 0 <= i < |s.started| - 1 :: s.started[i] in s.results)
      && (forall i | 0 <= i < |s.started| :: s.started[i] !in s.expired)
      && (forall i, ar | 0 <= i < |s.started| && Queued(s, ar) :: s.started[i] < ar)
  {
    RunKeeps(Init, steps);
  }

  lemma StepSettles(s: State, step: Step, ar: nat)
    requires Inv(s) && Enabled(s, step) && ar in s.results
    ensures ar in Next(s, step).results && Next(s, step).results[ar] == s.results[ar]
    ensures ar in Next(s, step).started ==> ar in s.started
  {
    match step
    case CancelOrAbort(other) =>
      if ar == other && HasPendingCall(s.queue, ar) == Found {
        assert Queued(s, ar) && ar !in s.started;
      }
    case Take(now) => TakeKeeps(s, now);
    case Submit(_) =>
    case Finish(_) =>
    case Deliver =>
    case Stop =>
  }

  /** A set result never changes, and a call whose result is set is not made any more. */
  lemma {:induction false} ResultsStay(s: State, steps: seq<Step>, ar: nat)
    requires Inv(s) && ar in s.results
    ensures ar in Run(s, steps).results && Run(s, steps).results[ar] == s.results[ar]
    ensures ar in Run(s, steps).started ==> ar in s.started
    decreases |steps|
  {
    if steps != [] {
      if Enabled(s, steps[0]) {
        StepSettles(s, steps[0], ar);
        StepKeeps(s, steps[0]);
        ResultsStay(Next(s, steps[0]), steps[1..], ar);
      } else {
        ResultsStay(s, steps[1..], ar);
      }
    }
  }

  /** A call that was cancelled while it was queued is never made, and its result stays False. */
  lemma CancelledNeverRuns(before: seq<Step>, ar: nat, after: seq<Step>)
    requires ar < Run(Init, before).submitted && HasPendingCall(Run(Init, before).queue, ar) == Found
    ensures var s := Run(Next(Run(Init, before), CancelOrAbort(ar)), after);
      ar !in s.started && ar in s.results && s.results[ar] == Cancelled
  {
    var s := Run(Init, before);
    RunKeeps(Init, before);
    assert Queued(s, ar) && ar !in s.started;
    StepKeeps(s, CancelOrAbort(ar));
    ResultsStay(Next(s, CancelOrAbort(ar)), after, ar);
  }

  lemma PendingMeansQueued(s: State, ar: nat)
    requires StopIteration !in s.queue
    ensures HasPendingCall(s.queue, ar) == if Queued(s, ar) then Found else Absent
  {
  }

  /**
   * While no stop is queued, a call is interrupted exactly when it is the current one, or when it has
   * expired with its result never set.
   */
  lemma InterruptsCurrent(steps: seq<Step>, ar: nat)
    requires var s := Run(Init, steps); ar < s.submitted && StopIteration !in s.queue
    ensures var s := Run(Init, steps);
      Next(s, CancelOrAbort(ar)).kills == s.kills + [ar] <==> Current(s, ar) || (Expired(s, ar) && ar !in s.results)
  {
    var s := Run(Init, steps);
    RunKeeps(Init, steps);
    PendingMeansQueued(s, ar);
    assert |s.kills + [ar]| != |s.kills|;
  }

  /** Once a stop is queued, no call but those queued before it can be cancelled or interrupted. */
  lemma NotAfterStop(s: State, ar: nat)
    requires ar < s.submitted && StopIteration in s.queue
    requires forall i | 0 <= i < |s.queue| && s.queue[i].Call? && s.queue[i].ar == ar :: StopIteration in s.queue[..i]
    ensures HasPendingCall(s.queue, ar) == Raised && Next(s, CancelOrAbort(ar)) == s
  {
    var k := SearchFrom(s.queue, ar, 0);
    assert forall j | 0 <= j < k :: s.queue[..k][j].Call?;
  }

  // ------------------------------------------------- after a stop

  /** A loop that still runs has a stop queued before all calls numbered from n. */
  ghost predicate Stopping(s: State, n: nat) {
    && n <= s.submitted && (forall i | 0 <= i < |s.started| :: s.started[i] < n)
    && (s.running ==>
          exists k :: 0 <= k < |s.queue| && s.queue[k] == StopIteration
            && forall i | 0 <= i < k && s.queue[i].Call? :: s.queue[i].ar < n)
  }

  lemma StoppingStep(s: State, step: Step, n: nat)
    requires Stopping(s, n)
    ensures Stopping(Stepped(s, step), n)
  {
    var t := Stepped(s, step);
    if step.Take? && Enabled(s, step) {
      StoppingTake(s, step.now, n);
    } else if t.running {
      var k :| 0 <= k < |s.queue| && s.queue[k] == StopIteration
        && forall i | 0 <= i < k && s.queue[i].Call? :: s.queue[i].ar < n;
      assert t.queue[k] == s.queue[k] && forall i | 0 <= i < k :: t.queue[i] == s.queue[i];
    }
  }

  lemma StoppingTake(s: State, now: int, n: nat)
    requires Stopping(s, n) && Enabled(s, Take(now))
    ensures Stopping(Next(s, Take(now)), n)
  {
    var t := Next(s, Take(now));
    var k :| 0 <= k < |s.queue| && s.queue[k] == StopIteration
      && forall i | 0 <= i < k && s.queue[i].Call? :: s.queue[i].ar < n;
    if k > 0 { assert t.queue[k - 1] == s.queue[k]; }
  }

  lemma {:induction false} StaysStopping(s: State, steps: seq<Step>, n: nat)
    requires Stopping(s, n)
    ensures Stopping(Run(s, steps), n)
    decreases |steps|
  {
    if steps != [] {
      StoppingStep(s, steps[0], n);
      StaysStopping(Stepped(s, steps[0]), steps[1..], n);
    }
  }

  /** Over every run, no call submitted after a stop is ever made. */
  lemma NothingAfterStop(before: seq<Step>, after: seq<Step>, ar: nat)
    requires ar >= Run(Init, before).submitted
    ensures ar !in Run(Init, before + [Stop] + after).started
  {
    var s := Run(Init, before);
    RunKeeps(Init, before);
    RunSnoc(Init, before, Stop);
    RunConcat(Init, before + [Stop], after);
    var t := Run(Init, before + [Stop]);
    assert t.queue[|s.queue|] == StopIteration;
    StaysStopping(t, after, s.submitted);
  }

  // ------------------------------------------------- in time and too late

  lemma {:induction false} RunSnoc(s: State, steps: seq<Step>, last: Step)
    ensures Run(s, steps + [last]) == Stepped(Run(s, steps), last)
    decreases |steps|
  {
    var all := steps + [last];
    if steps == [] {
      assert all[1..] == [];
    } else {
      assert all[0] == steps[0] && all[1..] == steps[1..] + [last];
      RunSnoc(Stepped(s, steps[0]), steps[1..], last);
    }
  }

  /** The reply-by times of the calls submitted, in order. */
  function DueTimes(steps: seq<Step>): seq<Option<int>>
    decreases |steps|
  {
    if steps == [] then []
    else
      var n := |steps| - 1;
      DueTimes(steps[..n]) + (if steps[n].Submit? then [steps[n].replyBy] else [])
  }

  /** A step takes a call off the queue. */
  predicate TakesCall(s: State, step: Step) { step.Take? && Enabled(s, step) && s.queue[0].Call? }

  /** The times at which calls were taken off the queue, in order. */
  function TakeTimes(steps: seq<Step>): seq<int>
    decreases |steps|
  {
    if steps == [] then []
    else
      var n := |steps| - 1;
      TakeTimes(steps[..n]) + (if TakesCall(Run(Init, steps[..n]), steps[n]) then [steps[n].now] else [])
  }

  /** Some cancel found the call before it was taken. */
  ghost predicate CancelledBefore(steps: seq<Step>, ar: nat) {
    exists i :: 0 <= i < |steps| && steps[i] == CancelOrAbort(ar) && Run(Init, steps[..i]).taken <= ar
  }

  /** A state with the reply-by times of its calls and the times at which they were taken. */
  ghost predicate Timed(s: State, due: seq<Option<int>>, times: seq<int>) {
    && Inv(s) && |due| == s.submitted && |times| == s.taken
    && (forall i | 0 <= i < |s.queue| && s.queue[i].Call? :: s.queue[i].replyBy == due[s.queue[i].ar])
    && (forall ar | 0 <= ar < s.taken :: ar in s.expired <==> due[ar].Some? && times[ar] >= due[ar].value)
    && (forall ar | 0 <= ar < s.taken && ar !in s.expired && ar !in s.started ::
          ar in s.results && s.results[ar] == Cancelled)
  }

  lemma TimedTake(s: State, due: seq<Option<int>>, times: seq<int>, now: int)
    requires Timed(s, due, times) && Enabled(s, Take(now))
    ensures Timed(Next(s, Take(now)), due, if s.queue[0].Call? then times + [now] else times)
  {
    TakeKeeps(s, now);
    if s.queue[0].Call? { TimedCall(s, due, times, now); }
  }

  lemma TimedCall(s: State, due: seq<Option<int>>, times: seq<int>, now: int)
    requires Timed(s, due, times) && Enabled(s, Take(now)) && s.queue[0].Call?
    ensures var t := Next(s, Take(now));
      && (forall i | 0 <= i < |t.queue| && t.queue[i].Call? :: t.queue[i] in s.queue)
      && t.taken == s.taken + 1 <= s.submitted
      && (forall ar | 0 <= ar < t.taken ::
            ar in t.expired <==> due[ar].Some? && (times + [now])[ar] >= due[ar].value)
      && (forall ar | 0 <= ar < t.taken && ar !in t.expired && ar !in t.started ::
            ar in t.results && t.results[ar] == Cancelled)
  {
    HeadIsNext(s);
    assert s.taken in s.results ==> s.results[s.taken] == Cancelled;
    assert s.taken !in s.expired && forall ar | ar in s.started :: ar in Next(s, Take(now)).started;
  }

  lemma TimedFinish(s: State, due: seq<Option<int>>, times: seq<int>, result: Option<int>)
    requires Timed(s, due, times) && s.current.Some?
    ensures Timed(Finished(s, result), due, times)
  {
    FinishKeeps(s, result);
    assert s.started[|s.started| - 1] == s.current.value;
  }

  lemma TimedDeliver(s: State, due: seq<Option<int>>, times: seq<int>)
    requires Timed(s, due, times) && s.kills != []
    ensures Timed(Next(s, Deliver), due, times)
  {
    DeliverKeeps(s);
    if s.running && s.current.Some? {
      InterruptsKeep(s, s.kills[1..], s.running);
      TimedFinish(s.(kills := s.kills[1..]), due, times, None);
    }
  }

  lemma TimedCancel(s: State, due: seq<Option<int>>, times: seq<int>, ar: nat)
    requires Timed(s, due, times) && Enabled(s, CancelOrAbort(ar))
    ensures Timed(Next(s, CancelOrAbort(ar)), due, times)
  {
    CancelKeeps(s, ar);
    if HasPendingCall(s.queue, ar) == Found { assert Queued(s, ar); }
  }

  lemma TimedStep(s: State, due: seq<Option<int>>, times: seq<int>, step: Step)
    requires Timed(s, due, times)
    ensures Timed(Stepped(s, step), due + (if step.Submit? then [step.replyBy] else []),
                  times + (if TakesCall(s, step) then [step.now] else []))
  {
    if Enabled(s, step) {
      StepKeeps(s, step);
      match step
      case Take(now) => TimedTake(s, due, times, now); assert times + [] == times;
      case CancelOrAbort(ar) => TimedCancel(s, due, times, ar);
      case Finish(result) => TimedFinish(s, due, times, result);
      case Deliver => TimedDeliver(s, due, times);
      case Submit(_) =>
      case Stop =>
    }
    assert due + [] == due && times + [] == times;
  }

  lemma {:induction false} RunIsTimed(steps: seq<Step>)
    ensures Timed(Run(Init, steps), DueTimes(steps), TakeTimes(steps))
    decreases |steps|
  {
    if steps != [] {
      var n := |steps| - 1;
      RunIsTimed(steps[..n]);
      TimedStep(Run(Init, steps[..n]), DueTimes(steps[..n]), TakeTimes(steps[..n]), steps[n]);
      assert steps == steps[..n] + [steps[n]];
      RunSnoc(Init, steps[..n], steps[n]);
    }
  }

  /** A call has the result False only if it was cancelled before it was taken. */
  lemma {:induction false} OnlyCancelled(steps: seq<Step>, ar: nat)
    requires var s := Run(Init, steps); ar in s.results && s.results[ar] == Cancelled
    ensures CancelledBefore(steps, ar)
    decreases |steps|
  {
    if steps != [] {
      var n := |steps| - 1;
      var s, last := Run(Init, steps[..n]), steps[n];
      assert steps == steps[..n] + [last];
      RunSnoc(Init, steps[..n], last);
      RunKeeps(Init, steps[..n]);
      if ar in s.results && s.results[ar] == Cancelled {
        OnlyCancelled(steps[..n], ar);
        var i :| 0 <= i < n && steps[..n][i] == CancelOrAbort(ar) && Run(Init, steps[..n][..i]).taken <= ar;
        assert steps[..n][..i] == steps[..i] && steps[i] == CancelOrAbort(ar);
      } else {
        CancelledNow(s, last, ar);
      }
    }
  }

  lemma CancelledNow(s: State, step: Step, ar: nat)
    requires Inv(s) && !(ar in s.results && s.results[ar] == Cancelled)
    requires var t := Stepped(s, step); ar in t.results && t.results[ar] == Cancelled
    ensures step == CancelOrAbort(ar) && s.taken <= ar
  {
    assert step == CancelOrAbort(ar) && HasPendingCall(s.queue, ar) == Found;
    assert Queued(s, ar);
  }

  /**
   * Over every run: a call is dropped as expired exactly if it has a reply-by time and was taken at or after it.
   * Then it is never made. One taken in time is made, unless it was cancelled before it was taken.
   */
  lemma ExpiredExactly(steps: seq<Step>, ar: nat)
    ensures var s, due, times := Run(Init, steps), DueTimes(steps), TakeTimes(steps);
      && |times| == s.taken <= s.submitted == |due|
      && (ar in s.expired <==> ar < |times| && due[ar].Some? && times[ar] >= due[ar].value)
      && (ar in s.started ==> ar < |times| && (due[ar].Some? ==> times[ar] < due[ar].value))
      && (ar < |times| && (due[ar].Some? ==> times[ar] < due[ar].value) ==>
            ar in s.started || CancelledBefore(steps, ar))
  {
    RunIsTimed(steps);
    var s := Run(Init, steps);
    if ar < s.taken && ar !in s.expired && ar !in s.started { OnlyCancelled(steps, ar); }
  }

  /** What the current call returns is its result, and None if it is interrupted, whatever happens after. */
  lemma ResultIsReturned(before: seq<Step>, ar: nat, value: Option<int>, after: seq<Step>)
    requires Run(Init, before).current == Some(ar)
    ensures var t := Run(Init, before + [Finish(value)] + after);
      ar in t.results && t.results[ar] == Returned(value)
    ensures Run(Init, before).kills != [] ==>
      var t := Run(Init, before + [Deliver] + after);
      ar in t.results && t.results[ar] == Returned(None)
  {
    RunKeeps(Init, before);
    EndsWith(before, ar, Finish(value), value, after);
    if Run(Init, before).kills != [] { EndsWith(before, ar, Deliver, None, after); }
  }

  lemma EndsWith(before: seq<Step>, ar: nat, last: Step, value: Option<int>, after: seq<Step>)
    requires Inv(Run(Init, before)) && Enabled(Run(Init, before), last)
    requires var t := Next(Run(Init, before), last); ar in t.results && t.results[ar] == Returned(value)
    ensures var t := Run(Init, before + [last] + after);
      ar in t.results && t.results[ar] == Returned(value)
  {
    StepKeeps(Run(Init, before), last);
    RunSnoc(Init, before, last);
    RunConcat(Init, before + [last], after);
    ResultsStay(Run(Init, before + [last]), after, ar);
  }

  lemma {:induction false} RunConcat(s: State, a: seq<Step>, b: seq<Step>)
    ensures Run(s, a + b) == Run(Run(s, a), b)
    decreases |a|
  {
    if a == [] {
      assert a + b == b;
    } else {
      assert (a + b)[0] == a[0] && (a + b)[1..] == a[1..] + b;
      RunConcat(Stepped(s, a[0]), a[1..], b);
    }
  }

  // ------------------------------------------------- interrupts arrive later

  /** A call is made at most once: when it has ended, no step makes it current again. */
  lemma NeverAgain(s: State, steps: seq<Step>, ar: nat)
    requires Inv(s) && ar in s.results
    ensures !Current(Run(s, steps), ar) && ar in Run(s, steps).results
  {
    RunKeeps(s, steps);
    ResultsStay(s, steps, ar);
  }

  /** How many interrupts arrive. */
  function Delivers(steps: seq<Step>): nat {
    if steps == [] then 0 else (if steps[0].Deliver? then 1 else 0) + Delivers(steps[1..])
  }

  predicate Finishes(steps: seq<Step>) { exists i :: 0 <= i < |steps| && steps[i].Finish? }

  lemma FinishesFirst(steps: seq<Step>)
    requires steps != []
    ensures Finishes(steps) <==> steps[0].Finish? || Finishes(steps[1..])
  {
    if Finishes(steps) && !steps[0].Finish? {
      var i :| 0 <= i < |steps| && steps[i].Finish?;
      assert steps[1..][i - 1].Finish?;
    }
    if Finishes(steps[1..]) {
      var i :| 0 <= i < |steps[1..]| && steps[1..][i].Finish?;
      assert steps[i + 1].Finish?;
    }
  }

  /** Interrupts arrive in the order they were asked for. */
  lemma {:induction false} ArrivesInTurn(s: State, steps: seq<Step>, n: nat)
    requires n < |s.kills| && Delivers(steps) == n
    ensures var t := Run(s, steps); t.kills != [] && t.kills[0] == s.kills[n]
    decreases |steps|
  {
    if steps != [] {
      var step := steps[0];
      if Enabled(s, step) {
        ArrivesInTurn(Next(s, step), steps[1..], if step.Deliver? then n - 1 else n);
      } else {
        ArrivesInTurn(s, steps[1..], n);
      }
    }
  }

  /** While no interrupt arrives a call stays current exactly until it finishes; the first that arrives ends it. */
  lemma {:induction false} CurrentUntil(s: State, steps: seq<Step>, ar: nat)
    requires Inv(s) && Current(s, ar) && Delivers(steps) <= |s.kills|
    ensures var t := Run(s, steps);
      if Delivers(steps) == 0 && !Finishes(steps) then Current(t, ar) && ar !in t.results
      else !Current(t, ar) && ar in t.results
    decreases |steps|
  {
    if steps != [] {
      var step := steps[0];
      FinishesFirst(steps);
      if Enabled(s, step) { StepKeeps(s, step); }
      if step.Finish? || step.Deliver? {
        NeverAgain(Next(s, step), steps[1..], ar);
      } else {
        CurrentUntil(Stepped(s, step), steps[1..], ar);
      }
    }
  }

  /** The arrival of an interrupt sets the result of a call. */
  ghost predicate Ends(s: State, ar: nat) {
    s.kills != [] && ar !in s.results && ar in Next(s, Deliver).results
  }

  /**
   * An interrupt is asked for the current call. When it arrives, after those asked for before it, it ends
   * that call exactly when there were none before it and the call has not finished.
   */
  lemma HitsItsCall(s: State, ar: nat, steps: seq<Step>)
    requires Inv(s) && Current(s, ar) && StopIteration !in s.queue
    requires Delivers(steps) == |s.kills|
    ensures var s' := Next(s, CancelOrAbort(ar)); var t := Run(s', steps);
      && s'.kills == s.kills + [ar] && t.kills != [] && t.kills[0] == ar
      && (Ends(t, ar) <==> s.kills == [] && !Finishes(steps))
  {
    var s' := Next(s, CancelOrAbort(ar));
    assert !Queued(s, ar);
    PendingMeansQueued(s, ar);
    StepKeeps(s, CancelOrAbort(ar));
    ArrivesInTurn(s', steps, |s.kills|);
    CurrentUntil(s', steps, ar);
    RunKeeps(s', steps);
  }

  /** Otherwise it ends whatever call is current then, or the loop itself. */
  lemma HitsAnother(s: State, ar: nat, steps: seq<Step>, other: nat)
    requires Inv(s) && Current(s, ar) && StopIteration !in s.queue && Delivers(steps) == |s.kills|
    requires s.kills != [] || Finishes(steps)
    ensures var t := Run(Next(s, CancelOrAbort(ar)), steps);
      && t.kills != [] && t.kills[0] == ar
      && (Ends(t, other) <==> Current(t, other)) && !Ends(t, ar)
      && (t.current.None? ==> !Next(t, Deliver).running)
  {
    var s' := Next(s, CancelOrAbort(ar));
    HitsItsCall(s, ar, steps);
    StepKeeps(s, CancelOrAbort(ar));
    RunKeeps(s', steps);
  }

  lemma FirstCallRuns()
    ensures Run(Init, [Submit(None), Submit(None), Take(0)])
      == State([Call(1, None)], Some(0), map[], [], true, 2, 1, [0], {})
  {
    var steps := [Submit(None), Submit(None), Take(0)];
    assert steps[1..] == [Submit(None), Take(0)] && steps[1..][1..] == [Take(0)];
    var s := Next(Next(Init, Submit(None)), Submit(None));
    assert s.queue == [Call(0, None), Call(1, None)];
    assert Run(s, [Take(0)]) == Next(s, Take(0));
    assert s.queue[1..] == [Call(1, None)];
  }

  lemma SecondCallRuns(s: State)
    requires s == State([Call(1, None)], Some(0), map[], [], true, 2, 1, [0], {})
    ensures var t := Run(Next(s, CancelOrAbort(0)), [Finish(Some(7)), Take(1)]);
      Current(t, 1) && t.kills == [0]
  {
    assert [Finish(Some(7)), Take(1)][1..] == [Take(1)];
    var t := Next(s, CancelOrAbort(0));
    assert t.kills == [] + [0];
    var u := Next(t, Finish(Some(7)));
    assert Run(u, [Take(1)]) == Next(u, Take(1));
  }

  /** A run in which it does: the interrupt asked for call 0 ends call 1. */
  lemma WrongCallHit()
    ensures var s := Run(Init, [Submit(None), Submit(None), Take(0)]);
      var t := Run(Next(s, CancelOrAbort(0)), [Finish(Some(7)), Take(1)]);
      Current(s, 0) && t.kills == [0] && Ends(t, 1) && !Ends(t, 0)
  {
    var before, after := [Submit(None), Submit(None), Take(0)], [Finish(Some(7)), Take(1)];
    FirstCallRuns();
    RunKeeps(Init, before);
    var s := Run(Init, before);
    SecondCallRuns(s);
    assert after[0].Finish? && Finishes(after);
    assert after[1..] == [Take(1)] && Delivers([Take(1)]) == 0;
    HitsAnother(s, 0, after, 1);
  }

  // ------------------------------------------------- the process object

  class ControlLoop {
    var ctrlQueue: seq<Item>
    var ctrlCurrent: Option<nat>
    var results: map<nat, Outcome>
    var kills: seq<nat>
    var running: bool
    var submitted: nat
    ghost var taken: nat
    ghost var started: seq<nat>
    ghost var expired: set<nat>

    ghost function View(): State
      reads this
    {
      State(ctrlQueue, ctrlCurrent, results, kills, running, submitted, taken, started, expired)
    }

    constructor ()
      ensures View() == Init && Inv(View())
    {
      ctrlQueue, ctrlCurrent, results, kills, running, submitted := [], None, map[], [], true, 0;
      taken, started, expired := 0, [], {};
    }

    /** Queues a call and returns its async result. */
    method RoutingCall(replyBy: Option<int>) returns (ar: nat)
      requires Inv(View())
      modifies this
      ensures ar == old(submitted) && View() == Next(old(View()), Submit(replyBy)) && Inv(View())
    {
      StepKeeps(View(), Submit(replyBy));
      ar := submitted;
      ctrlQueue := ctrlQueue + [Call(ar, replyBy)];
      submitted := submitted + 1;
    }

    method HasPending(ar: nat) returns (found: Pending)
      requires Inv(View())
      ensures found == HasPendingCall(ctrlQueue, ar)
      ensures StopIteration !in ctrlQueue ==> found == if Queued(View(), ar) then Found else Absent
    {
      if StopIteration !in ctrlQueue { PendingMeansQueued(View(), ar); }
      for i := 0 to |ctrlQueue|
        invariant SearchFrom(ctrlQueue, ar, 0) == SearchFrom(ctrlQueue, ar, i)
      {
        if ctrlQueue[i] == StopIteration { return Raised; }
        if ctrlQueue[i].ar == ar { return Found; }
      }
      return Absent;
    }

    /** Cancels a queued call, or asks for an interrupt of the control thread if the call has no result. */
    method CancelOrAbortCall(ar: nat) returns (raised: bool)
      requires Inv(View()) && ar < submitted
      modifies this
      ensures raised == (HasPendingCall(old(ctrlQueue), ar) == Raised)
      ensures View() == Next(old(View()), CancelOrAbort(ar)) && Inv(View())
    {
      StepKeeps(View(), CancelOrAbort(ar));
      var pending := HasPending(ar);
      raised := pending == Raised;
      if pending == Found {
        results := results[ar := Cancelled];
      } else if pending == Absent && ar !in results {
        kills := kills + [ar];
      }
    }

    /** The loop takes one item: it starts the call, or drops it because it has expired or is cancelled. */
    method ControlFlow(now: int)
      requires Inv(View()) && running && ctrlCurrent.None? && ctrlQueue != []
      modifies this
      ensures View() == Next(old(View()), Take(now)) && Inv(View())
    {
      StepKeeps(View(), Take(now));
      var item := ctrlQueue[0];
      ctrlQueue := ctrlQueue[1..];
      match item
      case StopIteration => running := false;
      case Call(ar, replyBy) =>
        taken := ar + 1;
        if replyBy.Some? && now >= replyBy.value {
          expired := expired + {ar};
          return;
        }
        if ar in results {
          return;
        }
        ctrlCurrent := Some(ar);
        started := started + [ar];
    }

    /** The current call returns, raises (None), or is interrupted (None). */
    method CallEnds(result: Option<int>)
      requires Inv(View()) && running && ctrlCurrent.Some?
      modifies this
      ensures View() == Next(old(View()), Finish(result)) && Inv(View())
    {
      StepKeeps(View(), Finish(result));
      var ar := ctrlCurrent.value;
      ctrlCurrent := None;
      results := results[ar := Returned(result)];
    }

    /** An interrupt reaches the control thread: it ends the current call, or the idle loop itself. */
    method InterruptArrives()
      requires Inv(View()) && kills != []
      modifies this
      ensures View() == Next(old(View()), Deliver) && Inv(View())
    {
      StepKeeps(View(), Deliver);
      kills := kills[1..];
      if running {
        if ctrlCurrent.Some? {
          results := results[ctrlCurrent.value := Returned(None)];
          ctrlCurrent := None;
        } else {
          running := false;
        }
      }
    }

    method NotifyStop()
      requires Inv(View())
      modifies this
      ensures View() == Next(old(View()), Stop) && Inv(View())
    {
      StepKeeps(View(), Stop);
      ctrlQueue := ctrlQueue + [StopIteration];
    }
  }
}
