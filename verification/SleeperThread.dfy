/** The sleeper thread: a worker that runs a function over and over, and sleeps
    inside it on a condition variable until a timeout, a wake-up or a stop.

    The protocol is a transition system. A critical section under the mutex is
    one step; between unlocking and `notify_all` a caller is a separate pending
    notification, so every interleaving of the two is covered. The two accesses
    the worker makes without the mutex (testing the run flag, clearing the
    signal) are steps of their own. The function the worker runs is any finite
    list of sleeps, chosen afresh at every start. A blocked worker may also wake
    for no reason.
 */
module SleeperThread {

  /** `sleep_until` has the shape of `sleep_for`: wait while paused, then until a deadline. */
  datatype Call = Sleep | SleepFor

  datatype Pc =
    | Test                                                      // about to test the run flag
    | Clear                                                     // about to clear the signal
    | Enter                                                     // about to call the function
    | Body(calls: seq<Call>)                                    // in the function, with these sleeps to go
    | Paused(rest: seq<Call>, notified: bool)                   // blocked in the first wait of sleep_for
    | Waiting(timed: bool, rest: seq<Call>, notified: bool)     // blocked in the last wait of a sleep
    | Done

  datatype State = State(doRun: bool, signal: bool, paused: bool, toNotify: nat, pc: Pc)

  datatype Action =
    | TestRun | ClearSignal | Start(calls: seq<Call>) | CallSleep | Return | Wake | WakeForNoReason | TimeOut
    | WakeUp | Stop | Pause | Resume | Notify | Restart

  const INITIAL := State(true, false, false, 0, Test)

  // --- the waits --------------------------------------------------------------------------------

  predicate SleepOver(s: State) {
    s.signal || !s.doRun
  }

  predicate PauseOver(s: State) {
    !s.paused || s.signal || !s.doRun
  }

  predicate Blocked(s: State) {
    s.pc.Paused? || s.pc.Waiting?
  }

  /** The predicate a blocked worker waits for. */
  predicate WaitOver(s: State) {
    if s.pc.Paused? then PauseOver(s) else SleepOver(s)
  }

  /** Evaluating the last wait's predicate under the mutex: go on, or block. */
  function LastWait(s: State, timed: bool, rest: seq<Call>): Pc {
    if SleepOver(s) then Body(rest) else Waiting(timed, rest, false)
  }

  /** The same from the first wait of `sleep_for` on. */
  function BothWaits(s: State, rest: seq<Call>): Pc {
    if PauseOver(s) then LastWait(s, true, rest) else Paused(rest, false)
  }

  function Notified(pc: Pc): Pc {
    match pc
    case Paused(rest, _) => Paused(rest, true)
    case Waiting(timed, rest, _) => Waiting(timed, rest, true)
    case _ => pc
  }

  // --- the steps ----------------------------------------------------------------------------------

  predicate Enabled(s: State, a: Action) {
    match a
    case TestRun => s.pc.Test?
    case ClearSignal => s.pc.Clear?
    case Start(_) => s.pc.Enter?
    case CallSleep => s.pc.Body? && s.pc.calls != []
    case Return => s.pc.Body? && s.pc.calls == []
    case Wake => Blocked(s) && s.pc.notified
    case WakeForNoReason => Blocked(s)
    case TimeOut => s.pc.Waiting? && s.pc.timed
    case Notify => s.toNotify > 0
    case Restart => s.pc.Done?
    case _ => true
  }

  function Next(s: State, a: Action): State
    requires Enabled(s, a)
  {
    match a
    case TestRun => s.(pc := if s.doRun then Clear else Done)
    case ClearSignal => s.(signal := false, pc := Enter)
    case Start(calls) => s.(pc := Body(calls))
    case CallSleep =>
      s.(pc := if s.pc.calls[0].Sleep? then LastWait(s, false, s.pc.calls[1..]) else BothWaits(s, s.pc.calls[1..]))
    case Return => s.(pc := Test)
    case Wake => s.(pc := Rechecked(s))
    case WakeForNoReason => s.(pc := Rechecked(s))
    case TimeOut => s.(pc := Body(s.pc.rest))
    case WakeUp => s.(signal := true, toNotify := s.toNotify + 1)
    case Stop => s.(signal := true, doRun := false, toNotify := s.toNotify + 1)
    case Pause => s.(paused := true)
    case Resume => s.(paused := false, pc := Notified(s.pc))
    case Notify => s.(toNotify := s.toNotify - 1, pc := Notified(s.pc))
    case Restart => s.(doRun := true, signal := false, pc := Test)
  }

  function Rechecked(s: State): Pc
    requires Blocked(s)
  {
    if s.pc.Paused? then BothWaits(s, s.pc.rest) else LastWait(s, s.pc.timed, s.pc.rest)
  }

  predicate WorkerStep(a: Action) {
    a.TestRun? || a.ClearSignal? || a.Start? || a.CallSleep? || a.Return? || a.Wake? || a.WakeForNoReason? || a.TimeOut?
  }

  /** A run: `states[i]` to `states[i + 1]` by `acts[i]`. */
  ghost predicate Run(states: seq<State>, acts: seq<Action>) {
    && |states| == |acts| + 1
    && forall i :: 0 <= i < |acts| ==> Enabled(states[i], acts[i]) && states[i + 1] == Next(states[i], acts[i])
  }

  ghost predicate Reachable(s: State) {
    exists states, acts :: Run(states, acts) && states[0] == INITIAL && states[|acts|] == s
  }

  // --- nobody is left sleeping -----------------------------------------------------------------------

  /** A blocked worker whose wait is over has been, or is about to be, notified. */
  ghost predicate NotStranded(s: State) {
    Blocked(s) && WaitOver(s) ==> s.pc.notified || s.toNotify > 0
  }

  lemma {:induction false} NotStrandedThroughout(states: seq<State>, acts: seq<Action>, i: nat)
    requires Run(states, acts) && NotStranded(states[0]) && i <= |acts|
    ensures NotStranded(states[i])
  {
    if i == 0 {
    } else {
      NotStrandedThroughout(states, acts, i - 1);
      assert states[i] == Next(states[i - 1], acts[i - 1]);
    }
  }

  lemma NeverStranded(s: State)
    requires Reachable(s)
    ensures NotStranded(s)
  {
    var states, acts :| Run(states, acts) && states[0] == INITIAL && states[|acts|] == s;
    NotStrandedThroughout(states, acts, |acts|);
  }

  /** A worker in either wait hears of every signal and every stop, and one held by a pause of its end. */
  lemma BlockedHears(s: State)
    requires Reachable(s) && (s.pc.Waiting? || s.pc.Paused?)
    requires s.signal || !s.doRun || (s.pc.Paused? && !s.paused)
    ensures s.pc.notified || s.toNotify > 0
  {
    NeverStranded(s);
  }

  // --- no wake-up is lost ------------------------------------------------------------------------------

  /** The worker is on its way to a fresh start: at the top of its loop, or with the signal up, so
      that no sleep holds it. */
  predicate Hastening(s: State) {
    s.pc.Test? || s.pc.Clear? || s.pc.Enter? || s.signal
  }

  /** How many of its own steps a hastening worker takes up to and including the next start. */
  function Distance(s: State): nat {
    match s.pc
    case Enter => 1
    case Clear => 2
    case Test => 3
    case Body(calls) => 4 + |calls|
    case Paused(rest, _) => 5 + |rest|
    case Waiting(_, rest, _) => 5 + |rest|
    case Done => 0
  }

  /** Each of the worker's steps brings the start nearer, and no other step than a stop puts it off. */
  lemma TowardsStart(s: State, a: Action)
    requires Enabled(s, a) && s.doRun && Hastening(s) && !s.pc.Done? && !a.Stop? && !a.Start?
    ensures var n := Next(s, a);
      && n.doRun && Hastening(n) && !n.pc.Done?
      && Distance(n) + (if WorkerStep(a) then 1 else 0) <= Distance(s)
  {
  }

  /** How many of the actions are the worker's. */
  ghost function WorkerSteps(acts: seq<Action>): nat {
    if acts == [] then 0 else WorkerSteps(acts[..|acts| - 1]) + if WorkerStep(acts[|acts| - 1]) then 1 else 0
  }

  ghost predicate Quiet(acts: seq<Action>, i: nat, j: nat) {
    i <= j <= |acts| && forall k :: i <= k < j ==> !acts[k].Stop? && !acts[k].Start?
  }

  lemma {:induction false} HasteningThroughout(states: seq<State>, acts: seq<Action>, i: nat, j: nat)
    requires Run(states, acts) && Quiet(acts, i, j)
    requires states[i].doRun && Hastening(states[i]) && !states[i].pc.Done?
    ensures states[j].doRun && Hastening(states[j]) && !states[j].pc.Done?
    ensures Distance(states[j]) + WorkerSteps(acts[i..j]) <= Distance(states[i])
    decreases j
  {
    if i == j {
    } else {
      HasteningThroughout(states, acts, i, j - 1);
      TowardsStart(states[j - 1], acts[j - 1]);
      assert acts[i..j][..j - 1 - i] == acts[i..j - 1];
    }
  }

  lemma {:induction false} RunningNotDone(states: seq<State>, acts: seq<Action>, i: nat)
    requires Run(states, acts) && states[0] == INITIAL && i <= |acts|
    ensures states[i].doRun ==> !states[i].pc.Done?
  {
    if i == 0 {
    } else {
      RunningNotDone(states, acts, i - 1);
      assert states[i] == Next(states[i - 1], acts[i - 1]);
    }
  }

  /** After a wake-up of a running thread, as long as there is neither a start nor a stop, the worker
      stays on its way, is not stranded, and takes fewer steps than its distance at the wake-up: so
      once it has taken that many, a start has followed (or a stop). */
  lemma NoWakeUpIsLost(states: seq<State>, acts: seq<Action>, i: nat, j: nat)
    requires Run(states, acts) && states[0] == INITIAL && i < j <= |acts|
    requires acts[i].WakeUp? && states[i].doRun && Quiet(acts, i + 1, j)
    ensures states[j].doRun && Hastening(states[j]) && NotStranded(states[j])
    ensures WorkerSteps(acts[i + 1..j]) < Distance(states[i + 1])
  {
    RunningNotDone(states, acts, i + 1);
    NotStrandedThroughout(states, acts, j);
    assert states[i + 1] == Next(states[i], acts[i]);
    HasteningThroughout(states, acts, i + 1, j);
  }

  /** A worker on its way can always move, after a pending notification if need be. */
  lemma SomebodyCanMove(s: State)
    requires Reachable(s) && s.doRun && Hastening(s)
    ensures exists a: Action :: (WorkerStep(a) && !a.WakeForNoReason? && Enabled(s, a))
                             || (a.Notify? && Enabled(s, a) && Enabled(Next(s, a), Wake))
  {
    NeverStranded(s);
    var states, acts :| Run(states, acts) && states[0] == INITIAL && states[|acts|] == s;
    RunningNotDone(states, acts, |acts|);
    var a := match s.pc
      case Test => TestRun
      case Clear => ClearSignal
      case Enter => Start([])
      case Body(calls) => if calls == [] then Return else CallSleep
      case Paused(_, notified) => if notified then Wake else Notify
      case Waiting(_, _, notified) => if notified then Wake else Notify
      case Done => Notify;
    assert Enabled(s, a);
  }

  /** A signal stays up until the worker clears it or is given a new function. */
  lemma {:induction false} SignalStaysUp(states: seq<State>, acts: seq<Action>, i: nat, j: nat)
    requires Run(states, acts) && i < j <= |acts| && (acts[i].WakeUp? || acts[i].Stop?)
    requires forall k :: i < k < j ==> !acts[k].ClearSignal? && !acts[k].Restart?
    ensures states[j].signal
    decreases j
  {
    assert states[j - 1 + 1] == Next(states[j - 1], acts[j - 1]);
    if j == i + 1 {
    } else {
      SignalStaysUp(states, acts, i, j - 1);
    }
  }

  /** The thread is paused exactly if it was paused after it was last resumed. */
  lemma {:induction false} PausedUntilResumed(states: seq<State>, acts: seq<Action>, i: nat, j: nat)
    requires Run(states, acts) && i < j <= |acts| && (acts[i].Pause? || acts[i].Resume?)
    requires forall k :: i < k < j ==> !acts[k].Pause? && !acts[k].Resume?
    ensures states[j].paused <==> acts[i].Pause?
    decreases j
  {
    assert states[j - 1 + 1] == Next(states[j - 1], acts[j - 1]);
    if j == i + 1 {
    } else {
      PausedUntilResumed(states, acts, i, j - 1);
    }
  }

  // --- a stop ends the worker ---------------------------------------------------------------------------------

  /** How many of its own steps a stopped worker takes up to its end, not counting a function it is about to start. */
  function ToTheEnd(pc: Pc): nat {
    match pc
    case Clear => 4
    case Enter => 3
    case Body(calls) => 2 + |calls|
    case Paused(rest, _) => 3 + |rest|
    case Waiting(_, rest, _) => 3 + |rest|
    case Test => 1
    case Done => 0
  }

  /** No wait holds a stopped worker: each of its steps, but a start, brings its end nearer, nobody's puts it off, and
      it can move, after a pending notification if need be. */
  lemma StoppedWorkerEnds(s: State, a: Action)
    requires Reachable(s) && !s.doRun && Enabled(s, a) && !a.Start? && !a.Restart?
    ensures var n := Next(s, a);
      !n.doRun && ToTheEnd(n.pc) + (if WorkerStep(a) then 1 else 0) <= ToTheEnd(s.pc)
    ensures Blocked(s) ==> WaitOver(s) && (s.pc.notified || s.toNotify > 0)
  {
    NeverStranded(s);
  }

  /** In every run a stop ends the worker: until it is given a new function it does not run, and makes at most one more
      start. */
  lemma StopIsFinal(states: seq<State>, acts: seq<Action>, i: nat, j: nat)
    requires Run(states, acts) && i < j <= |acts| && acts[i].Stop? && forall k :: i < k < j ==> !acts[k].Restart?
    ensures !states[j].doRun && Starts(acts[i + 1..j]) <= 1
  {
    assert states[i + 1] == Next(states[i], acts[i]);
    AtMostOneStartAfterStop(states, acts, i + 1, j);
  }

  /** In every run a thread given a new function starts it within three steps of its worker, unless it is stopped, and
      with the signal down. */
  lemma RestartIsFollowedByAStart(states: seq<State>, acts: seq<Action>, i: nat, j: nat)
    requires Run(states, acts) && i < j <= |acts| && acts[i].Restart? && Quiet(acts, i + 1, j)
    ensures states[j].doRun && !states[j].pc.Done? && WorkerSteps(acts[i + 1..j]) < 3
    ensures !states[i + 1].signal
  {
    assert states[i + 1] == Next(states[i], acts[i]);
    HasteningThroughout(states, acts, i + 1, j);
    NotYetStarted(states, acts, i + 1, j);
  }

  lemma {:induction false} NotYetStarted(states: seq<State>, acts: seq<Action>, i: nat, j: nat)
    requires Run(states, acts) && Quiet(acts, i, j) && states[i].pc.Test? && states[i].doRun
    ensures states[j].doRun && (states[j].pc.Test? || states[j].pc.Clear? || states[j].pc.Enter?)
    decreases j
  {
    if i == j {
    } else {
      NotYetStarted(states, acts, i, j - 1);
      assert Enabled(states[j - 1], acts[j - 1]) && states[j - 1 + 1] == Next(states[j - 1], acts[j - 1]);
    }
  }

  // --- starts after a stop, starts after a pause ----------------------------------------------------------

  ghost function Starts(acts: seq<Action>): nat {
    if acts == [] then 0 else Starts(acts[..|acts| - 1]) + if acts[|acts| - 1].Start? then 1 else 0
  }

  /** After a stop at most one more start happens until the thread is given a new function; none
      unless the worker had already tested the run flag. */
  lemma {:induction false} AtMostOneStartAfterStop(states: seq<State>, acts: seq<Action>, i: nat, j: nat)
    requires Run(states, acts) && i <= j <= |acts| && !states[i].doRun
    requires forall k :: i <= k < j ==> !acts[k].Restart?
    ensures !states[j].doRun
    ensures Starts(acts[i..j]) + (if states[j].pc.Clear? || states[j].pc.Enter? then 1 else 0)
            <= if states[i].pc.Clear? || states[i].pc.Enter? then 1 else 0
    decreases j
  {
    if i == j {
    } else {
      AtMostOneStartAfterStop(states, acts, i, j - 1);
      assert states[j] == Next(states[j - 1], acts[j - 1]);
      assert acts[i..j][..j - 1 - i] == acts[i..j - 1];
    }
  }

  /** The sleeps to go, if any, end in a `sleep_for`. */
  predicate EndsInSleepFor(calls: seq<Call>) {
    calls == [] || calls[|calls| - 1] == SleepFor
  }

  function ToGo(pc: Pc): seq<Call> {
    match pc
    case Body(calls) => calls
    case Paused(rest, _) => rest
    case Waiting(_, rest, _) => rest
    case _ => []
  }

  /** How many more starts a paused worker may make when nobody signals it: none when a `sleep_for`
      is still ahead of it or it waits in a `sleep`, one when not; two when the signal came between its
      clearing and the call. */
  function StartsLeft(s: State): nat {
    match s.pc
    case Test => 1
    case Clear => 1
    case Enter => if s.signal then 2 else 1
    case Body(calls) => if s.signal || calls == [] then 1 else 0
    case Paused(_, _) => if s.signal then 1 else 0
    case Waiting(timed, rest, _) => if s.signal || (timed && rest == []) then 1 else 0
    case Done => 0
  }

  predicate LeavesPausedAlone(a: Action) {
    && !a.WakeUp? && !a.Stop? && !a.Resume? && !a.Restart?
    && (a.Start? ==> a.calls != [] && EndsInSleepFor(a.calls))
  }

  ghost predicate PausedTowardsSleepFor(s: State) {
    s.paused && s.doRun && EndsInSleepFor(ToGo(s.pc))
  }

  lemma PausedStep(s: State, a: Action)
    requires Enabled(s, a) && PausedTowardsSleepFor(s) && LeavesPausedAlone(a)
    ensures PausedTowardsSleepFor(Next(s, a))
    ensures StartsLeft(Next(s, a)) + (if a.Start? then 1 else 0) <= StartsLeft(s)
  {
    if s.pc.Body? && s.pc.calls != [] {
      var rest := s.pc.calls[1..];
      assert rest != [] ==> rest[|rest| - 1] == s.pc.calls[|s.pc.calls| - 1];
    }
  }

  /** While paused and not signalled, a worker whose function ends in `sleep_for` makes no more starts
      than it had left at the pause. */
  lemma {:induction false} FewStartsAfterPause(states: seq<State>, acts: seq<Action>, i: nat, j: nat)
    requires Run(states, acts) && i <= j <= |acts| && PausedTowardsSleepFor(states[i])
    requires forall k :: i <= k < j ==> LeavesPausedAlone(acts[k])
    ensures PausedTowardsSleepFor(states[j])
    ensures Starts(acts[i..j]) + StartsLeft(states[j]) <= StartsLeft(states[i])
    decreases j
  {
    if i == j {
    } else {
      FewStartsAfterPause(states, acts, i, j - 1);
      PausedStep(states[j - 1], acts[j - 1]);
      assert acts[i..j][..j - 1 - i] == acts[i..j - 1];
    }
  }

  /** Hence at most one start after a pause, unless a signal is pending just before the call. */
  lemma AtMostOneStartAfterPause(states: seq<State>, acts: seq<Action>, i: nat, j: nat)
    requires Run(states, acts) && i < j <= |acts| && acts[i].Pause?
    requires states[i].doRun && EndsInSleepFor(ToGo(states[i].pc))
    requires forall k :: i < k < j ==> LeavesPausedAlone(acts[k])
    ensures Starts(acts[i + 1..j]) <= if states[i].pc.Enter? && states[i].signal then 2 else 1
  {
    assert states[i + 1] == Next(states[i], acts[i]);
    FewStartsAfterPause(states, acts, i + 1, j);
  }

  // --- a sleep holds the worker --------------------------------------------------------------------------------

  /** Nobody signals, stops or restarts the thread. */
  ghost predicate Unsignalled(acts: seq<Action>, i: nat, j: nat) {
    i <= j <= |acts| && forall k :: i <= k < j ==> !acts[k].WakeUp? && !acts[k].Stop? && !acts[k].Restart?
  }

  /** The signal is down; a running worker has an untimed sleep before it, or is in one; a stopped one will not get
      to another start. */
  predicate AsleepOrWillBe(s: State) {
    && !s.signal
    && (if s.doRun then
          match s.pc
          case Body(calls) => Sleep in calls
          case Paused(rest, _) => Sleep in rest
          case Waiting(timed, rest, _) => !timed || Sleep in rest
          case _ => false
        else !s.pc.Clear? && !s.pc.Enter?)
  }

  lemma {:induction false} SleepsOn(states: seq<State>, acts: seq<Action>, i: nat, j: nat)
    requires Run(states, acts) && Unsignalled(acts, i, j) && AsleepOrWillBe(states[i])
    ensures AsleepOrWillBe(states[j])
    decreases j
  {
    if i == j {
    } else {
      SleepsOn(states, acts, i, j - 1);
      assert states[j] == Next(states[j - 1], acts[j - 1]);
    }
  }

  /** A signal counts for one round: it is down at a start unless one came since it was cleared. */
  lemma {:induction false} SignalIsConsumed(states: seq<State>, acts: seq<Action>, c: nat, i: nat)
    requires Run(states, acts) && c < i <= |acts| && acts[c].ClearSignal? && Unsignalled(acts, c, i)
    ensures !states[i].signal
    decreases i
  {
    assert states[i - 1 + 1] == Next(states[i - 1], acts[i - 1]);
    if i == c + 1 {
    } else {
      SignalIsConsumed(states, acts, c, i - 1);
    }
  }

  /** In every run: a worker that sleeps without a limit of time is not started again, unless it is signalled, stopped
      or given a new function after it last cleared its signal. */
  lemma SleepHoldsTheWorker(states: seq<State>, acts: seq<Action>, c: nat, i: nat, j: nat)
    requires Run(states, acts) && c < i < j < |acts| && Unsignalled(acts, c, j)
    requires acts[c].ClearSignal? && acts[i].Start? && Sleep in acts[i].calls
    ensures !acts[j].Start?
  {
    SignalIsConsumed(states, acts, c, i);
    assert states[i + 1] == Next(states[i], acts[i]) && Enabled(states[i], acts[i]);
    SleepsOn(states, acts, i + 1, j);
    assert Enabled(states[j], acts[j]);
  }

  ghost function TimeOuts(acts: seq<Action>): nat {
    if acts == [] then 0 else TimeOuts(acts[..|acts| - 1]) + if acts[|acts| - 1].TimeOut? then 1 else 0
  }

  /** The timed sleeps among some calls. */
  ghost function Timed(calls: seq<Call>): nat {
    if calls == [] then 0 else (if calls[0] == SleepFor then 1 else 0) + Timed(calls[1..])
  }

  /** The time-outs a worker has before it in this round. */
  ghost function TimeOutsAhead(pc: Pc): nat {
    match pc
    case Body(calls) => Timed(calls)
    case Paused(rest, _) => 1 + Timed(rest)
    case Waiting(timed, rest, _) => (if timed then 1 else 0) + Timed(rest)
    case _ => 0
  }

  lemma TimeOutsGoDown(s: State, a: Action)
    requires Enabled(s, a) && !s.signal && s.doRun
    requires !a.WakeUp? && !a.Stop? && !a.Restart? && !a.Start?
    ensures var n := Next(s, a);
      && !n.signal && n.doRun
      && TimeOutsAhead(n.pc) + (if a.TimeOut? then 1 else 0) == TimeOutsAhead(s.pc)
  {
  }

  lemma {:induction false} EachTimeOutCounts(states: seq<State>, acts: seq<Action>, i: nat, j: nat)
    requires Run(states, acts) && Unsignalled(acts, i, j) && !states[i].signal && states[i].doRun
    requires forall k :: i <= k < j ==> !acts[k].Start?
    ensures !states[j].signal && states[j].doRun
    ensures TimeOuts(acts[i..j]) + TimeOutsAhead(states[j].pc) == TimeOutsAhead(states[i].pc)
    decreases j
  {
    if i == j {
    } else {
      EachTimeOutCounts(states, acts, i, j - 1);
      assert states[j - 1 + 1] == Next(states[j - 1], acts[j - 1]);
      TimeOutsGoDown(states[j - 1], acts[j - 1]);
      hide Next, Enabled, TimeOutsAhead;
      assert acts[i..j][..j - 1 - i] == acts[i..j - 1];
    }
  }

  /** In every run: between two starts, unless it is signalled, a worker that was not stopped runs into the time-out of
      each of its timed sleeps. */
  lemma TimedSleepsTakeTheirTime(states: seq<State>, acts: seq<Action>, c: nat, i: nat, j: nat)
    requires Run(states, acts) && c < i < j < |acts| && Unsignalled(acts, c, j) && states[i].doRun
    requires acts[c].ClearSignal? && acts[i].Start? && acts[j].Start? && forall k :: i < k < j ==> !acts[k].Start?
    ensures TimeOuts(acts[i + 1..j]) == Timed(acts[i].calls)
  {
    SignalIsConsumed(states, acts, c, i);
    assert states[i + 1] == Next(states[i], acts[i]);
    EachTimeOutCounts(states, acts, i + 1, j);
    assert Enabled(states[j], acts[j]);
  }

  // --- the bounds are attained -----------------------------------------------------------------------------

  ghost predicate PausedRun(states: seq<State>, acts: seq<Action>, s: State, n: nat) {
    && Run(states, acts) && states[0] == s && Starts(acts) == n
    && forall k :: 0 <= k < |acts| ==> LeavesPausedAlone(acts[k])
  }

  /** Left alone from `s` on, the worker may make exactly `n` more starts. */
  ghost predicate MayStart(s: State, n: nat) {
    exists states, acts :: PausedRun(states, acts, s, n)
  }

  lemma {:induction false} StartsPrepend(a: Action, acts: seq<Action>)
    ensures Starts([a] + acts) == Starts(acts) + if a.Start? then 1 else 0
  {
    if acts == [] {
      assert [a] + acts == [a] && [a][..0] == [];
    } else {
      var n := |acts| - 1;
      assert ([a] + acts)[..n + 1] == [a] + acts[..n];
      StartsPrepend(a, acts[..n]);
    }
  }

  lemma StaysPut(s: State)
    ensures MayStart(s, 0)
  {
    assert PausedRun([s], [], s, 0);
  }

  lemma OneStepBefore(s: State, a: Action, n: nat)
    requires Enabled(s, a) && LeavesPausedAlone(a) && MayStart(Next(s, a), n)
    ensures MayStart(s, n + if a.Start? then 1 else 0)
  {
    var states, acts :| PausedRun(states, acts, Next(s, a), n);
    hide Next, Enabled, LeavesPausedAlone;
    StartsPrepend(a, acts);
    assert PausedRun([s] + states, [a] + acts, s, n + if a.Start? then 1 else 0);
  }

  lemma {:induction false} FromBody(s: State)
    requires PausedTowardsSleepFor(s) && s.pc.Body? && (s.signal || s.pc.calls == [])
    ensures MayStart(s, 1)
    decreases |ToGo(s.pc)|
  {
    if s.pc.calls == [] {
      FromTest(Next(s, Return));
      OneStepBefore(s, Return, 1);
    } else {
      PausedStep(s, CallSleep);
      FromBody(Next(s, CallSleep));
      OneStepBefore(s, CallSleep, 1);
    }
  }

  lemma FromTest(s: State)
    requires PausedTowardsSleepFor(s) && s.pc.Test?
    ensures MayStart(s, 1)
  {
    var clear := Next(s, TestRun);
    FromClear(clear);
    OneStepBefore(s, TestRun, 1);
  }

  lemma FromClear(s: State)
    requires PausedTowardsSleepFor(s) && s.pc.Clear?
    ensures MayStart(s, 1)
  {
    var enter := Next(s, ClearSignal);
    StaysPut(Next(enter, Start([SleepFor])));
    OneStepBefore(enter, Start([SleepFor]), 0);
    OneStepBefore(s, ClearSignal, 1);
  }

  /** From every paused state the bound is attained. */
  lemma StartsLeftIsAttained(s: State)
    requires PausedTowardsSleepFor(s)
    ensures MayStart(s, StartsLeft(s))
  {
    match s.pc
    case Test => FromTest(s);
    case Clear => FromClear(s);
    case Enter =>
      var body := Next(s, Start([SleepFor]));
      if s.signal {
        FromBody(body);
      } else {
        StaysPut(body);
      }
      OneStepBefore(s, Start([SleepFor]), if s.signal then 1 else 0);
    case Body(calls) =>
      if s.signal || calls == [] {
        FromBody(s);
      } else {
        StaysPut(s);
      }
    case Paused(_, _) =>
      if s.signal {
        FromBody(Next(s, WakeForNoReason));
        OneStepBefore(s, WakeForNoReason, 1);
      } else {
        StaysPut(s);
      }
    case Waiting(timed, rest, _) =>
      if s.signal {
        FromBody(Next(s, WakeForNoReason));
        OneStepBefore(s, WakeForNoReason, 1);
      } else if timed && rest == [] {
        FromBody(Next(s, TimeOut));
        OneStepBefore(s, TimeOut, 1);
      } else {
        StaysPut(s);
      }
    case Done => StaysPut(s);
  }

  /** Exactly how many starts may follow a pause: as many as are left and no more, two if and only if a signal
      is pending just before the call. */
  lemma StartsAfterPause(s: State)
    requires s.doRun && EndsInSleepFor(ToGo(s.pc))
    ensures var paused := Next(s, Pause);
      && MayStart(paused, StartsLeft(paused)) && (forall n: nat :: MayStart(paused, n) ==> n <= StartsLeft(paused))
      && (MayStart(paused, 2) <==> s.pc.Enter? && s.signal)
  {
    var paused := Next(s, Pause);
    StartsLeftIsAttained(paused);
    forall n: nat | MayStart(paused, n) ensures n <= StartsLeft(paused) {
      var states, acts :| PausedRun(states, acts, paused, n);
      FewStartsAfterPause(states, acts, 0, |acts|);
      assert acts[0..|acts|] == acts;
    }
  }

  /** A thread woken between the clearing of its signal and the call, and then paused, may start twice. */
  lemma TwoStartsHappen() returns (s: State)
    ensures Reachable(s) && s.doRun && EndsInSleepFor(ToGo(s.pc)) && MayStart(Next(s, Pause), 2)
  {
    var acts := [TestRun, ClearSignal, WakeUp];
    var clear := Next(INITIAL, TestRun);
    var enter := Next(clear, ClearSignal);
    s := Next(enter, WakeUp);
    assert Run([INITIAL, clear, enter, s], acts);
    StartsAfterPause(s);
  }
}
