/** The thread-safe signal: producers on other threads queue events under a
    mutex, oldest dropped first when a limit is set, and wake the main thread,
    which pops and delivers them one by one, unlocked while it delivers.

    The protocol is a transition system over critical sections. Between pushing
    an event and waking the main thread a producer is still to announce it.
 */
module SafeSignal {

  /** What the main thread is doing about this signal. */
  datatype Handler<E> = Idle | AtLock | Handling(e: E)

  /** What became of an emitted event that has left the queue. */
  datatype Fate = Dropped | BeingHandled | Delivered

  /** `emitted`, `fate` and `log` are history: what was pushed, what became of the oldest of it, and
      what the callback was called with. */
  datatype State<E> = State(
    queue: seq<E>, maxQueued: nat, toAnnounce: nat, dispatches: nat, handler: Handler<E>,
    emitted: seq<E>, fate: seq<Fate>, log: seq<E>)

  datatype Action<E> = Push(e: E) | SetMax(n: nat) | Announce | Dispatch | Pop | Finish

  const DEFAULT_MAX := 4096

  function Initial<E>(): State<E> {
    State([], DEFAULT_MAX, 0, 0, Idle, [], [], [])
  }

  // --- the queue -----------------------------------------------------------------------------------

  /** How many of the oldest events a push drops: one, when the limit is reached. */
  function DropsOnPush(queued: nat, maxQueued: nat): nat {
    if maxQueued != 0 && queued >= maxQueued && queued > 0 then 1 else 0
  }

  /** How many a new limit drops: all above it. */
  function DropsOnTrim(queued: nat, maxQueued: nat): nat {
    if maxQueued != 0 && queued > maxQueued then queued - maxQueued else 0
  }

  class Queue<E> {
    var queue: seq<E>
    var maxQueued: nat

    constructor ()
      ensures queue == [] && maxQueued == DEFAULT_MAX
    {
      queue, maxQueued := [], DEFAULT_MAX;
    }

    /** The critical section of an emission from another thread. */
    method EmitLocked(e: E)
      modifies this`queue
      ensures queue == old(queue)[DropsOnPush(|old(queue)|, maxQueued)..] + [e]
    {
      if maxQueued != 0 && |queue| >= maxQueued {
        queue := queue[1..];
      }
      queue := queue + [e];
    }

    method TrimQueueLocked()
      modifies this`queue
      ensures queue == old(queue)[DropsOnTrim(|old(queue)|, maxQueued)..]
    {
      if maxQueued == 0 {
        return;
      }
      ghost var k := 0;
      while |queue| > maxQueued
        invariant 0 <= k <= DropsOnTrim(|old(queue)|, maxQueued)
        invariant queue == old(queue)[k..]
        decreases |queue|
      {
        queue := queue[1..];
        k := k + 1;
      }
    }

    method SetMaxQueuedEvents(n: nat)
      modifies this
      ensures maxQueued == n && queue == old(queue)[DropsOnTrim(|old(queue)|, n)..]
    {
      maxQueued := n;
      TrimQueueLocked();
    }

    /** One turn of the handler's loop, under the lock: the event to deliver. */
    method PopLocked() returns (e: E)
      requires queue != []
      modifies this`queue
      ensures [e] + queue == old(queue)
    {
      e := queue[0];
      queue := queue[1..];
    }
  }

  // --- the steps -------------------------------------------------------------------------------------

  predicate Enabled<E>(s: State<E>, a: Action<E>) {
    match a
    case Announce => s.toAnnounce > 0
    case Dispatch => s.dispatches > 0 && s.handler.Idle?
    case Pop => s.handler.AtLock?
    case Finish => s.handler.Handling?
    case _ => true
  }

  function Drop<E>(s: State<E>, k: nat): State<E>
    requires k <= |s.queue|
  {
    s.(queue := s.queue[k..], fate := s.fate + seq(k, _ => Dropped))
  }

  function Next<E(==)>(s: State<E>, a: Action<E>): State<E>
    requires Enabled(s, a)
  {
    match a
    case Push(e) =>
      var d := Drop(s, DropsOnPush(|s.queue|, s.maxQueued));
      d.(queue := d.queue + [e], emitted := d.emitted + [e], toAnnounce := d.toAnnounce + 1)
    case SetMax(n) => Drop(s, DropsOnTrim(|s.queue|, n)).(maxQueued := n)
    case Announce => s.(toAnnounce := s.toAnnounce - 1, dispatches := s.dispatches + 1)
    case Dispatch => s.(dispatches := s.dispatches - 1, handler := AtLock)
    case Pop =>
      if s.queue == [] then s.(handler := Idle)
      else s.(queue := s.queue[1..], handler := Handling(s.queue[0]),
              fate := s.fate + [BeingHandled], log := s.log + [s.queue[0]])
    case Finish => s.(handler := AtLock, fate := Concluded(s.fate))
  }

  function Concluded(fate: seq<Fate>): seq<Fate> {
    seq(|fate|, i requires 0 <= i < |fate| => if fate[i].BeingHandled? then Delivered else fate[i])
  }

  ghost predicate Run<E(!new)>(states: seq<State<E>>, acts: seq<Action<E>>) {
    && |states| == |acts| + 1
    && states[0] == Initial()
    && forall i :: 0 <= i < |acts| ==> Enabled(states[i], acts[i]) && states[i + 1] == Next(states[i], acts[i])
  }

  // --- what every run keeps ---------------------------------------------------------------------------

  /** The events that were not dropped, in the order they were emitted. */
  ghost function Survivors<E>(emitted: seq<E>, fate: seq<Fate>): seq<E>
    requires |fate| <= |emitted|
  {
    if fate == [] then []
    else
      var n := |fate| - 1;
      Survivors(emitted, fate[..n]) + if fate[n].Dropped? then [] else [emitted[n]]
  }

  /** At most one event is being handled, it is the handler's, and only drops came after it. */
  ghost predicate HandledAt<E>(s: State<E>, i: nat) {
    && i < |s.fate| <= |s.emitted|
    && s.handler == Handling(s.emitted[i])
    && forall k :: 0 <= k < |s.fate| ==>
         (k < i ==> !s.fate[k].BeingHandled?) && (k == i ==> s.fate[k].BeingHandled?) && (k > i ==> s.fate[k].Dropped?)
  }

  ghost predicate Accounted<E>(s: State<E>) {
    // every event emitted is in the queue or has one fate, and the queue holds the youngest
    && |s.fate| + |s.queue| == |s.emitted|
    && s.queue == s.emitted[|s.fate|..]
    // deliveries are the events not dropped, in order
    && s.log == Survivors(s.emitted, s.fate)
    && (if s.handler.Handling? then exists i :: HandledAt(s, i)
        else forall k :: 0 <= k < |s.fate| ==> !s.fate[k].BeingHandled?)
  }

  /** A non-zero limit is kept, and what is queued will be noticed. */
  ghost predicate Bounded<E>(s: State<E>) {
    && (s.maxQueued != 0 ==> |s.queue| <= s.maxQueued)
    && (s.queue != [] ==> s.toAnnounce > 0 || s.dispatches > 0 || !s.handler.Idle?)
  }

  lemma SurvivorsMore<E>(emitted: seq<E>, more: seq<E>, fate: seq<Fate>)
    requires |fate| <= |emitted|
    ensures Survivors(emitted + more, fate) == Survivors(emitted, fate)
    decreases |fate|
  {
    if fate != [] {
      SurvivorsMore(emitted, more, fate[..|fate| - 1]);
    }
  }

  lemma {:induction false} SurvivorsDropped<E>(emitted: seq<E>, fate: seq<Fate>, k: nat)
    requires |fate| + k <= |emitted|
    ensures Survivors(emitted, fate + seq(k, _ => Dropped)) == Survivors(emitted, fate)
    decreases k
  {
    var longer := fate + seq(k, _ => Dropped);
    if k > 0 {
      assert longer[..|longer| - 1] == fate + seq(k - 1, _ => Dropped);
      SurvivorsDropped(emitted, fate, k - 1);
    } else {
      assert longer == fate;
    }
  }

  lemma {:induction false} SurvivorsConcluded<E>(emitted: seq<E>, fate: seq<Fate>)
    requires |fate| <= |emitted|
    ensures Survivors(emitted, Concluded(fate)) == Survivors(emitted, fate)
    decreases |fate|
  {
    if fate == [] {
    } else {
      SurvivorsConcluded(emitted, fate[..|fate| - 1]);
      assert Concluded(fate)[..|fate| - 1] == Concluded(fate[..|fate| - 1]);
    }
  }

  lemma DropKeeps<E>(s: State<E>, k: nat)
    requires Accounted(s) && k <= |s.queue|
    ensures Accounted(Drop(s, k))
  {
    var d := Drop(s, k);
    SurvivorsDropped(s.emitted, s.fate, k);
    if s.handler.Handling? {
      var i :| HandledAt(s, i);
      assert HandledAt(d, i);
    }
  }

  lemma PushKeeps<E>(s: State<E>, e: E)
    requires Accounted(s)
    ensures Accounted(s.(queue := s.queue + [e], emitted := s.emitted + [e], toAnnounce := s.toAnnounce + 1))
  {
    var n := s.(queue := s.queue + [e], emitted := s.emitted + [e], toAnnounce := s.toAnnounce + 1);
    SurvivorsMore(s.emitted, [e], s.fate);
    if s.handler.Handling? {
      var i :| HandledAt(s, i);
      assert HandledAt(n, i);
    }
  }

  lemma StepKeeps<E>(s: State<E>, a: Action<E>)
    requires Enabled(s, a) && Accounted(s) && Bounded(s)
    ensures Accounted(Next(s, a)) && Bounded(Next(s, a))
  {
    var n := Next(s, a);
    match a
    case Push(e) =>
      DropKeeps(s, DropsOnPush(|s.queue|, s.maxQueued));
      PushKeeps(Drop(s, DropsOnPush(|s.queue|, s.maxQueued)), e);
    case SetMax(limit) =>
      var d := Drop(s, DropsOnTrim(|s.queue|, limit));
      DropKeeps(s, DropsOnTrim(|s.queue|, limit));
      if d.handler.Handling? {
        var i :| HandledAt(d, i);
        assert HandledAt(n, i);
      }
    case Pop =>
      if s.queue != [] {
        assert n.fate[..|s.fate|] == s.fate;
        assert HandledAt(n, |s.fate|);
      }
    case Finish =>
      SurvivorsConcluded(s.emitted, s.fate);
    case Announce =>
      if s.handler.Handling? {
        var i :| HandledAt(s, i);
        assert HandledAt(n, i);
      }
    case Dispatch =>
  }

  /** In every run each event is queued, being handled, delivered or dropped, deliveries keep the order
      of emission, drops take the oldest, the limit holds and nothing queued goes unnoticed. */
  lemma {:induction false} RunKeeps<E(!new)>(states: seq<State<E>>, acts: seq<Action<E>>, i: nat)
    requires Run(states, acts) && i <= |acts|
    ensures Accounted(states[i]) && Bounded(states[i])
  {
    if i == 0 {
    } else {
      RunKeeps(states, acts, i - 1);
      StepKeeps(states[i - 1], acts[i - 1]);
    }
  }

  /** A step only adds to the history: what was dropped or delivered stays so. */
  lemma FateIsFinal<E>(s: State<E>, a: Action<E>, i: nat)
    requires Enabled(s, a) && Accounted(s) && i < |s.fate|
    ensures var n := Next(s, a);
      && s.emitted <= n.emitted && s.log <= n.log && i < |n.fate|
      && (!s.fate[i].BeingHandled? ==> n.fate[i] == s.fate[i])
      && (s.fate[i].BeingHandled? ==> n.fate[i] == if a.Finish? then Delivered else BeingHandled)
  {
  }

  /** Drops happen only at a limit: a run that never reaches one delivers, or still queues, exactly what was emitted. */
  lemma {:induction false} UnlimitedDropsNothing<E(!new)>(states: seq<State<E>>, acts: seq<Action<E>>, i: nat)
    requires Run(states, acts) && i <= |acts|
    requires forall k :: 0 <= k < i ==> !(acts[k].Push? && DropsOnPush(|states[k].queue|, states[k].maxQueued) > 0)
    requires forall k :: 0 <= k < i && acts[k].SetMax? ==> DropsOnTrim(|states[k].queue|, acts[k].n) == 0
    ensures forall k :: 0 <= k < |states[i].fate| ==> !states[i].fate[k].Dropped?
    ensures states[i].log + states[i].queue == states[i].emitted
  {
    if i == 0 {
    } else {
      UnlimitedDropsNothing(states, acts, i - 1);
      assert states[i] == Next(states[i - 1], acts[i - 1]);
    }
  }

  /** The youngest `n` events, or all if there are fewer. */
  ghost function Youngest<E>(events: seq<E>, n: nat): seq<E> {
    if |events| <= n then events else events[|events| - n..]
  }

  lemma StepKeepsTheYoungest<E>(s: State<E>, a: Action<E>)
    requires Enabled(s, a) && Bounded(s) && (a.Push? || a.SetMax?)
    ensures var all := s.queue + if a.Push? then [a.e] else [];
      var limit := if a.SetMax? then a.n else s.maxQueued;
      && Next(s, a).maxQueued == limit
      && Next(s, a).queue == if limit == 0 then all else Youngest(all, limit)
  {
  }

  /** In every run an emission leaves in the queue the youngest of what was there and the new event, as many as the
      limit allows, and a new limit the youngest it allows; without a limit nothing is dropped. */
  lemma QueueKeepsTheYoungest<E(!new)>(states: seq<State<E>>, acts: seq<Action<E>>, i: nat)
    requires Run(states, acts) && i < |acts| && (acts[i].Push? || acts[i].SetMax?)
    ensures var all := states[i].queue + if acts[i].Push? then [acts[i].e] else [];
      var limit := if acts[i].SetMax? then acts[i].n else states[i].maxQueued;
      && states[i + 1].maxQueued == limit
      && states[i + 1].queue == if limit == 0 then all else Youngest(all, limit)
  {
    hide Accounted, Bounded, Next, Youngest, Enabled;
    RunKeeps(states, acts, i);
    StepKeepsTheYoungest(states[i], acts[i]);
  }

  /** In a run without another limit the queue holds at most 4096 events. */
  lemma {:induction false} DefaultLimit<E(!new)>(states: seq<State<E>>, acts: seq<Action<E>>, i: nat)
    requires Run(states, acts) && i <= |acts| && forall k :: 0 <= k < i ==> !acts[k].SetMax?
    ensures states[i].maxQueued == 4096 && |states[i].queue| <= 4096
  {
    RunKeeps(states, acts, i);
    if i == 0 {
    } else {
      DefaultLimit(states, acts, i - 1);
      assert states[i - 1 + 1] == Next(states[i - 1], acts[i - 1]);
    }
  }

  // --- everything queued gets delivered ------------------------------------------------------------------

  /** An upper bound on the steps left when nothing new is emitted. */
  function Work<E>(s: State<E>): nat {
    4 * |s.queue| + 3 * s.toAnnounce + 2 * s.dispatches
    + match s.handler case Idle => 0 case AtLock => 1 case Handling(_) => 2
  }

  predicate Settling<E>(a: Action<E>) {
    !a.Push? && !a.SetMax?
  }

  lemma WorkGoesDown<E>(s: State<E>, a: Action<E>)
    requires Enabled(s, a) && Settling(a)
    ensures Work(Next(s, a)) < Work(s)
  {
  }

  lemma {:induction false} SettlesWithinWork<E(!new)>(states: seq<State<E>>, acts: seq<Action<E>>, i: nat, j: nat)
    requires Run(states, acts) && i <= j <= |acts|
    requires forall k :: i <= k < j ==> Settling(acts[k])
    ensures j - i + Work(states[j]) <= Work(states[i])
    decreases j
  {
    if i == j {
    } else {
      SettlesWithinWork(states, acts, i, j - 1);
      WorkGoesDown(states[j - 1], acts[j - 1]);
    }
  }

  /** When no such step is possible any more, every event has been delivered or dropped. */
  lemma SettledIsDelivered<E(!new)>(states: seq<State<E>>, acts: seq<Action<E>>, i: nat)
    requires Run(states, acts) && i <= |acts|
    requires forall a: Action<E> :: Settling(a) ==> !Enabled(states[i], a)
    ensures states[i].queue == [] && |states[i].fate| == |states[i].emitted|
    ensures forall k :: 0 <= k < |states[i].fate| ==> !states[i].fate[k].BeingHandled?
    ensures states[i].log == Survivors(states[i].emitted, states[i].fate)
  {
    RunKeeps(states, acts, i);
    var s := states[i];
    assert !Enabled(s, Announce) && !Enabled(s, Dispatch) && !Enabled(s, Pop) && !Enabled(s, Finish);
  }
}
