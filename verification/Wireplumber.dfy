/** The connection of the WirePlumber module: loading two API modules and
    activating two plugins asynchronously, across disconnects, reconnects and
    destruction.

    WirePlumber cannot withdraw a callback, so callbacks of torn-down
    connections still fire. Each carries the generation of the connection it was
    scheduled under and does nothing unless the module is alive and still at
    that generation.
 */
module Wireplumber {

  /** An asynchronous call in flight, with the generation it was scheduled under. */
  datatype Call = LoadDefaultNodes(gen: nat) | LoadMixer(gen: nat) | Activate(gen: nat, plugin: nat)

  /** How far the current connection has come; history, not a field of the program. */
  datatype Stage = LoadingNodes | LoadingMixer | Activating(succeeded: nat, failed: nat) | Stalled

  /** `core` stands for the core and object manager, which live and die together; `apis` is the number
      of plugins collected; `inFlight` and `installs` are what was asked of the library: pending calls
      (a set, because no call is ever scheduled that is already in flight), and the generations whose
      object manager was installed. */
  datatype State = State(
    alive: bool, generation: nat, core: bool, apis: nat, pending: int, timer: bool,
    inFlight: set<Call>, installs: seq<nat>, stage: Stage)

  datatype Event = Disconnected | ReconnectTimeout(connects: bool) | Completed(call: Call, ok: bool) | Destroy

  // --- the steps -------------------------------------------------------------------------------------

  function Setup(s: State, connects: bool): State {
    s.(generation := s.generation + 1, core := true, apis := 0, pending := 0,
       inFlight := if connects then s.inFlight + {LoadDefaultNodes(s.generation + 1)} else s.inFlight,
       stage := if connects then LoadingNodes else Stalled)
  }

  function Teardown(s: State): State {
    s.(core := false, apis := 0, pending := 0)
  }

  /** The state right after a successful construction. */
  const INITIAL: State := Setup(State(true, 0, false, 0, 0, false, {}, [], Stalled), true)

  /** A callback goes on only for a live module still at the callback's generation. */
  predicate Guard(s: State, call: Call) {
    s.alive && call.gen == s.generation
  }

  predicate Enabled(s: State, e: Event) {
    match e
    case Disconnected => s.alive && s.core
    case ReconnectTimeout(_) => s.timer
    case Completed(call, _) => call in s.inFlight
    case Destroy => s.alive
  }

  function Next(s: State, e: Event): State
    requires Enabled(s, e)
  {
    match e
    case Disconnected => s.(timer := true)
    case ReconnectTimeout(connects) =>
      var n := Setup(Teardown(s), connects);
      if connects then n.(timer := false) else Teardown(n)
    case Completed(call, ok) =>
      var n := s.(inFlight := s.inFlight - {call});
      if Guard(s, call) then OnCompleted(n, call, ok) else n
    case Destroy => Teardown(s.(alive := false, timer := false))
  }

  function OnCompleted(s: State, call: Call, ok: bool): State {
    match call
    case LoadDefaultNodes(g) =>
      if ok then s.(apis := s.apis + 1, inFlight := s.inFlight + {LoadMixer(g)}, stage := LoadingMixer)
      else s.(stage := Stalled)
    case LoadMixer(_) =>
      if ok then s.(apis := s.apis + 1, stage := Activating(0, 0), pending := s.pending + s.apis + 1,
                    inFlight := s.inFlight + Activations(s.generation, s.apis + 1))
      else s.(stage := Stalled)
    case Activate(_, _) =>
      var stage := if !s.stage.Activating? then s.stage
                   else if ok then s.stage.(succeeded := s.stage.succeeded + 1)
                   else s.stage.(failed := s.stage.failed + 1);
      if !ok then s.(stage := stage)
      else s.(pending := s.pending - 1, stage := stage,
              installs := if s.pending - 1 == 0 then s.installs + [s.generation] else s.installs)
  }

  /** One activation for each of the first `n` plugins. */
  function Activations(g: nat, n: nat): set<Call> {
    if n == 0 then {} else Activations(g, n - 1) + {Activate(g, n - 1)}
  }

  // --- the module ---------------------------------------------------------------------------------------

  class Wireplumber {
    var alive: bool
    var generation: nat
    var core: bool
    var apis: nat
    var pending: int
    var timer: bool
    var inFlight: set<Call>
    var installs: seq<nat>
    ghost var stage: Stage

    ghost function View(): State
      reads this
    {
      State(alive, generation, core, apis, pending, timer, inFlight, installs, stage)
    }

    /** The constructor of the program throws when the first connection cannot be initiated. */
    constructor ()
      ensures View() == INITIAL
    {
      alive, generation, timer, installs := true, 0, false, [];
      core, apis, pending, inFlight, stage := false, 0, 0, {}, Stalled;
      new;
      var ok := SetupConnection(true);
    }

    method SetupConnection(connects: bool) returns (ok: bool)
      modifies this
      ensures View() == Setup(old(View()), connects) && ok == connects
    {
      generation := generation + 1;
      core := true;
      apis := 0;
      pending := 0;
      stage := Stalled;
      if !connects {
        return false;
      }
      inFlight := inFlight + {LoadDefaultNodes(generation)};
      stage := LoadingNodes;
      return true;
    }

    method TeardownConnection()
      modifies this
      ensures View() == Teardown(old(View()))
    {
      apis := 0;
      core := false;
      pending := 0;
    }

    method OnCoreDisconnected()
      requires Enabled(View(), Disconnected)
      modifies this
      ensures View() == Next(old(View()), Disconnected)
    {
      if !timer {
        timer := true;
      }
    }

    /** Runs on the timer, which is dropped when this returns false. */
    method OnReconnectTimeout(connects: bool) returns (again: bool)
      requires Enabled(View(), ReconnectTimeout(connects))
      modifies this
      ensures View() == Next(old(View()), ReconnectTimeout(connects)) && again == !connects
    {
      TeardownConnection();
      var ok := SetupConnection(connects);
      if ok {
        timer := false;
        return false;
      }
      TeardownConnection();
      return true;
    }

    method OnDefaultNodesApiLoaded(call: Call, ok: bool)
      requires call.LoadDefaultNodes? && Enabled(View(), Completed(call, ok))
      modifies this
      ensures View() == Next(old(View()), Completed(call, ok))
    {
      inFlight := inFlight - {call};
      if !alive || call.gen != generation {
        return;
      }
      if !ok {
        stage := Stalled;
        return;
      }
      apis := apis + 1;
      inFlight := inFlight + {LoadMixer(call.gen)};
      stage := LoadingMixer;
    }

    method OnMixerApiLoaded(call: Call, ok: bool)
      requires call.LoadMixer? && Enabled(View(), Completed(call, ok))
      modifies this
      ensures View() == Next(old(View()), Completed(call, ok))
    {
      inFlight := inFlight - {call};
      if !alive || call.gen != generation {
        return;
      }
      if !ok {
        stage := Stalled;
        return;
      }
      apis := apis + 1;
      stage := Activating(0, 0);
      ActivatePlugins();
    }

    method ActivatePlugins()
      modifies this`pending, this`inFlight
      ensures pending == old(pending) + apis
      ensures inFlight == old(inFlight) + Activations(generation, apis)
    {
      for i := 0 to apis
        invariant pending == old(pending) + i
        invariant inFlight == old(inFlight) + Activations(generation, i)
      {
        pending := pending + 1;
        inFlight := inFlight + {Activate(generation, i)};
      }
    }

    method OnPluginActivated(call: Call, ok: bool)
      requires call.Activate? && Enabled(View(), Completed(call, ok))
      modifies this
      ensures View() == Next(old(View()), Completed(call, ok))
    {
      inFlight := inFlight - {call};
      if !alive || call.gen != generation {
        return;
      }
      if !ok {
        stage := if stage.Activating? then stage.(failed := stage.failed + 1) else stage;
        return;
      }
      stage := if stage.Activating? then stage.(succeeded := stage.succeeded + 1) else stage;
      pending := pending - 1;
      if pending == 0 {
        installs := installs + [generation];
      }
    }

    method Destructor()
      requires Enabled(View(), Destroy)
      modifies this
      ensures View() == Next(old(View()), Destroy)
    {
      alive := false;
      timer := false;
      TeardownConnection();
    }
  }

  // --- what every run keeps --------------------------------------------------------------------------------

  ghost predicate Run(states: seq<State>, events: seq<Event>) {
    && |states| == |events| + 1
    && states[0] == INITIAL
    && forall i :: 0 <= i < |events| ==> Enabled(states[i], events[i]) && states[i + 1] == Next(states[i], events[i])
  }

  function Count(s: State, c: Call): nat {
    if c in s.inFlight then 1 else 0
  }

  /** The activations of the current generation still unfinished. */
  function Unfinished(s: State): nat {
    Count(s, Activate(s.generation, 0)) + Count(s, Activate(s.generation, 1))
  }

  /** The calls in flight of the current generation are those its stage says. */
  ghost predicate CallsOfStage(s: State) {
    forall c :: c in s.inFlight ==>
      && c.gen <= s.generation
      && (c.gen == s.generation ==>
            match c
            case LoadDefaultNodes(_) => s.stage.LoadingNodes?
            case LoadMixer(_) => s.stage.LoadingMixer?
            case Activate(_, i) => s.stage.Activating? && i < 2)
  }

  ghost predicate Sound(s: State) {
    && CallsOfStage(s)
    && (!s.core ==> s.stage.Stalled? && s.timer)
    && s.apis <= 2
    && (s.stage.LoadingNodes? ==> LoadDefaultNodes(s.generation) in s.inFlight)
    && (s.stage.LoadingMixer? ==> LoadMixer(s.generation) in s.inFlight)
    && (s.stage.LoadingNodes? ==> s.apis == 0)
    && (s.stage.LoadingMixer? ==> s.apis == 1)
    && (match s.stage
        case Activating(succeeded, failed) =>
          s.pending == Unfinished(s) + failed && Unfinished(s) + failed + succeeded == 2
        case _ => s.pending == 0)
    && (forall i :: 0 <= i < |s.installs| ==> s.installs[i] <= s.generation)
    && (s.generation in s.installs <==> s.stage.Activating? && s.stage.succeeded == 2)
  }

  ghost predicate InstalledOnce(installs: seq<nat>) {
    forall i, j :: 0 <= i < j < |installs| ==> installs[i] < installs[j]
  }

  /** While the module lives it is sound; its installations are of distinct, growing generations. */
  ghost predicate Inv(s: State) {
    InstalledOnce(s.installs) && (s.timer ==> s.alive) && (s.alive ==> Sound(s))
  }

  lemma ReconnectKeeps(s: State, connects: bool)
    requires s.alive && s.timer && Inv(s)
    ensures Inv(Next(s, ReconnectTimeout(connects)))
    ensures LoadDefaultNodes(s.generation + 1) !in s.inFlight
  {
  }

  lemma TwoActivations(g: nat)
    ensures Activations(g, 2) == {Activate(g, 0), Activate(g, 1)}
  {
    assert Activations(g, 1) == {Activate(g, 0)};
  }

  lemma LoadKeeps(s: State, call: Call, ok: bool)
    requires !call.Activate? && call in s.inFlight && Inv(s)
    ensures Inv(Next(s, Completed(call, ok)))
    ensures Guard(s, call) && ok ==>
      s.inFlight !! if call.LoadMixer? then Activations(call.gen, 2) else {LoadMixer(call.gen)}
  {
    TwoActivations(call.gen);
  }

  lemma ActivationKeeps(s: State, call: Call, ok: bool)
    requires call.Activate? && call in s.inFlight && Inv(s)
    ensures Inv(Next(s, Completed(call, ok)))
  {
    var n := Next(s, Completed(call, ok));
    if Guard(s, call) && ok {
      assert forall i :: 0 <= i < |s.installs| ==> s.installs[i] < s.generation;
    }
  }

  lemma StepKeeps(s: State, e: Event)
    requires Enabled(s, e) && Inv(s)
    ensures Inv(Next(s, e))
  {
    match e
    case Disconnected =>
    case ReconnectTimeout(connects) => ReconnectKeeps(s, connects);
    case Completed(call, ok) =>
      if call.Activate? {
        ActivationKeeps(s, call, ok);
      } else {
        LoadKeeps(s, call, ok);
      }
    case Destroy =>
  }

  lemma {:induction false} RunKeeps(states: seq<State>, events: seq<Event>, i: nat)
    requires Run(states, events) && i <= |events|
    ensures Inv(states[i])
  {
    if i == 0 {
    } else {
      RunKeeps(states, events, i - 1);
      StepKeeps(states[i - 1], events[i - 1]);
    }
  }

  /** In every run: a callback that passes the guard finds a live core; the plugin count is that of the
      unfinished and failed activations of this connection, so a callback about to lower it finds it
      positive; a module without a core has its reconnect timer armed. */
  lemma CallbacksAreSafe(states: seq<State>, events: seq<Event>, i: nat, call: Call)
    requires Run(states, events) && i <= |events|
    ensures var s := states[i];
      && (call in s.inFlight && Guard(s, call) ==> s.core)
      && (call in s.inFlight && Guard(s, call) && call.Activate? ==> s.pending > 0)
      && (s.alive && s.stage.Activating? ==> s.pending == Unfinished(s) + s.stage.failed)
      && (s.alive ==> 0 <= s.pending <= 2 && (s.core || s.timer))
  {
    RunKeeps(states, events, i);
  }

  /** The object manager is installed at most once per generation, and only by the step in which the
      second of its two plugins succeeds. */
  lemma InstalledAfterBoth(states: seq<State>, events: seq<Event>, i: nat)
    requires Run(states, events) && i < |events|
    ensures InstalledOnce(states[i + 1].installs)
    ensures states[i + 1].installs != states[i].installs ==>
      && states[i + 1].installs == states[i].installs + [states[i].generation]
      && events[i].Completed? && events[i].ok && events[i].call.Activate? && Guard(states[i], events[i].call)
      && states[i + 1].stage == Activating(2, 0)
  {
    RunKeeps(states, events, i);
    RunKeeps(states, events, i + 1);
    assert states[i + 1] == Next(states[i], events[i]);
  }

  /** In every run a reconnect is pending only if a disconnect was noticed before. */
  lemma {:induction false} ReconnectHasACause(states: seq<State>, events: seq<Event>, j: nat)
    requires Run(states, events) && j <= |events| && states[j].timer
    ensures exists i :: 0 <= i < j && events[i].Disconnected?
    decreases j
  {
    if j == 0 {
    } else {
      assert states[j - 1 + 1] == Next(states[j - 1], events[j - 1]);
      if states[j - 1].timer {
        ReconnectHasACause(states, events, j - 1);
      } else {
        assert events[j - 1].Disconnected?;
      }
    }
  }

  /** In every run a callback that fails, or is not of this connection, changes nothing of the connection. */
  lemma FailuresChangeNothing(states: seq<State>, events: seq<Event>, i: nat)
    requires Run(states, events) && i < |events| && events[i].Completed?
    requires !events[i].ok || !states[i].alive || events[i].call.gen != states[i].generation
    ensures var s, n := states[i], states[i + 1];
      n == s.(inFlight := s.inFlight - {events[i].call}, stage := n.stage)
  {
  }

  /** In every run a disconnect is answered: from then on a reconnect is pending, until one succeeds or the module is
      destroyed. */
  lemma {:induction false} ReconnectStaysPending(states: seq<State>, events: seq<Event>, i: nat, j: nat)
    requires Run(states, events) && i < j <= |events| && events[i].Disconnected?
    requires forall k :: i < k < j ==> !events[k].Destroy? && events[k] != ReconnectTimeout(true)
    ensures states[j].alive && states[j].timer
    decreases j
  {
    assert states[j - 1 + 1] == Next(states[j - 1], events[j - 1]);
    if j == i + 1 {
      assert Enabled(states[i], events[i]);
    } else {
      ReconnectStaysPending(states, events, i, j - 1);
    }
  }

  /** A reconnect that succeeds starts from nothing, under a generation no earlier callback has; one that fails leaves
      no connection and stays pending. */
  lemma ReconnectStartsAfresh(states: seq<State>, events: seq<Event>, i: nat)
    requires Run(states, events) && i < |events| && events[i].ReconnectTimeout?
    ensures var s, n := states[i], states[i + 1];
      && n.generation == s.generation + 1 && n.apis == 0 && n.pending == 0 && n.installs == s.installs
      && (forall c :: c in s.inFlight ==> c.gen < n.generation)
      && if events[i].connects then
           && n.core && !n.timer && n.inFlight == s.inFlight + {LoadDefaultNodes(n.generation)}
         else !n.core && n.timer && n.inFlight == s.inFlight
  {
    RunKeeps(states, events, i);
    assert Enabled(states[i], events[i]) && states[i + 1] == Next(states[i], events[i]);
  }

  /** After its destruction a module holds no connection and no timer, and no callback does anything. */
  lemma {:induction false} DestroyedStaysDead(states: seq<State>, events: seq<Event>, i: nat, j: nat)
    requires Run(states, events) && i < j <= |events| && events[i].Destroy?
    ensures var n := states[j];
      !n.alive && !n.timer && !n.core && n.apis == 0 && n.pending == 0 && n.installs == states[i].installs
    decreases j
  {
    assert states[j - 1 + 1] == Next(states[j - 1], events[j - 1]);
    if j == i + 1 {
    } else {
      DestroyedStaysDead(states, events, i, j - 1);
      assert Enabled(states[j - 1], events[j - 1]);
    }
  }

  // --- nothing stalls silently -----------------------------------------------------------------------------

  /** The successful completions between this state and the installation. */
  function Remaining(s: State): nat {
    match s.stage
    case LoadingNodes => 4
    case LoadingMixer => 3
    case Activating(_, _) => Unfinished(s)
    case Stalled => 0
  }

  /** No load and no activation of this connection has failed. */
  predicate Unfailed(s: State) {
    s.alive && !s.stage.Stalled? && (s.stage.Activating? ==> s.stage.failed == 0)
  }

  ghost predicate Succeeds(s: State, e: Event) {
    e.Completed? && e.ok && Enabled(s, e) && Guard(s, e.call)
  }

  /** As long as nothing failed, either the object manager is installed or a call is in flight whose success
      brings the installation nearer. */
  lemma NeverStallsSilently(s: State) returns (call: Call)
    requires Inv(s) && Unfailed(s)
    ensures Remaining(s) == 0 <==> s.generation in s.installs
    ensures Remaining(s) > 0 ==> Succeeds(s, Completed(call, true))
  {
    var g := s.generation;
    call := if s.stage.LoadingNodes? then LoadDefaultNodes(g)
            else if s.stage.LoadingMixer? then LoadMixer(g)
            else if Activate(g, 0) in s.inFlight then Activate(g, 0)
            else Activate(g, 1);
  }

  lemma SuccessMovesOn(s: State, call: Call)
    requires Inv(s) && Unfailed(s) && Succeeds(s, Completed(call, true))
    ensures var n := Next(s, Completed(call, true));
      Unfailed(n) && n.generation == s.generation && Remaining(n) == Remaining(s) - 1
  {
    TwoActivations(s.generation);
  }

  /** Neither ends nor replaces the connection, nor fails a call of it: the notice of a disconnect, a success, and any
      callback of an earlier connection. */
  predicate Undisturbing(s: State, e: Event) {
    e.Disconnected? || (e.Completed? && (Guard(s, e.call) ==> e.ok))
  }

  /** Callbacks of another generation, or of a destroyed module, change nothing but their own being in flight. */
  lemma StaleCallbacksAreInert(s: State, call: Call, ok: bool)
    requires call in s.inFlight && !Guard(s, call)
    ensures Next(s, Completed(call, ok)) == s.(inFlight := s.inFlight - {call})
  {
  }

  lemma OthersLeaveRemaining(s: State, e: Event)
    requires Unfailed(s) && Enabled(s, e) && Undisturbing(s, e) && !Succeeds(s, e)
    ensures var n := Next(s, e);
      Unfailed(n) && n.generation == s.generation && Remaining(n) == Remaining(s)
  {
    if e.Completed? {
      StaleCallbacksAreInert(s, e.call, e.ok);
    }
  }

  /** How many of the steps from `i` to `j` are successes of calls of their connection. */
  ghost function Successes(states: seq<State>, events: seq<Event>, i: nat, j: nat): nat
    requires i <= j <= |events| < |states|
    decreases j
  {
    if i == j then 0 else Successes(states, events, i, j - 1) + if Succeeds(states[j - 1], events[j - 1]) then 1 else 0
  }

  /** In every run, from any state in which nothing has failed, and whatever disconnects are noticed and callbacks of
      earlier connections come in between: each success of this connection's calls, in whatever order they come,
      leaves one less, and the object manager is installed if and only if all that remained have come. */
  lemma {:induction false} SuccessesInstall(states: seq<State>, events: seq<Event>, i: nat, j: nat)
    requires Run(states, events) && i <= j <= |events| && Unfailed(states[i])
    requires forall k :: i <= k < j ==> Undisturbing(states[k], events[k])
    ensures Unfailed(states[j]) && states[j].generation == states[i].generation
    ensures Remaining(states[j]) == Remaining(states[i]) - Successes(states, events, i, j)
    ensures Successes(states, events, i, j) == Remaining(states[i]) <==> states[j].generation in states[j].installs
    decreases j
  {
    hide Inv, Next, Enabled, Guard, Unfailed, Remaining, Undisturbing;
    if i == j {
    } else {
      SuccessesInstall(states, events, i, j - 1);
      RunKeeps(states, events, j - 1);
      assert states[j - 1 + 1] == Next(states[j - 1], events[j - 1]);
      if Succeeds(states[j - 1], events[j - 1]) {
        SuccessMovesOn(states[j - 1], events[j - 1].call);
      } else {
        OthersLeaveRemaining(states[j - 1], events[j - 1]);
      }
    }
    RunKeeps(states, events, j);
    var call := NeverStallsSilently(states[j]);
  }
}
