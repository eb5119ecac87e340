/** Outputs and bars of the client: monitors appear, report that their
    description is complete (any number of times), get their bars in a batch
    that runs from the idle queue, and disappear.

    The program keeps outputs in a list and refers to them by address; here an
    output has an identity of its own, drawn afresh.
 */
module Client {

  /** `detecting` is whether the xdg_output object still exists. */
  datatype Output = Output(id: nat, monitor: nat, detecting: bool)
  /** `batch` numbers the batch that made the bar; history. */
  datatype Bar = Bar(output: nat, batch: nat)

  /** `idle` counts createBarsBatch callbacks in the idle queue; `nextId`, `batches` and `entered` (every
      output ever put in the pending list) are history. */
  datatype State = State(
    running: bool, outputs: seq<Output>, pending: seq<nat>, bars: seq<Bar>, scheduled: bool,
    idle: nat, nextId: nat, batches: nat, entered: seq<nat>)

  /** `Batch` says how many bars each pending output gets: as many as its configurations, or fewer when
      making one throws. `Quit` ends a run of the application, `Bind` starts the next one. */
  datatype Event = MonitorAdded(monitor: nat) | Done(id: nat) | Batch(made: nat -> nat) | Removed(monitor: nat)
                 | Quit | Bind(monitors: seq<nat>)

  const INITIAL := State(false, [], [], [], false, 0, 0, 0, [])

  // --- the steps --------------------------------------------------------------------------------------

  predicate Listed(outputs: seq<Output>, id: nat) {
    exists o :: o in outputs && o.id == id
  }

  /** Keeps the pending outputs that are still listed. */
  function StillListed(outputs: seq<Output>, pending: seq<nat>): (r: seq<nat>)
    ensures forall id :: id in r <==> id in pending && Listed(outputs, id)
  {
    if pending == [] then []
    else (if Listed(outputs, pending[0]) then [pending[0]] else []) + StillListed(outputs, pending[1..])
  }

  /** The bars made for the given outputs in one batch. */
  function MakeBars(ids: seq<nat>, made: nat -> nat, batch: nat): (r: seq<Bar>)
    ensures forall b :: b in r ==> b.output in ids && b.batch == batch
  {
    if ids == [] then [] else seq(made(ids[0]), _ => Bar(ids[0], batch)) + MakeBars(ids[1..], made, batch)
  }

  lemma NextBars(ids: seq<nat>, made: nat -> nat, batch: nat, i: nat, bars: seq<Bar>)
    requires i < |ids|
    ensures bars + MakeBars(ids[i..], made, batch)
         == bars + seq(made(ids[i]), _ => Bar(ids[i], batch)) + MakeBars(ids[i + 1..], made, batch)
  {
    var rest := ids[i..];
    assert rest[0] == ids[i] && rest[1..] == ids[i + 1..];
    assert MakeBars(rest, made, batch)
        == seq(made(ids[i]), _ => Bar(ids[i], batch)) + MakeBars(ids[i + 1..], made, batch);
    hide MakeBars;
  }

  predicate OnMonitor(outputs: seq<Output>, id: nat, monitor: nat) {
    exists o :: o in outputs && o.id == id && o.monitor == monitor
  }

  function BarsElsewhere(outputs: seq<Output>, bars: seq<Bar>, monitor: nat): seq<Bar> {
    if bars == [] then []
    else
      (if OnMonitor(outputs, bars[0].output, monitor) then [] else [bars[0]])
      + BarsElsewhere(outputs, bars[1..], monitor)
  }

  lemma {:induction false} BarsElsewhereMembers(outputs: seq<Output>, bars: seq<Bar>, monitor: nat)
    ensures forall b :: b in BarsElsewhere(outputs, bars, monitor) <==>
                          b in bars && !OnMonitor(outputs, b.output, monitor)
    decreases |bars|
  {
    if bars == [] {
    } else {
      BarsElsewhereMembers(outputs, bars[1..], monitor);
    }
  }

  function OutputsElsewhere(outputs: seq<Output>, monitor: nat): (r: seq<Output>)
    ensures forall o :: o in r <==> o in outputs && o.monitor != monitor
  {
    if outputs == [] then []
    else (if outputs[0].monitor == monitor then [] else [outputs[0]]) + OutputsElsewhere(outputs[1..], monitor)
  }

  /** Deletes the xdg_output of `id`. */
  function Detected(outputs: seq<Output>, id: nat): (r: seq<Output>)
    ensures |r| == |outputs|
    ensures forall i :: 0 <= i < |r| ==>
      r[i] == if outputs[i].id == id then outputs[i].(detecting := false) else outputs[i]
  {
    seq(|outputs|, i requires 0 <= i < |outputs| =>
      if outputs[i].id == id then outputs[i].(detecting := false) else outputs[i])
  }

  predicate Detecting(outputs: seq<Output>, id: nat) {
    exists o :: o in outputs && o.id == id && o.detecting
  }

  function Added(s: State, monitor: nat): State {
    s.(outputs := s.outputs + [Output(s.nextId, monitor, true)], nextId := s.nextId + 1)
  }

  function AddedAll(s: State, monitors: seq<nat>): State
    decreases |monitors|
  {
    if monitors == [] then s else AddedAll(Added(s, monitors[0]), monitors[1..])
  }

  predicate Enabled(s: State, e: Event) {
    match e
    case Batch(_) => s.running && s.idle > 0
    case Removed(_) => s.running
    case Quit => s.running
    case Bind(_) => !s.running
    case _ => true
  }

  function Next(s: State, e: Event): State
    requires Enabled(s, e)
  {
    match e
    case MonitorAdded(monitor) => Added(s, monitor)
    case Done(id) =>
      if !Detecting(s.outputs, id) then s
      else s.(outputs := Detected(s.outputs, id), pending := s.pending + [id], entered := s.entered + [id],
              scheduled := true, idle := if s.scheduled then s.idle else s.idle + 1)
    case Batch(made) =>
      s.(bars := s.bars + MakeBars(StillListed(s.outputs, s.pending), made, s.batches),
         pending := [], scheduled := false, idle := s.idle - 1, batches := s.batches + 1)
    case Removed(monitor) =>
      s.(bars := BarsElsewhere(s.outputs, s.bars, monitor), outputs := OutputsElsewhere(s.outputs, monitor))
    case Quit => s.(running := false, bars := [])
    case Bind(monitors) =>
      AddedAll(s.(running := true, outputs := [], pending := [], scheduled := false), monitors)
  }

  // --- the client ------------------------------------------------------------------------------------------

  class Client {
    var running: bool
    var outputs: seq<Output>
    var pending: seq<nat>
    var bars: seq<Bar>
    var scheduled: bool
    var idle: nat
    var nextId: nat
    var batches: nat
    ghost var entered: seq<nat>

    ghost function View(): State
      reads this
    {
      State(running, outputs, pending, bars, scheduled, idle, nextId, batches, entered)
    }

    constructor ()
      ensures View() == INITIAL
    {
      running, outputs, pending, bars, scheduled, idle, nextId := false, [], [], [], false, 0, 0;
      batches, entered := 0, [];
    }

    method HandleMonitorAdded(monitor: nat)
      modifies this`outputs, this`nextId
      ensures View() == Next(old(View()), MonitorAdded(monitor))
    {
      outputs := outputs + [Output(nextId, monitor, true)];
      nextId := nextId + 1;
    }

    /** An address that is not in the list is only reported. */
    method HandleOutputDone(id: nat)
      modifies this
      ensures View() == Next(old(View()), Done(id))
    {
      if Detecting(outputs, id) {
        outputs := Detected(outputs, id);
        pending := pending + [id];
        entered := entered + [id];
        if !scheduled {
          scheduled := true;
          idle := idle + 1;
        }
      }
    }

    method CreateBarsBatch(made: nat -> nat)
      requires Enabled(View(), Batch(made))
      modifies this
      ensures View() == Next(old(View()), Batch(made))
    {
      idle := idle - 1;
      pending := StillListed(outputs, pending);
      var more := NewBars(pending, made, batches);
      bars := bars + more;
      pending := [];
      scheduled := false;
      batches := batches + 1;
    }

    static method NewBars(ids: seq<nat>, made: nat -> nat, batch: nat) returns (bars: seq<Bar>)
      ensures bars == MakeBars(ids, made, batch)
    {
      bars := [];
      for i := 0 to |ids|
        invariant bars + MakeBars(ids[i..], made, batch) == MakeBars(ids, made, batch)
      {
        hide MakeBars;
        NextBars(ids, made, batch, i, bars);
        bars := bars + seq(made(ids[i]), _ => Bar(ids[i], batch));
      }
    }

    method HandleDeferredMonitorRemoval(monitor: nat)
      requires Enabled(View(), Removed(monitor))
      modifies this`bars, this`outputs
      ensures View() == Next(old(View()), Removed(monitor))
    {
      var left := EraseBars(outputs, bars, monitor);
      bars := left;
      outputs := OutputsElsewhere(outputs, monitor);
    }

    /** Erases in place the bars of a monitor's outputs. */
    static method EraseBars(outputs: seq<Output>, bars0: seq<Bar>, monitor: nat) returns (bars: seq<Bar>)
      ensures bars == BarsElsewhere(outputs, bars0, monitor)
    {
      bars := bars0;
      var it := 0;
      ghost var kept, rest := [], bars0;
      while it < |bars|
        invariant it == |kept| && bars == kept + rest
        invariant kept + BarsElsewhere(outputs, rest, monitor) == BarsElsewhere(outputs, bars0, monitor)
        decreases |rest|
      {
        if OnMonitor(outputs, bars[it].output, monitor) {
          bars := bars[..it] + bars[it + 1..];
        } else {
          kept := kept + [bars[it]];
          it := it + 1;
        }
        rest := rest[1..];
      }
    }

    /** The end of a run of the application, after its main loop. */
    method QuitMain()
      requires Enabled(View(), Quit)
      modifies this`running, this`bars
      ensures View() == Next(old(View()), Quit)
    {
      running := false;
      bars := [];
    }

    /** The next run starts from no outputs and no pending batch; callbacks still queued stay queued. */
    method BindInterfaces(monitors: seq<nat>)
      requires Enabled(View(), Bind(monitors))
      modifies this
      ensures View() == Next(old(View()), Bind(monitors))
    {
      running := true;
      outputs := [];
      pending := [];
      scheduled := false;
      ghost var all := AddedAll(View(), monitors);
      for i := 0 to |monitors|
        invariant AddedAll(View(), monitors[i..]) == all
      {
        assert monitors[i..][0] == monitors[i] && monitors[i..][1..] == monitors[i + 1..];
        HandleMonitorAdded(monitors[i]);
      }
    }
  }

  // --- what every run keeps -----------------------------------------------------------------------------------

  ghost predicate Run(states: seq<State>, events: seq<Event>) {
    && |states| == |events| + 1
    && states[0] == INITIAL
    && forall i :: 0 <= i < |events| ==> Enabled(states[i], events[i]) && states[i + 1] == Next(states[i], events[i])
  }

  ghost predicate NoRepeats(ids: seq<nat>) {
    forall i, j :: 0 <= i < j < |ids| ==> ids[i] != ids[j]
  }

  ghost predicate IsSuffix(part: seq<nat>, whole: seq<nat>) {
    |part| <= |whole| && part == whole[|whole| - |part|..]
  }

  ghost predicate OutputsSound(s: State) {
    && (forall o :: o in s.outputs ==> o.id < s.nextId)
    && (forall o, p :: o in s.outputs && p in s.outputs && o.id == p.id ==> o == p)
    && (forall o :: o in s.outputs && o.detecting ==> o.id !in s.entered)
  }

  ghost predicate PendingSound(s: State) {
    && NoRepeats(s.entered)
    && (forall id :: id in s.entered ==> id < s.nextId)
    && IsSuffix(s.pending, s.entered)
    && (s.pending != [] ==> s.scheduled)
    && (s.scheduled ==> s.idle > 0)
  }

  ghost predicate BarsSound(s: State) {
    && (!s.running ==> s.bars == [])
    && (forall b :: b in s.bars ==>
          Listed(s.outputs, b.output) && b.output in s.entered && b.output !in s.pending && b.batch < s.batches)
    && (forall b, c :: b in s.bars && c in s.bars && b.output == c.output ==> b.batch == c.batch)
  }

  ghost predicate Inv(s: State) {
    OutputsSound(s) && PendingSound(s) && BarsSound(s)
  }

  lemma AddedKeeps(s: State, monitor: nat)
    requires Inv(s)
    ensures Inv(Added(s, monitor))
  {
    var n := Added(s, monitor);
    forall b | b in s.bars ensures Listed(n.outputs, b.output) {
      var o :| o in s.outputs && o.id == b.output;
      assert o in n.outputs;
    }
  }

  lemma {:induction false} AddedAllKeeps(s: State, monitors: seq<nat>)
    requires Inv(s)
    ensures Inv(AddedAll(s, monitors))
    decreases |monitors|
  {
    if monitors == [] {
    } else {
      AddedKeeps(s, monitors[0]);
      AddedAllKeeps(Added(s, monitors[0]), monitors[1..]);
    }
  }

  lemma DetectedMembers(outputs: seq<Output>, id: nat)
    ensures forall o :: o in Detected(outputs, id) ==>
      exists p :: p in outputs && p.id == o.id && o == if p.id == id then p.(detecting := false) else p
    ensures forall x :: Listed(outputs, x) ==> Listed(Detected(outputs, id), x)
  {
    var r := Detected(outputs, id);
    forall o | o in r
      ensures exists p :: p in outputs && p.id == o.id && o == if p.id == id then p.(detecting := false) else p
    {
      var i :| 0 <= i < |r| && r[i] == o;
      assert outputs[i] in outputs;
    }
    forall x | Listed(outputs, x) ensures Listed(r, x) {
      var o :| o in outputs && o.id == x;
      var i :| 0 <= i < |outputs| && outputs[i] == o;
      assert r[i] in r && r[i].id == x;
    }
  }

  lemma EntersOnce(entered: seq<nat>, pending: seq<nat>, id: nat)
    requires NoRepeats(entered) && IsSuffix(pending, entered) && id !in entered
    ensures NoRepeats(entered + [id]) && IsSuffix(pending + [id], entered + [id])
  {
    var both := entered + [id];
    assert both[|both| - |pending| - 1..] == entered[|entered| - |pending|..] + [id];
  }

  lemma DoneKeepsPending(s: State, id: nat)
    requires PendingSound(s) && OutputsSound(s) && Detecting(s.outputs, id)
    ensures PendingSound(Next(s, Done(id)))
  {
    assert id !in s.entered && id < s.nextId;
    EntersOnce(s.entered, s.pending, id);
    hide Detected, NoRepeats, IsSuffix, OutputsSound, Detecting;
  }

  lemma DoneKeepsOutputs(s: State, id: nat)
    requires OutputsSound(s)
    ensures OutputsSound(s.(outputs := Detected(s.outputs, id), entered := s.entered + [id]))
  {
    DetectedMembers(s.outputs, id);
    hide Detected;
  }

  lemma DoneKeepsBars(s: State, id: nat)
    requires Inv(s) && Detecting(s.outputs, id)
    ensures BarsSound(s.(outputs := Detected(s.outputs, id), pending := s.pending + [id], entered := s.entered + [id]))
  {
    DetectedMembers(s.outputs, id);
    hide Detected, PendingSound;
  }

  lemma DoneKeeps(s: State, id: nat)
    requires Inv(s)
    ensures Inv(Next(s, Done(id)))
  {
    if Detecting(s.outputs, id) {
      DoneKeepsPending(s, id);
      DoneKeepsOutputs(s, id);
      DoneKeepsBars(s, id);
      OnlyOutputsMatter(s, id);
    }
    hide OutputsSound, PendingSound, BarsSound, Detected, Detecting;
  }

  lemma OnlyOutputsMatter(s: State, id: nat)
    requires Detecting(s.outputs, id)
    ensures var d := s.(outputs := Detected(s.outputs, id), entered := s.entered + [id]);
      var n := Next(s, Done(id));
      (OutputsSound(d) ==> OutputsSound(n)) && (BarsSound(d.(pending := s.pending + [id])) ==> BarsSound(n))
  {
    hide Detected;
  }

  lemma RemovedKeeps(s: State, monitor: nat)
    requires Inv(s)
    ensures Inv(s.(bars := BarsElsewhere(s.outputs, s.bars, monitor), outputs := OutputsElsewhere(s.outputs, monitor)))
  {
    BarsElsewhereMembers(s.outputs, s.bars, monitor);
    forall b | b in BarsElsewhere(s.outputs, s.bars, monitor)
      ensures Listed(OutputsElsewhere(s.outputs, monitor), b.output)
    {
      var o :| o in s.outputs && o.id == b.output;
      assert o in OutputsElsewhere(s.outputs, monitor);
    }
  }

  lemma StepKeeps(s: State, e: Event)
    requires Enabled(s, e) && Inv(s)
    ensures Inv(Next(s, e))
  {
    match e
    case MonitorAdded(monitor) => AddedKeeps(s, monitor);
    case Done(id) => DoneKeeps(s, id);
    case Batch(made) =>
    case Removed(monitor) => RemovedKeeps(s, monitor);
    case Quit =>
    case Bind(monitors) =>
      AddedAllKeeps(s.(running := true, outputs := [], pending := [], scheduled := false), monitors);
  }

  lemma {:induction false} RunKeeps(states: seq<State>, events: seq<Event>, i: nat)
    requires Run(states, events) && i <= |events|
    ensures Inv(states[i])
  {
    if i == 0 {
    } else {
      RunKeeps(states, events, i - 1);
      StepKeeps(states[i - 1], events[i - 1]);
    }
  }

  /** In every run: each bar refers to a listed output, all bars of an output come from one batch, no
      output enters the pending list twice, and what is pending has a batch queued. */
  lemma BarsAndBatches(states: seq<State>, events: seq<Event>, i: nat)
    requires Run(states, events) && i <= |events|
    ensures var s := states[i];
      && (forall b :: b in s.bars ==> Listed(s.outputs, b.output))
      && (forall b, c :: b in s.bars && c in s.bars && b.output == c.output ==> b.batch == c.batch)
      && NoRepeats(s.entered)
      && (s.pending != [] ==> s.scheduled && s.idle > 0)
  {
    RunKeeps(states, events, i);
  }

  /** In every run an output whose done event found it detecting stays pending until the next batch, whatever comes in
      between but the start of another run of the application. */
  lemma {:induction false} PendingUntilBatch(states: seq<State>, events: seq<Event>, i: nat, j: nat, id: nat)
    requires Run(states, events) && i < j <= |events| && events[i] == Done(id) && Detecting(states[i].outputs, id)
    requires forall k :: i < k < j ==> !events[k].Batch? && !events[k].Bind?
    ensures id in states[j].pending
    decreases j
  {
    assert states[j - 1 + 1] == Next(states[j - 1], events[j - 1]);
    if j == i + 1 {
    } else {
      PendingUntilBatch(states, events, i, j - 1, id);
    }
  }

  /** So, if it is still listed then, it gets in that batch exactly the bars it is configured to have. */
  lemma DoneOutputGetsItsBars(states: seq<State>, events: seq<Event>, i: nat, j: nat, id: nat)
    requires Run(states, events) && i < j < |events| && events[i] == Done(id) && Detecting(states[i].outputs, id)
    requires forall k :: i < k < j ==> !events[k].Batch? && !events[k].Bind?
    requires events[j].Batch? && Listed(states[j].outputs, id)
    ensures BarsOf(states[j + 1].bars, id) == events[j].made(id)
  {
    PendingUntilBatch(states, events, i, j, id);
    BatchMakesBarsOnce(states, events, j, id);
  }

  // --- the life of an output --------------------------------------------------------------------------------

  /** A new monitor is listed as an output of its own, its detection under way, and none before it changes. */
  lemma NewOutputIsListed(states: seq<State>, events: seq<Event>, i: nat)
    requires Run(states, events) && i < |events| && events[i].MonitorAdded?
    ensures var s, n := states[i], states[i + 1];
      && !Listed(s.outputs, s.nextId) && s.nextId !in s.entered
      && n.outputs == s.outputs + [Output(s.nextId, events[i].monitor, true)]
      && n.pending == s.pending && n.bars == s.bars
  {
    RunKeeps(states, events, i);
    assert states[i + 1] == Next(states[i], events[i]);
  }

  lemma {:induction false} AllAreAdded(s: State, monitors: seq<nat>)
    ensures var n := AddedAll(s, monitors);
      && |n.outputs| == |s.outputs| + |monitors| && s.outputs <= n.outputs
      && (forall k :: |s.outputs| <= k < |n.outputs| ==>
            n.outputs[k] == Output(s.nextId + (k - |s.outputs|), monitors[k - |s.outputs|], true))
      && n == s.(outputs := n.outputs, nextId := s.nextId + |monitors|)
    decreases |monitors|
  {
    if monitors == [] {
    } else {
      AllAreAdded(Added(s, monitors[0]), monitors[1..]);
    }
  }

  /** A new run of the application has one output for each monitor present, in order, all still to be detected, and
      nothing of the earlier run but callbacks still queued. */
  lemma RunStartsWithItsMonitors(states: seq<State>, events: seq<Event>, i: nat)
    requires Run(states, events) && i < |events| && events[i].Bind?
    ensures var monitors, n := events[i].monitors, states[i + 1];
      && |n.outputs| == |monitors|
      && (forall k :: 0 <= k < |monitors| ==> n.outputs[k] == Output(states[i].nextId + k, monitors[k], true))
      && n.pending == [] && !n.scheduled && n.bars == [] && n.idle == states[i].idle
  {
    RunKeeps(states, events, i);
    assert Enabled(states[i], events[i]) && states[i + 1] == Next(states[i], events[i]);
    AllAreAdded(states[i].(running := true, outputs := [], pending := [], scheduled := false), events[i].monitors);
    hide AddedAll;
  }

  lemma DetectingStays(s: State, e: Event, o: Output)
    requires OutputsSound(s) && Enabled(s, e) && o in s.outputs && o.detecting
    requires !e.Bind? && e != Done(o.id) && e != Removed(o.monitor)
    ensures o in Next(s, e).outputs
  {
    var k :| 0 <= k < |s.outputs| && s.outputs[k] == o;
    if e.Done? && Detecting(s.outputs, e.id) {
      assert Detected(s.outputs, e.id)[k] == o;
    }
  }

  /** In every run an output stays listed and is detected until its first done event, the removal of its monitor, or the
      start of another run of the application. */
  lemma {:induction false} DetectingUntilDone(states: seq<State>, events: seq<Event>, i: nat, j: nat, o: Output)
    requires Run(states, events) && i <= j <= |events| && o in states[i].outputs && o.detecting
    requires forall k :: i <= k < j ==> !events[k].Bind? && events[k] != Done(o.id) && events[k] != Removed(o.monitor)
    ensures o in states[j].outputs && Detecting(states[j].outputs, o.id)
    decreases j
  {
    if i == j {
      hide Run;
    } else {
      hide *;
      DetectingUntilDone(states, events, i, j - 1, o);
      DetectingStepsOn(states, events, j - 1, o);
    }
  }

  lemma DetectingStepsOn(states: seq<State>, events: seq<Event>, i: nat, o: Output)
    requires Run(states, events) && i < |events| && o in states[i].outputs && o.detecting
    requires !events[i].Bind? && events[i] != Done(o.id) && events[i] != Removed(o.monitor)
    ensures o in states[i + 1].outputs && Detecting(states[i + 1].outputs, o.id)
  {
    RunKeeps(states, events, i);
    DetectingStays(states[i], events[i], o);
    hide Next, Enabled, OutputsSound, PendingSound, BarsSound;
  }

  /** In every run the removal of a monitor takes its outputs, and all bars on these, and nothing else. */
  lemma RemovalIsExact(states: seq<State>, events: seq<Event>, i: nat, o: Output, id: nat)
    requires Run(states, events) && i < |events| && events[i].Removed?
    ensures o in states[i + 1].outputs <==> o in states[i].outputs && o.monitor != events[i].monitor
    ensures BarsOf(states[i + 1].bars, id)
         == if exists p :: p in states[i].outputs && p.id == id && p.monitor == events[i].monitor then 0
            else BarsOf(states[i].bars, id)
    ensures states[i + 1].pending == states[i].pending && states[i + 1].idle == states[i].idle
  {
    assert states[i + 1] == Next(states[i], events[i]);
    RemainingBars(states[i].outputs, states[i].bars, events[i].monitor, id);
  }

  lemma {:induction false} RemainingBars(outputs: seq<Output>, bars: seq<Bar>, monitor: nat, id: nat)
    ensures BarsOf(BarsElsewhere(outputs, bars, monitor), id)
         == if OnMonitor(outputs, id, monitor) then 0 else BarsOf(bars, id)
    decreases |bars|
  {
    if bars == [] {
    } else {
      hide OnMonitor;
      RemainingBars(outputs, bars[1..], monitor, id);
      assert bars == [bars[0]] + bars[1..];
      BarsOfAppend([bars[0]], bars[1..], id);
      BarsOfAppend([bars[0]], BarsElsewhere(outputs, bars[1..], monitor), id);
      assert BarsOf([bars[0]], id) == if bars[0].output == id then 1 else 0 by {
        assert [bars[0]][..0] == [];
      }
      assert [] + BarsElsewhere(outputs, bars[1..], monitor) == BarsElsewhere(outputs, bars[1..], monitor);
    }
  }

  /** The end of a run of the application destroys the bars and keeps all else. */
  lemma QuitDestroysBars(states: seq<State>, events: seq<Event>, i: nat)
    requires Run(states, events) && i < |events| && events[i].Quit?
    ensures var s, n := states[i], states[i + 1];
      && n.bars == [] && n.outputs == s.outputs && n.pending == s.pending
      && n.scheduled == s.scheduled && n.idle == s.idle
  {
    assert states[i + 1] == Next(states[i], events[i]);
  }

  /** Within a run of the application that starts with no callback queued, there is never more than one batch in the
      idle queue, and one exactly if it is scheduled. */
  lemma {:induction false} OneBatchAtATime(states: seq<State>, events: seq<Event>, i: nat, j: nat)
    requires Run(states, events) && i <= j <= |events| && states[i].idle == (if states[i].scheduled then 1 else 0)
    requires forall k :: i <= k < j ==> !events[k].Bind?
    ensures states[j].idle == if states[j].scheduled then 1 else 0
    decreases j
  {
    if i == j {
    } else {
      OneBatchAtATime(states, events, i, j - 1);
      assert Enabled(states[j - 1], events[j - 1]) && states[j - 1 + 1] == Next(states[j - 1], events[j - 1]);
    }
  }

  /** How many bars an output has. */
  function BarsOf(bars: seq<Bar>, id: nat): nat {
    if bars == [] then 0 else BarsOf(bars[..|bars| - 1], id) + if bars[|bars| - 1].output == id then 1 else 0
  }

  lemma {:induction false} BarsOfAppend(a: seq<Bar>, b: seq<Bar>, id: nat)
    ensures BarsOf(a + b, id) == BarsOf(a, id) + BarsOf(b, id)
    decreases |b|
  {
    if b == [] {
      assert a + b == a;
    } else {
      assert (a + b)[..|a + b| - 1] == a + b[..|b| - 1];
      BarsOfAppend(a, b[..|b| - 1], id);
    }
  }

  lemma {:induction false} BarsOfOne(n: nat, output: nat, batch: nat, id: nat)
    ensures BarsOf(seq(n, _ => Bar(output, batch)), id) == if output == id then n else 0
  {
    if n == 0 {
    } else {
      var bars := seq(n, _ => Bar(output, batch));
      assert bars[..n - 1] == seq(n - 1, _ => Bar(output, batch));
      BarsOfOne(n - 1, output, batch, id);
    }
  }

  lemma {:induction false} NoBars(bars: seq<Bar>, id: nat)
    requires forall b :: b in bars ==> b.output != id
    ensures BarsOf(bars, id) == 0
  {
    if bars == [] {
    } else {
      NoBars(bars[..|bars| - 1], id);
    }
  }

  lemma {:induction false} MadeBars(ids: seq<nat>, made: nat -> nat, batch: nat, id: nat)
    requires NoRepeats(ids)
    ensures BarsOf(MakeBars(ids, made, batch), id) == if id in ids then made(id) else 0
  {
    if ids == [] {
    } else {
      var rest := ids[1..];
      assert forall i :: 0 <= i < |rest| ==> rest[i] == ids[i + 1];
      MadeBars(rest, made, batch, id);
      BarsOfOne(made(ids[0]), ids[0], batch, id);
      BarsOfAppend(seq(made(ids[0]), _ => Bar(ids[0], batch)), MakeBars(rest, made, batch), id);
    }
  }

  lemma {:induction false} StillListedOnce(outputs: seq<Output>, pending: seq<nat>)
    requires NoRepeats(pending)
    ensures NoRepeats(StillListed(outputs, pending))
  {
    if pending == [] {
    } else {
      var rest := pending[1..];
      assert forall i :: 0 <= i < |rest| ==> rest[i] == pending[i + 1];
      StillListedOnce(outputs, rest);
      assert pending[0] !in StillListed(outputs, rest);
    }
  }

  /** In every run a batch makes for each pending output that is still listed exactly the bars it is configured to
      have, and these are all it has; it makes none for any other. */
  lemma BatchMakesBarsOnce(states: seq<State>, events: seq<Event>, i: nat, id: nat)
    requires Run(states, events) && i < |events| && events[i].Batch?
    ensures BarsOf(states[i + 1].bars, id)
         == if id in states[i].pending && Listed(states[i].outputs, id) then events[i].made(id)
            else BarsOf(states[i].bars, id)
  {
    RunKeeps(states, events, i);
    var s, made := states[i], events[i].made;
    assert states[i + 1] == Next(s, events[i]);
    var ids := StillListed(s.outputs, s.pending);
    assert NoRepeats(s.pending) by {
      var from := |s.entered| - |s.pending|;
      assert forall k :: 0 <= k < |s.pending| ==> s.pending[k] == s.entered[k + from];
    }
    StillListedOnce(s.outputs, s.pending);
    MadeBars(ids, made, s.batches, id);
    BarsOfAppend(s.bars, MakeBars(ids, made, s.batches), id);
    if id in ids {
      NoBars(s.bars, id);
    }
  }

  lemma {:induction false} EnteredStays(states: seq<State>, events: seq<Event>, i: nat, j: nat, id: nat)
    requires Run(states, events) && i <= j <= |events| && id in states[i].entered
    ensures id in states[j].entered
    decreases j
  {
    if i == j {
    } else {
      EnteredStays(states, events, i, j - 1, id);
      assert states[j] == Next(states[j - 1], events[j - 1]);
      if events[j - 1].Bind? {
        AddedAllEnters(states[j - 1].(running := true, outputs := [], pending := [], scheduled := false),
            events[j - 1].monitors);
      }
    }
  }

  lemma {:induction false} AddedAllEnters(s: State, monitors: seq<nat>)
    ensures AddedAll(s, monitors).entered == s.entered && AddedAll(s, monitors).pending == s.pending
    decreases |monitors|
  {
    if monitors == [] {
    } else {
      AddedAllEnters(Added(s, monitors[0]), monitors[1..]);
    }
  }

  /** However many done events arrive for an output, only the first one that finds it detecting makes it
      pending: every later one, in any run, leaves the client as it is. */
  lemma LaterDoneIsIgnored(states: seq<State>, events: seq<Event>, i: nat, j: nat, id: nat)
    requires Run(states, events) && i < j < |events|
    requires events[i] == Done(id) && events[j] == Done(id) && Detecting(states[i].outputs, id)
    ensures states[j + 1] == states[j]
  {
    assert states[i + 1] == Next(states[i], events[i]) && id in states[i + 1].entered;
    EnteredStays(states, events, i + 1, j, id);
    RunKeeps(states, events, j);
  }
}
