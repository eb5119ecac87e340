/** Which sink the audio backend reports: the server's default sink, or the one
    it is mapped to, whatever order the server lists the sinks in.
 */
module AudioBackend {
  import opened Wrappers

  /** `active` is running or idle; `volume` is None when the volume structure is invalid. */
  datatype SinkInfo = SinkInfo(index: nat, name: string, description: string, active: bool, volume: Option<nat>,
                               muted: bool)

  datatype Report = Report(index: nat, volume: nat, muted: bool, description: string)

  datatype State = State(
    current: string, currentRunning: bool, default: string, defaultRunning: bool,
    ignored: seq<string>, mapping: map<string, string>, report: Report)

  datatype Event = ServerInfo(default: string) | Sink(i: SinkInfo) | Mute(muted: bool)
                 | Ignore(description: string) | Map(from: string, target: string)

  const INITIAL := State("", false, "", false, [], map[], Report(0, 0, false, ""))

  // --- the steps ---------------------------------------------------------------------------------------

  function Reported(r: Report, i: SinkInfo): Report {
    match i.volume
    case Some(v) => Report(i.index, v, i.muted, i.description)
    case None => Report(r.index, 0, i.muted, i.description)
  }

  function OnSink(s: State, i: SinkInfo): State {
    if i.description in s.ignored then
      if i.name == s.current then s.(currentRunning := false) else s
    else if s.default in s.mapping then
      if i.name != s.mapping[s.default] then s
      else s.(current := i.name, currentRunning := i.active, report := Reported(s.report, i))
    else
      var seen := s.(defaultRunning := s.default == i.name && i.active);
      if i.name != s.default && i.name != s.current then seen
      else
        var known := if s.current == i.name then seen.(currentRunning := i.active) else seen;
        var chosen := if !known.currentRunning && i.active then known.(current := i.name, currentRunning := true)
                      else known;
        if chosen.current == i.name then chosen.(report := Reported(s.report, i)) else chosen
  }

  function Next(s: State, e: Event): State {
    match e
    case ServerInfo(default) => s.(current := default, default := default)
    case Sink(i) => OnSink(s, i)
    case Mute(muted) => s.(report := s.report.(muted := muted))
    case Ignore(description) => s.(ignored := s.ignored + [description])
    case Map(from, target) => if from in s.mapping then s else s.(mapping := s.mapping[from := target])
  }

  /** The first `n` descriptions are ignored from now on. */
  function IgnoreAll(s: State, descriptions: seq<string>, n: nat): State
    requires n <= |descriptions|
  {
    if n == 0 then s else Next(IgnoreAll(s, descriptions, n - 1), Ignore(descriptions[n - 1]))
  }

  lemma {:induction false} IgnoredInOrder(s: State, descriptions: seq<string>, n: nat)
    requires n <= |descriptions|
    ensures IgnoreAll(s, descriptions, n) == s.(ignored := s.ignored + descriptions[..n])
  {
    if n == 0 {
      assert s.ignored + descriptions[..0] == s.ignored;
    } else {
      IgnoredInOrder(s, descriptions, n - 1);
      assert s.ignored + descriptions[..n - 1] + [descriptions[n - 1]] == s.ignored + descriptions[..n];
    }
  }

  // --- the backend ----------------------------------------------------------------------------------------

  class AudioBackend {
    var current: string
    var currentRunning: bool
    var default: string
    var defaultRunning: bool
    var ignored: seq<string>
    var mapping: map<string, string>
    var sinkIndex: nat
    var volume: nat
    var muted: bool
    var description: string

    ghost function View(): State
      reads this
    {
      State(current, currentRunning, default, defaultRunning, ignored, mapping,
            Report(sinkIndex, volume, muted, description))
    }

    constructor ()
      ensures View() == INITIAL
    {
      current, currentRunning, default, defaultRunning := "", false, "", false;
      ignored, mapping := [], map[];
      sinkIndex, volume, muted, description := 0, 0, false, "";
    }

    method IsIgnored(description: string) returns (found: bool)
      ensures found <==> description in ignored
    {
      for k := 0 to |ignored|
        invariant forall j :: 0 <= j < k ==> ignored[j] != description
      {
        if ignored[k] == description {
          return true;
        }
      }
      return false;
    }

    method SinkInfoCb(i: SinkInfo)
      modifies this
      ensures View() == Next(old(View()), Sink(i))
    {
      hide Reported;
      var isIgnored := IsIgnored(i.description);
      if isIgnored {
        if i.name == current {
          currentRunning := false;
        }
        return;
      }

      if default in mapping {
        if i.name != mapping[default] {
          return;
        }
        current := i.name;
        currentRunning := i.active;
      } else {
        defaultRunning := default == i.name && i.active;
        if i.name != default && i.name != current && !defaultRunning {
          return;
        }
        if current == i.name {
          currentRunning := i.active;
        }
        if !currentRunning && i.active {
          current := i.name;
          currentRunning := true;
        }
      }

      if current == i.name {
        ReportSink(i);
      }
    }

    method ReportSink(i: SinkInfo)
      modifies this`sinkIndex, this`volume, this`muted, this`description
      ensures Report(sinkIndex, volume, muted, description)
           == Reported(old(Report(sinkIndex, volume, muted, description)), i)
    {
      if i.volume.Some? {
        sinkIndex := i.index;
        volume := i.volume.value;
      } else {
        volume := 0;
      }
      muted := i.muted;
      description := i.description;
    }

    /** A missing default name arrives as the empty string. */
    method ServerInfoCb(name: string)
      modifies this`current, this`default
      ensures View() == Next(old(View()), ServerInfo(name))
    {
      current := name;
      default := name;
    }

    /** Nothing happens unless the connection to the server is ready. */
    method ToggleSinkMute(ready: bool, mute: bool)
      modifies this`muted
      ensures View() == if ready then Next(old(View()), Mute(mute)) else old(View())
    {
      if !ready {
        return;
      }
      muted := mute;
    }

    method SetIgnoredSinks(descriptions: seq<string>)
      modifies this`ignored
      ensures View() == IgnoreAll(old(View()), descriptions, |descriptions|)
    {
      for k := 0 to |descriptions|
        invariant View() == IgnoreAll(old(View()), descriptions, k)
      {
        ignored := ignored + [descriptions[k]];
      }
    }

    method SetSinkMapping(from: string, target: string)
      modifies this`mapping
      ensures View() == Next(old(View()), Map(from, target))
    {
      if from !in mapping {
        mapping := mapping[from := target];
      }
    }
  }

  // --- what every run keeps -----------------------------------------------------------------------------------

  /** The sink that is to be reported. */
  function Effective(s: State): string {
    if s.default in s.mapping then s.mapping[s.default] else s.default
  }

  ghost predicate CurrentIsChosen(s: State) {
    s.current == s.default || s.current == Effective(s)
  }

  lemma StepKeeps(s: State, e: Event)
    requires CurrentIsChosen(s)
    ensures CurrentIsChosen(Next(s, e))
  {
  }

  ghost function After(s: State, events: seq<Event>): State {
    if events == [] then s else Next(After(s, events[..|events| - 1]), events[|events| - 1])
  }

  /** In every run the current sink is the default sink or the one it is mapped to. */
  lemma {:induction false} CurrentIsDefaultOrTarget(events: seq<Event>)
    ensures CurrentIsChosen(After(INITIAL, events))
    decreases |events|
  {
    if events == [] {
    } else {
      CurrentIsDefaultOrTarget(events[..|events| - 1]);
      StepKeeps(After(INITIAL, events[..|events| - 1]), events[|events| - 1]);
    }
  }

  /** The default sink is the one the server named last. */
  lemma {:induction false} DefaultIsLastNamed(events: seq<Event>, i: nat)
    requires i < |events| && events[i].ServerInfo? && forall k :: i < k < |events| ==> !events[k].ServerInfo?
    ensures After(INITIAL, events).default == events[i].default
    ensures i == |events| - 1 ==> After(INITIAL, events).current == events[i].default
    decreases |events|
  {
    if i == |events| - 1 {
    } else {
      DefaultIsLastNamed(events[..|events| - 1], i);
    }
  }

  /** A description is ignored exactly if it was asked to be. */
  lemma {:induction false} IgnoredIff(events: seq<Event>, description: string)
    ensures description in After(INITIAL, events).ignored <==> Ignore(description) in events
    decreases |events|
  {
    if events == [] {
    } else {
      var init, last := events[..|events| - 1], events[|events| - 1];
      IgnoredIff(init, description);
      assert events == init + [last];
      assert Next(After(INITIAL, init), last).ignored
          == After(INITIAL, init).ignored + if last.Ignore? then [last.description] else [];
      hide Next;
    }
  }

  /** Event `k` asks for a sink to be mapped, and no event before it does. */
  ghost predicate FirstMaps(events: seq<Event>, k: nat, name: string) {
    && k < |events| && events[k].Map? && events[k].from == name
    && forall j :: 0 <= j < k && events[j].Map? ==> events[j].from != name
  }

  lemma OnlyMapsMap(s: State, e: Event)
    ensures Next(s, e).mapping
         == if e.Map? && e.from !in s.mapping then s.mapping[e.from := e.target] else s.mapping
  {
  }

  /** A sink is mapped to what it was first asked to be mapped to, if it ever was. */
  lemma {:induction false} MappedToTheFirst(events: seq<Event>, name: string) returns (first: nat)
    ensures var m := After(INITIAL, events).mapping;
      if name in m then FirstMaps(events, first, name) && m[name] == events[first].target
      else forall k :: 0 <= k < |events| && events[k].Map? ==> events[k].from != name
    decreases |events|
  {
    if events == [] {
      first := 0;
    } else {
      var n := |events| - 1;
      first := MappedToTheFirst(events[..n], name);
      OnlyMapsMap(After(INITIAL, events[..n]), events[n]);
      hide Next;
      assert forall k :: 0 <= k < n ==> events[..n][k] == events[k];
      if name !in After(INITIAL, events[..n]).mapping {
        first := n;
      }
    }
  }

  /** Muting changes the reported mute state and nothing else. */
  lemma MuteIsReported(events: seq<Event>, muted: bool)
    ensures var s := After(INITIAL, events);
      After(INITIAL, events + [Mute(muted)])
      == s.(report := Report(s.report.index, s.report.volume, muted, s.report.description))
  {
    assert (events + [Mute(muted)])[..|events|] == events;
  }

  /** Whether the current sink is running: as listed, an ignored one never. */
  lemma RunningAsListed(s: State, i: SinkInfo)
    requires CurrentIsChosen(s)
    ensures var n := OnSink(s, i);
      && n.currentRunning == (if i.description in s.ignored then s.currentRunning && i.name != s.current
                              else if i.name == Effective(s) then i.active else s.currentRunning)
      && n.defaultRunning == (if i.description in s.ignored || s.default in s.mapping then s.defaultRunning
                              else i.name == s.default && i.active)
  {
  }

  /** Which sinks are running does not show in what is reported, for all the code that keeps track of it. */
  lemma {:induction false} RunningDoesNotMatter(s: State, current: bool, default: bool, sinks: seq<SinkInfo>)
    requires CurrentIsChosen(s)
    ensures var n, m := Sweep(s, sinks), Sweep(s.(currentRunning := current, defaultRunning := default), sinks);
      n.report == m.report && n.current == m.current
    decreases |sinks|
  {
    if sinks == [] {
    } else {
      hide OnSink;
      var init, last := sinks[..|sinks| - 1], sinks[|sinks| - 1];
      var t := s.(currentRunning := current, defaultRunning := default);
      RunningDoesNotMatter(s, current, default, init);
      SweepWithout(s, init);
      SweepWithout(t, init);
      SweepKeepsSettings(s, init);
      SweepKeepsSettings(t, init);
      SinkReportsAlike(Sweep(s, init), Sweep(t, init), last);
    }
  }

  lemma SweepKeepsSettings(s: State, sinks: seq<SinkInfo>)
    requires CurrentIsChosen(s)
    ensures var n := Sweep(s, sinks);
      n.default == s.default && n.mapping == s.mapping && n.ignored == s.ignored
  {
    SweepWithout(s, sinks);
  }

  /** What a listed sink does to the report: nothing, unless it is the one to be reported. */
  lemma ReportAfterSink(s: State, i: SinkInfo)
    requires CurrentIsChosen(s)
    ensures OnSink(s, i).report == if Reportable(s, i) then Reported(s.report, i) else s.report
    ensures OnSink(s, i).current == if Reportable(s, i) then i.name else s.current
  {
    hide Reported;
  }

  lemma SinkReportsAlike(s: State, t: State, i: SinkInfo)
    requires CurrentIsChosen(s) && CurrentIsChosen(t)
    requires s.default == t.default && s.mapping == t.mapping && s.ignored == t.ignored
    requires s.current == t.current && s.report == t.report
    ensures OnSink(s, i).report == OnSink(t, i).report && OnSink(s, i).current == OnSink(t, i).current
  {
    hide OnSink, Reported;
    ReportAfterSink(s, i);
    ReportAfterSink(t, i);
  }

  // --- a sweep over all sinks -------------------------------------------------------------------------------------

  ghost function Sweep(s: State, sinks: seq<SinkInfo>): State {
    if sinks == [] then s else OnSink(Sweep(s, sinks[..|sinks| - 1]), sinks[|sinks| - 1])
  }

  ghost predicate DistinctNames(sinks: seq<SinkInfo>) {
    forall i, j :: 0 <= i < j < |sinks| ==> sinks[i].name != sinks[j].name
  }

  /** The sink to be reported, as listed: not ignored. */
  ghost predicate Reportable(s: State, i: SinkInfo) {
    i.name == Effective(s) && i.description !in s.ignored
  }

  lemma OtherSink(s: State, i: SinkInfo)
    requires CurrentIsChosen(s)
    ensures var n := OnSink(s, i);
      && CurrentIsChosen(n) && n.default == s.default && n.mapping == s.mapping && n.ignored == s.ignored
      && (!Reportable(s, i) ==> n.report == s.report && n.current == s.current)
  {
  }

  /** Sinks other than the one to be reported leave the report alone; a sweep changes no settings. */
  lemma {:induction false} SweepWithout(s: State, sinks: seq<SinkInfo>)
    requires CurrentIsChosen(s)
    ensures var n := Sweep(s, sinks);
      && CurrentIsChosen(n) && n.default == s.default && n.mapping == s.mapping && n.ignored == s.ignored
      && ((forall i :: i in sinks ==> !Reportable(s, i)) ==> n.report == s.report && n.current == s.current)
    decreases |sinks|
  {
    hide OnSink, CurrentIsChosen;
    if sinks == [] {
    } else {
      var init, last := sinks[..|sinks| - 1], sinks[|sinks| - 1];
      SweepWithout(s, init);
      OtherSink(Sweep(s, init), last);
      assert sinks == init + [last];
      assert last in sinks;
    }
  }

  /** An ignored default sink that is not mapped is replaced by no other: whatever else is listed, the report and the
      current sink stay as they were. */
  lemma IgnoredDefaultIsNotReplaced(events: seq<Event>, sinks: seq<SinkInfo>)
    requires var s := After(INITIAL, events);
      s.default !in s.mapping && forall i :: i in sinks && i.name == s.default ==> i.description in s.ignored
    ensures var s := After(INITIAL, events);
      Sweep(s, sinks).report == s.report && Sweep(s, sinks).current == s.current == s.default
  {
    var s := After(INITIAL, events);
    CurrentIsDefaultOrTarget(events);
    SweepWithout(s, sinks);
  }

  /** The effective sink, not ignored, becomes current and is reported. */
  lemma EffectiveSink(s: State, i: SinkInfo)
    requires CurrentIsChosen(s) && Reportable(s, i)
    ensures Reports(OnSink(s, i), i)
    ensures OnSink(s, i).report.index == if i.volume.Some? then i.index else s.report.index
  {
  }

  /** `i` is current and what is reported of it is its own. */
  ghost predicate Reports(s: State, i: SinkInfo) {
    && s.current == i.name == Effective(s)
    && s.report.muted == i.muted && s.report.description == i.description
    && s.report.volume == (if i.volume.Some? then i.volume.value else 0)
  }

  /** A sweep that lists the effective sink, not ignored, ends reporting it; without a valid volume it is reported as
      silent, and under the index that was reported before. */
  lemma {:induction false} SweepReports(s: State, sinks: seq<SinkInfo>, k: nat)
    requires CurrentIsChosen(s) && DistinctNames(sinks) && k < |sinks|
    requires Reportable(s, sinks[k])
    ensures var n := Sweep(s, sinks);
      && n.current == Effective(s)
      && n.report.muted == sinks[k].muted && n.report.description == sinks[k].description
      && n.report.volume == (if sinks[k].volume.Some? then sinks[k].volume.value else 0)
      && n.report.index == (if sinks[k].volume.Some? then sinks[k].index else s.report.index)
    decreases |sinks|
  {
    hide OnSink, CurrentIsChosen;
    var init, last := sinks[..|sinks| - 1], sinks[|sinks| - 1];
    SweepWithout(s, init);
    if k < |init| {
      SweepReports(s, init, k);
      assert last.name != sinks[k].name;
      OtherSink(Sweep(s, init), last);
    } else {
      EffectiveSink(Sweep(s, init), last);
    }
  }

  /** After the server has named its default sink, a sweep that lists it reports it; or the sink it is mapped to. */
  lemma NamedSinkIsReported(events: seq<Event>, name: string, sinks: seq<SinkInfo>, k: nat)
    requires DistinctNames(sinks) && k < |sinks|
    requires var s := After(INITIAL, events);
      sinks[k].name == (if name in s.mapping then s.mapping[name] else name) && sinks[k].description !in s.ignored
    ensures var n := Sweep(After(INITIAL, events + [ServerInfo(name)]), sinks);
      && n.current == sinks[k].name
      && n.report == match sinks[k].volume
                     case Some(volume) => Report(sinks[k].index, volume, sinks[k].muted, sinks[k].description)
                     case None =>
                       Report(After(INITIAL, events).report.index, 0, sinks[k].muted, sinks[k].description)
  {
    var all := events + [ServerInfo(name)];
    assert all[..|all| - 1] == events;
    CurrentIsDefaultOrTarget(all);
    SweepReports(After(INITIAL, all), sinks, k);
  }

  /** The order in which the server lists the sinks does not matter. */
  lemma AnyOrder(events: seq<Event>, sinks: seq<SinkInfo>, other: seq<SinkInfo>, i: SinkInfo)
    requires DistinctNames(sinks) && DistinctNames(other) && i in sinks && i in other
    requires Reportable(After(INITIAL, events), i)
    ensures var s := After(INITIAL, events);
      && Sweep(s, sinks).report == Sweep(s, other).report
      && (i.volume.Some? ==> Sweep(s, sinks).report == Report(i.index, i.volume.value, i.muted, i.description))
      && Sweep(s, sinks).current == Sweep(s, other).current == Effective(s)
  {
    CurrentIsDefaultOrTarget(events);
    var k :| 0 <= k < |sinks| && sinks[k] == i;
    var l :| 0 <= l < |other| && other[l] == i;
    SweepReports(After(INITIAL, events), sinks, k);
    SweepReports(After(INITIAL, events), other, l);
  }
}
