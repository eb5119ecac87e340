# Waybar: models and proofs

Waybar is a bar for Wayland compositors. Most of it joins libraries together; this project takes the parts that
hold an algorithm or a protocol of their own, models them in Dafny, branch by branch, and proves what they are for.
Code that works by changing things is a method or a class here, proved equal to a specification function; the
properties are lemmas about those functions, over every input or every run. `dafny verify dfyconfig.toml` checks
everything.

| file | models |
|---|---|
| `Wildcard.dfy` | the interface-name glob with a single fallback point, and the choice of a name by it |
| `Network.dfy` | the netlink tracker: selected interface, addresses, default routes, serialised dumps |
| `Config.dfy` | the first-wins merge of JSON trees and the recursive, depth-bounded `include` |
| `SleeperThread.dfy` | the worker thread that sleeps on a condition variable, with wake, pause and stop |
| `SafeSignal.dfy` | the bounded queue of events from other threads to the main thread |
| `Wireplumber.dfy` | asynchronous loading and activation, tagged with generations, across reconnects |
| `Client.dfy` | outputs, the pending batch and the bars |
| `Calendar.dfy` | the month grid over the proleptic Gregorian calendar |
| `CalendarPage.dfy` | the layout of a month or a year |
| `CalendarCache.dfy` | the cached text of the tooltip, and the actions that change the shown period |
| `TextFlow.dfy` | the word wrapper of the command-line help |
| `LineStream.dfy` | a child's output, read in chunks, turned into lines |
| `Utf8Text.dfy` | truncation to a number of cells with an ellipsis |
| `Sanitize.dfy` | markup escaping in five passes |
| `CssImports.dfy` | the style sheets to watch, found in rounds over their imports |
| `AudioBackend.dfy` | which PulseAudio sink is reported |
| `RegexCollection.dfy` | rewrite rules by priority, with a cache |
| `Wrappers.dfy` | an optional value, shared by the others |

Protocols are transition systems: a `State`, a type of events or actions, `Enabled` and `Next`, and a predicate for
runs from the initial state. Where one object's methods make the steps, a class with the same methods is proved to
change its state as the steps do (`Network`, `Wireplumber`, `Client`, `AudioBackend`, the calendar's `Clock`): each
method's contract gives the new state by `Next`, or by the function that `Next` applies for that event. The queue of
`SafeSignal` is a class too, whose contracts say which events each critical section drops and takes, in the words
that the steps use. The sleeper thread is a transition system only, as its steps are those of several threads. Fields
that are history only are said to be so at their declaration.

What the proofs found to be not quite so is stated with its exact condition:

- merging configurations is associative unless, somewhere along a common path, the first has an object, the second
  hides it with a non-object, and the third has an object with something to add (`Config.MergeAssociative`);
- a truncated text is within the limit except when it is too wide, the ellipsis fits, and no non-space ends early
  enough to leave room for it (`Utf8Text.WithinLimit`);
- the wrapper prints nothing of a text that starts with a newline (`TextFlow.LinesHoldTheText`);
- an address is set exactly when its prefix length is not zero, unless an address of prefix length zero is taken
  (`Network.StepKeepsAgreement`); before the first interface is gone, two signal fields hold whatever was in memory
  (`Network.NoInterfaceNoData`);
- the calendar shows nothing for January 1900, or the year 1900, until another period of the mode was shown
  (`CalendarCache.CacheIsTransparent`); with a format for today the two modes disturb each other's cache
  (`CalendarCache.SharedBaseDayGoesStale`), and a cached text is right only if it was rendered on the same day or
  marks neither that day nor today (`CalendarCache.CacheIsFreshIff`);
- a looked-up value spoils the rewrite cache exactly when the caller's flag is already up and no rule matches
  (`RegexCollection.RegexCollection.GetFlagged`);
- an ignored default sink that is not mapped is replaced by no other, although a comment in the source says so
  (`AudioBackend.IgnoredDefaultIsNotReplaced`); nor does it show in the report which sinks are held to be running
  (`AudioBackend.RunningDoesNotMatter`);
- a paused worker may start twice if and only if a signal arrived between its clearing and the call
  (`SleeperThread.StartsAfterPause`, `SleeperThread.TwoStartsHappen`);
- with room for one character the word wrapper stands still at a character that is neither whitespace nor followed by
  a boundary, and only there (`TextFlow.StandsStill`).

## Model

| member | source | states |
|---|---|---|
| `Wildcard.MatchesIffCut` | src/modules/network.cpp:503-539 | the recursive reading of `*` and `?` holds exactly when the text can be cut into one piece per pattern character, only a star taking anything but one fitting character |
| `Wildcard.KeepFirstSpot` | src/modules/network.cpp:510-515 | the exchange argument: once the characters after a star fit at their first spot, a match of the whole may be taken to keep that spot, so one fallback point is enough |
| `Wildcard.GiveUpSpot` | src/modules/network.cpp:523-527 | when the characters after the last star cannot be completed here, matching from this spot and from the next are the same |
| `Wildcard.StarMet` | src/modules/network.cpp:511-515 | forgetting the older star on meeting a new one loses no match |
| `Wildcard.Mismatch` | src/modules/network.cpp:523-532 | on a mismatch, stepping the last star one character on keeps the answer, and without a star the answer is no |
| `Wildcard.WildcardMatch` | src/modules/network.cpp:503-539 | the loop ends, by a lexicographic measure, and returns true exactly when the recursive reading matches, for every pattern and text |
| `Wildcard.MatchesItself` | src/modules/network.cpp:549-549 | every name matches itself taken as a pattern, so the extra equality test never changes the answer |
| `Wildcard.MatchInterface` | src/modules/network.cpp:541-562 | found exactly when a configured pattern matches the name or an alternative name, and then `matched` is the first such in that order; otherwise it is left alone |
| `Network.Network.AskForStateDump` | src/modules/network.cpp:932-956 | nothing while a dump is in progress; else exactly one wanted dump is sent, routes before links before addresses |
| `Network.Network.HandleEventsDone` | src/modules/network.cpp:958-963 | the finished dump is over and the next wanted one is sent |
| `Network.Network.HandleOverrun` | src/modules/network.cpp:285-305 | after lost messages links and addresses are wanted anew, and routes when no interface is configured |
| `Network.Network.HandleLink` | src/modules/network.cpp:594-709 | the whole new state after a link message: ignored, updated, selected by the configured pattern, or dropped, with the dump this asks for |
| `Network.Network.HandleAddr` | src/modules/network.cpp:711-801 | the whole new state after an address message, attribute by attribute |
| `Network.Network.HandleRoute` | src/modules/network.cpp:803-926 | the whole new state after a route message: a better default route is followed, the followed one's deletion drops the interface |
| `Network.Network.HandleScan` | src/modules/network.cpp:965-999 | the parts of a scan result that are present replace what was known |
| `Network.Network.HandleStationGet` | src/modules/network.cpp:1001-1044 | the same for the bit rates of the station |
| `Network.Network.ParseRoute` | src/modules/network.cpp:829-872 | what the attributes of a route say, the last of a kind counting |
| `Network.RunKeepsOrder` | src/modules/network.cpp:932-963 | in every run a wanted dump implies a dump in progress, at most one dump is in flight, and with a configured interface routes are never wanted |
| `Network.StepSends` | src/modules/network.cpp:932-956 | requests are only appended; a step sends at most one dump, only when none is in flight or one just finished; links only when no routes, addresses only when neither routes nor links are wanted |
| `Network.CalmKeepsRequests` | src/modules/network.cpp:932-963 | in every run without new requests each completion lowers wanted plus in-progress by exactly one, and what was sent and what is wanted stay the same list |
| `Network.MessagesAreCalm` | src/modules/network.cpp:587-930 | which messages request nothing: all but overruns, those by which the interface is lost, and better default routes |
| `Network.EveryDumpIsSent` | src/modules/network.cpp:932-963 | in every run, whatever messages come in between, as long as nothing new is requested: after as many completions as were pending exactly the wanted dumps have been sent, in order of urgency, and there is silence; before that one is in flight |
| `Network.OverrunAsksForEverything` | src/modules/network.cpp:285-305 | in every run, after an overrun, whatever dump was in progress and whatever messages come in between, a fresh dump of routes (if unconfigured), links and addresses is sent |
| `Network.StartAsks` | src/modules/network.cpp:129-146 | in every run the routes are asked for first, or with a configured interface the links and then the addresses, and nothing else before something new is requested |
| `Network.FollowedInterfaceIsAskedAbout` | src/modules/network.cpp:882-911 | in every run, after a default route is followed its link is asked for, by a dump when the request fails, and addresses are dumped last |
| `Network.LostRouteIsLookedFor` | src/modules/network.cpp:912-924 | in every run, when the followed default route is deleted or an unconfigured interface goes down (lines 614-623), there is no interface, and a route dump is the next dump requested, followed by the link and address dumps wanted before |
| `Network.Network.ClearIface` | src/modules/network.cpp:564-585 | every clearable field is reset |
| `Network.Network.constructor` | src/modules/network.cpp:129-146 | routes are wanted without a configured interface, links and addresses with one, and the first dump is asked for |
| `Network.DroppedIsCleared` | src/modules/network.cpp:564-585 | whichever message makes the tracker lose its interface, every field of it is cleared |
| `Network.NoInterfaceNoData` | src/modules/network.cpp:564-585 | in every run, without an interface all clearable fields are clear, but for the two signal fields without initial value before any interface was selected |
| `Network.NothingStale` | src/modules/network.cpp:564-585 | in every run an interface that is taken up, after none or after another one, starts without addresses and wireless data |
| `Network.CarrierLossForgetsWireless` | src/modules/network.cpp:653-669 | losing the carrier loses exactly the wireless data, the addresses stay |
| `Network.WirelessNewsIsShown` | src/modules/network.cpp:965-1044 | scan results, bit rates and the link speed replace exactly the parts they have |
| `Network.SelectionChanges` | src/modules/network.cpp:594-926 | exactly which messages select an interface, exchange it and give it up |
| `Network.SelectedIff` | src/modules/network.cpp:671-709 | a link is selected exactly if none is, an interface is configured, and the pattern matches the name or one of the alternative names |
| `Network.SelectedAsAnnounced` | src/modules/network.cpp:671-709 | in every run a newly selected interface has the announced name, index and carrier, and nothing else is known of it |
| `Network.SelectedLinkIsUpdated` | src/modules/network.cpp:648-669 | news of the selected interface change its carrier, its name if it was unknown, and the wireless data if the carrier is lost, nothing else |
| `Network.RouteDumpFindsBest` | src/modules/network.cpp:874-888 | reading any list of routes without an interface ends at the first default route of least metric, or nowhere if there is none |
| `Network.RouteAttributesMean` | src/modules/network.cpp:829-872 | of several gateways, interfaces and metrics the last is meant, without a metric 0; a destination counts unless it is all zeroes and of no length |
| `Network.DefaultRouteIff` | src/modules/network.cpp:874-881 | a default route is one of the main table with a gateway, an interface and no destination, whatever the order of its attributes |
| `Network.FirstAddressIsTaken` | src/modules/network.cpp:727-759 | of a message with several addresses, the first usable one of a wanted family is set, with its prefix length |
| `Network.NewAddressIsShown` | src/modules/network.cpp:727-759 | a new address in the place for it is shown with its prefix length, and nothing else changes |
| `Network.OtherNewAddressIsIgnored` | src/modules/network.cpp:718-759 | an address of another interface, of link scope, of a family not asked for, or second of its family changes nothing |
| `Network.DeletedAddressIsDropped` | src/modules/network.cpp:761-797 | the deletion of an address takes the one shown of its family, and only that |
| `Network.StepKeepsAgreement` | src/modules/network.cpp:727-797 | after any message an address is set iff its prefix length is not 0, exactly unless the message brings an address of prefix length 0 that is looked for |
| `Network.AddressIffPrefix` | src/modules/network.cpp:727-797 | so in every run without prefix length 0 addresses and prefix lengths agree |
| `Network.ZeroPrefixBreaksAgreement` | src/modules/network.cpp:737-747 | for every configuration a run of two messages from the start after which they do not |
| `Config.MergeConfig` | src/config.cpp:157-176 | the in-place merge, visiting members in any order, gives the first-wins merge of the two trees |
| `Config.MergeKeeps` | src/config.cpp:157-176 | merging never changes a non-object value already set, at any depth |
| `Config.MergeTwice` | src/config.cpp:157-176 | merging a tree a second time changes nothing |
| `Config.MergeAssociative` | src/config.cpp:157-176 | for objects, merging is associative if and only if the three trees have no clash |
| `Config.MergeIsNotAssociative` | src/config.cpp:157-176 | it is not associative in general |
| `Config.AgreeingNeverClash` | src/config.cpp:157-176 | trees that agree on which key paths are objects never clash |
| `Config.SetupConfig` | src/config.cpp:88-107 | loading a file, a list of bars or one, into a tree always ends, in the tree or error of the specification |
| `Config.ResolveConfigIncludes` | src/config.cpp:129-155 | the includes of a tree are loaded into it in order, at one more depth |
| `Config.LoadIsPreorderMerge` | src/config.cpp:88-176 | for object-valued files a load stops with the first error in depth-first preorder, or succeeds; if the files agree on objects, the result is their left-to-right first-wins merge in that order |
| `Config.FirstFileWins` | src/config.cpp:157-176 | in such a merge an option has the value of the first file that sets it |
| `Config.LoadedOption` | man/waybar.5.scd.in:147-151 | the documented precedence, end to end: including file, then first included file, and so on |
| `Config.IncludesAreVisitedInOrder` | src/config.cpp:129-155 | from the JSON as written: a configuration is visited first, then every file found for every name of its `include`, string or list, up to the last and in that order |
| `Config.EveryIncludeCounts` | src/config.cpp:129-155 | so an option set by the file found for any entry of the list, and by none visited before it, is in the loaded configuration |
| `Config.ListedObjectAborts` | src/config.cpp:134-142 | a list of includes with an entry that is an object or a list stops the load, wherever the entry stands |
| `Config.EachBarIsItsOwnMerge` | src/config.cpp:99-106 | a file with a list of bars loads to the list of each bar's own merge in depth-first preorder: an include affects only the bar it stands in |
| `Config.FirstBadBarStopsTheLoad` | src/config.cpp:99-106 | and the load stops with the reason of the first bar that cannot be visited |
| `Config.SelfIncludeAborts` | src/config.cpp:88-93 | a file whose one include is itself is stopped by the depth bound and nothing else |
| `Config.ChainsStayWithinDepth` | src/config.cpp:88-93 | a load that succeeds follows no include chain beyond the depth limit, through lists of bars and of includes alike |
| `Config.IncludeCycleAborts` | src/config.cpp:88-93 | no load that reaches an include cycle of whatever length succeeds |
| `Config.DepthLimit` | src/config.cpp:88-93 | a file without includes loads exactly at depths up to a hundred, and then to itself merged into what there was |
| `Config.OtherFiles` | src/config.cpp:94-107 | what becomes of a file that cannot be read, is empty, or is no configuration |
| `SleeperThread.NeverStranded` | include/util/sleeper_thread.hpp:71-121 | in every interleaving a worker blocked with its wait predicate true has a notification delivered or pending |
| `SleeperThread.BlockedHears` | include/util/sleeper_thread.hpp:115-146 | a worker in a wait has been or will be notified of each signal, stop and end of its pause |
| `SleeperThread.TowardsStart` | include/util/sleeper_thread.hpp:34-39 | each step of the worker brings a signalled worker nearer to its next start, and nobody but a stop puts it off |
| `SleeperThread.NoWakeUpIsLost` | include/util/sleeper_thread.hpp:115-121 | after a wake-up of a running thread a fresh start follows within a bounded number of the worker's steps, unless it is stopped |
| `SleeperThread.SignalStaysUp` | include/util/sleeper_thread.hpp:115-135 | a signal stays up until the worker clears it or is given a new function |
| `SleeperThread.SomebodyCanMove` | include/util/sleeper_thread.hpp:71-121 | and the worker can take such a step, after a pending notification if need be |
| `SleeperThread.SleepHoldsTheWorker` | include/util/sleeper_thread.hpp:71-77 | in every run: after a start of a function that sleeps without limit there is no other start without a wake-up, stop or restart since the signal was last cleared |
| `SleeperThread.TimedSleepsTakeTheirTime` | include/util/sleeper_thread.hpp:79-97 | and between two starts without a signal there is exactly one time-out for each timed sleep of the first |
| `SleeperThread.AtMostOneStartAfterStop` | include/util/sleeper_thread.hpp:123-135 | at most one more start after a stop, none unless the run flag had been tested |
| `SleeperThread.StopIsFinal` | include/util/sleeper_thread.hpp:123-135 | in every run a stop holds until the thread is given a new function |
| `SleeperThread.StoppedWorkerEnds` | include/util/sleeper_thread.hpp:34-39 | no wait holds a stopped worker, each of its steps but a start brings its end nearer, and nobody puts it off |
| `SleeperThread.RestartIsFollowedByAStart` | include/util/sleeper_thread.hpp:46-69 | in every run a thread given a new function has its signal down and starts the function within three steps of its worker, unless it is stopped |
| `SleeperThread.PausedUntilResumed` | include/util/sleeper_thread.hpp:137-146 | the thread is paused exactly from a pause to the next resumption |
| `SleeperThread.FewStartsAfterPause` | include/util/sleeper_thread.hpp:79-97 | while paused and not signalled, a worker whose function ends in `sleep_for` makes no more starts than it had left |
| `SleeperThread.AtMostOneStartAfterPause` | include/util/sleeper_thread.hpp:137-140 | hence at most one start after a pause, or two if a signal was pending just before the call |
| `SleeperThread.StartsLeftIsAttained` | include/util/sleeper_thread.hpp:34-97 | from every paused state some run makes as many starts as the bound allows |
| `SleeperThread.StartsAfterPause` | include/util/sleeper_thread.hpp:137-140 | exactly how many starts may follow a pause; two if and only if a signal is pending just before the call |
| `SleeperThread.TwoStartsHappen` | include/util/sleeper_thread.hpp:34-39 | a reachable state, and a run from its pause, with two starts |
| `SafeSignal.Queue.EmitLocked` | include/util/SafeSignal.hpp:44-50 | a push drops the oldest event when the limit is reached, and appends |
| `SafeSignal.Queue.SetMaxQueuedEvents` | include/util/SafeSignal.hpp:26-30 | a new limit drops exactly the oldest events above it |
| `SafeSignal.Queue.TrimQueueLocked` | include/util/SafeSignal.hpp:68-75 | trimming drops exactly the oldest events above the limit, none without one |
| `SafeSignal.Queue.PopLocked` | include/util/SafeSignal.hpp:78-81 | the oldest event is taken |
| `SafeSignal.RunKeeps` | include/util/SafeSignal.hpp:26-84 | in every interleaving each event is queued, handled, delivered or dropped, exactly one of them; deliveries are the undropped events in order; the queue keeps a non-zero limit; a non-empty queue will be noticed |
| `SafeSignal.FateIsFinal` | include/util/SafeSignal.hpp:26-84 | what was delivered or dropped stays so, and what is being handled stays so until it is delivered |
| `SafeSignal.QueueKeepsTheYoungest` | include/util/SafeSignal.hpp:26-75 | in every run an emission or a new limit leaves in the queue the youngest events, as many as the limit allows, and all without one: no event is dropped below the limit |
| `SafeSignal.DefaultLimit` | include/util/SafeSignal.hpp:26-84 | in a run without another limit the queue never holds more than 4096 events |
| `SafeSignal.UnlimitedDropsNothing` | include/util/SafeSignal.hpp:46-48 | a run in which the limit is never reached delivers or still queues all that was emitted |
| `SafeSignal.SettlesWithinWork` | include/util/SafeSignal.hpp:77-84 | without new emissions the signal comes to rest within a number of steps known beforehand |
| `SafeSignal.SettledIsDelivered` | include/util/SafeSignal.hpp:77-84 | and at rest every event has been delivered or dropped |
| `Wireplumber.Wireplumber.SetupConnection` | src/modules/wireplumber.cpp:87-115 | a new generation with a live core, no plugins, and a load scheduled if the connection was made |
| `Wireplumber.Wireplumber.TeardownConnection` | src/modules/wireplumber.cpp:120-144 | nothing of the connection is left |
| `Wireplumber.Wireplumber.OnCoreDisconnected` | src/modules/wireplumber.cpp:149-163 | the reconnect timer is armed, once, and nothing else |
| `Wireplumber.Wireplumber.OnReconnectTimeout` | src/modules/wireplumber.cpp:168-178 | a fresh connection, or none and another attempt |
| `Wireplumber.Wireplumber.OnDefaultNodesApiLoaded` | src/modules/wireplumber.cpp:556-582 | the guarded completion of the first load |
| `Wireplumber.Wireplumber.OnMixerApiLoaded` | src/modules/wireplumber.cpp:584-611 | the guarded completion of the second load, which activates the plugins |
| `Wireplumber.Wireplumber.ActivatePlugins` | src/modules/wireplumber.cpp:526-535 | one activation for each plugin, counted |
| `Wireplumber.Wireplumber.OnPluginActivated` | src/modules/wireplumber.cpp:504-524 | the guarded completion of an activation |
| `Wireplumber.Wireplumber.Destructor` | src/modules/wireplumber.cpp:180-189 | the module is dead, its timer cancelled, its connection gone |
| `Wireplumber.RunKeeps` | src/modules/wireplumber.cpp:87-189 | the invariant of every run of disconnects, reconnects, completions in any order, and destruction |
| `Wireplumber.CallbacksAreSafe` | src/modules/wireplumber.cpp:504-535 | a callback that passes the guard finds a live core; the plugin count is that of this generation's unfinished plus failed activations, so it never underflows |
| `Wireplumber.InstalledAfterBoth` | src/modules/wireplumber.cpp:521-523 | the object manager is installed at most once per generation, by the success of the second of both plugins |
| `Wireplumber.NeverStallsSilently` | src/modules/wireplumber.cpp:526-618 | as long as nothing failed, the object manager is installed or a call of this connection is in flight whose success brings that nearer |
| `Wireplumber.SuccessesInstall` | src/modules/wireplumber.cpp:504-618 | in every run, whatever disconnects are noticed and callbacks of earlier connections come in between: each success of this connection's calls, in any order, leaves one less of the four, and the object manager is installed if and only if all have come |
| `Wireplumber.ReconnectStaysPending` | src/modules/wireplumber.cpp:149-178 | in every run, from a disconnect on a reconnect is pending until one succeeds or the module is destroyed |
| `Wireplumber.ReconnectHasACause` | src/modules/wireplumber.cpp:149-163 | and only if a disconnect was noticed before |
| `Wireplumber.ReconnectStartsAfresh` | src/modules/wireplumber.cpp:168-178 | a reconnect that succeeds starts from nothing under a generation that no earlier callback has; one that fails leaves no connection and another attempt |
| `Wireplumber.FailuresChangeNothing` | src/modules/wireplumber.cpp:504-618 | in every run a callback that fails, or is of an earlier connection, changes nothing of the connection |
| `Wireplumber.DestroyedStaysDead` | src/modules/wireplumber.cpp:180-189 | in every run nothing happens to a module after its destruction |
| `Client.Client.HandleMonitorAdded` | src/client.cpp:174-178 | a fresh output is listed, its detection under way |
| `Client.Client.HandleOutputDone` | src/client.cpp:97-127 | the first done of an output makes it pending and schedules a batch unless one is scheduled; any other does nothing |
| `Client.Client.CreateBarsBatch` | src/client.cpp:129-146 | bars for the pending outputs that are still listed; nothing stays pending |
| `Client.Client.HandleDeferredMonitorRemoval` | src/client.cpp:192-205 | a monitor's bars and outputs are gone, the others unchanged and in order |
| `Client.Client.EraseBars` | src/client.cpp:193-203 | erasing in place while iterating keeps exactly the other bars, in order |
| `Client.Client.BindInterfaces` | src/client.cpp:286-302 | the next run starts from the monitors present, with no pending output and no scheduled batch |
| `Client.Client.QuitMain` | src/client.cpp:391-393 | the end of a run destroys all bars |
| `Client.RunKeeps` | src/client.cpp:97-205 | the invariant of every run of outputs, done events, batches, removals, ends and restarts |
| `Client.BarsAndBatches` | src/client.cpp:97-205 | in every run each bar refers to a listed output, all bars of an output come from one batch, no output becomes pending twice, and what is pending has a batch queued |
| `Client.PendingUntilBatch` | src/client.cpp:110-127 | in every run an output that a done event made pending stays so until the next batch, however many others follow |
| `Client.BatchMakesBarsOnce` | src/client.cpp:129-146 | in every run a batch makes for each pending output still listed exactly its configured bars, which are then all it has, and none for any other |
| `Client.DoneOutputGetsItsBars` | src/client.cpp:97-146 | in every run an output whose done event found it detecting, and which is still listed at the next batch, has after that batch exactly the bars configured for it |
| `Client.LaterDoneIsIgnored` | src/client.cpp:100-110 | after the done event that made an output pending, every later one, however much happened between, changes nothing |
| `Client.OneBatchAtATime` | src/client.cpp:115-127 | from a moment with as many callbacks queued as scheduled, there is never more than one, and one exactly if scheduled, until another run of the application |
| `Client.NewOutputIsListed` | src/client.cpp:174-178 | in every run a new monitor gets an output that no other is, and the others are kept |
| `Client.DetectingUntilDone` | src/client.cpp:97-205 | in every run an output stays listed and is detected until its first done event, its removal, or another run of the application |
| `Client.RemovalIsExact` | src/client.cpp:192-205 | in every run a removal takes the monitor's outputs and all bars on them, and no other output or bar |
| `Client.RunStartsWithItsMonitors` | src/client.cpp:286-302 | in every run a start of the application lists one detecting output per monitor, in order, and nothing pending |
| `Client.QuitDestroysBars` | src/client.cpp:391-393 | in every run an end of the application destroys the bars and nothing else |
| `Calendar.YearsTile` | src/modules/clock.cpp:457-470 | a year of 365 or 366 days lies between the firsts of two years, for all years |
| `Calendar.MonthsTile` | src/modules/clock.cpp:457-470 | months follow each other without gap or overlap, over the ends of years |
| `Calendar.EpochIsThursday` | src/modules/clock.cpp:327-329 | the weekdays are anchored at the first of January 1970, a Thursday |
| `Calendar.ColumnsTile` | src/modules/clock.cpp:457-470 | the next month's first day stands in the column after that of this month's last |
| `Calendar.WeekForLineStartsTheLine` | src/modules/clock.cpp:331-338 | the weekday found for a line is its first column's day, and lies in the month exactly on the lines the month has |
| `Calendar.GetCalendarLine` | src/modules/clock.cpp:340-421 | lines 2 to rows - 1 are printed as the weeks of the grid, further lines are empty |
| `Calendar.ColumnOfDay` | src/modules/clock.cpp:374-386 | counting columns from the first of the month is counting days of the week |
| `Calendar.FirstWeek` | src/modules/clock.cpp:373-393 | the first week with its blank columns |
| `Calendar.LaterWeek` | src/modules/clock.cpp:394-417 | a later week, completed with spaces |
| `Calendar.WeekWidth` | src/modules/clock.cpp:373-417 | every line is exactly twenty columns wide |
| `Calendar.MonthIsPrintedOnce` | src/modules/clock.cpp:327-421 | the lines 2 to rows - 1 hold each day of the month exactly once and in order, today's marked and no other |
| `Calendar.DayStandsInItsColumn` | src/modules/clock.cpp:373-417 | each day is on one of those lines, in column (weekday - first day of week) mod 7 |
| `CalendarPage.Render` | src/modules/clock.cpp:452-557 | the layout loops print the page of the specification, today's marker replaced |
| `CalendarPage.WeekIsNotPadded` | src/modules/clock.cpp:512-515 | a week already fills the month's columns, so padding never shows although the marker is longer than a day |
| `CalendarPage.FreshIsPlain` | src/modules/clock.cpp:551-557 | without a format for today the text of a period is the same on every day |
| `CalendarPage.MonthPageIsItsLines` | src/modules/clock.cpp:464-549 | a month is shown as its lines one below the other, whatever the number of month columns |
| `CalendarPage.LineStandsInYear` | src/modules/clock.cpp:464-549 | each line of each month of a year stands whole in one line of the page, as many lines down as the rows of months before its own take and its own number, and as many columns right as the months before it in its row take; so the lines of a month stand one below the other |
| `CalendarPage.TitlesStandInYear` | src/modules/clock.cpp:490-535 | the title lines of each month stand in a line of titles of their row, formatted together with the others in it |
| `CalendarPage.MonthStartsWithTitles` | src/modules/clock.cpp:490-535 | a shown month starts with its two titles, each formatted as such |
| `CalendarPage.DayStandsInYear` | src/modules/clock.cpp:464-549 | each day of the year stands in the line of its week, three columns for each weekday passed to the right of where its month starts |
| `CalendarPage.TodayIsInItsFormat` | src/modules/clock.cpp:551-557 | what the format makes of today's day is in the text of each period that shows today |
| `CalendarPage.SameTextIff` | src/modules/clock.cpp:551-557 | the text of a period is the same on two days if and only if they are the same day or the period marks neither: shows it in a format other than that of any other day |
| `CalendarCache.Clock.GetCalendar` | src/modules/clock.cpp:423-565 | the text served, from the cache or rendered anew, and the cache afterwards |
| `CalendarCache.Clock.CldModeSwitch` | src/modules/clock.cpp:590-592 | month and year are exchanged |
| `CalendarCache.Clock.CldShiftUp` | src/modules/clock.cpp:593-595 | a step of months, or of years, forth |
| `CalendarCache.Clock.CldShiftDown` | src/modules/clock.cpp:596-598 | a step of months, or of years, back |
| `CalendarCache.Clock.CldShiftReset` | src/modules/clock.cpp:599-599 | back to the present |
| `CalendarCache.MonthsAdd` | src/modules/clock.cpp:593-598 | shifts add up over the ends of years; one month leads to the next, twelve to the next year |
| `CalendarCache.ActionsMoveThePeriod` | src/modules/clock.cpp:590-599 | which period each action leads to, forth, back, to the present and to the other mode, and from which |
| `CalendarCache.CacheIsTransparent` | src/modules/clock.cpp:434-451 | without a format for today, in every run of mode switches, shifts, resets and changing days the text served is the fresh rendering, exactly unless it is the 1900 sentinel's and no other period of the mode was shown |
| `CalendarCache.CacheIsFreshIff` | src/modules/clock.cpp:434-451 | with any format for today or none, in every run the text served is the fresh rendering if and only if it is rendered, or was rendered on the same day, or the period marks neither that day nor today |
| `CalendarCache.DrawnIsLast` | src/modules/clock.cpp:559-562 | the day a cached text is known to be of is that of the last rendering of its mode |
| `CalendarCache.DayChangeIsShown` | src/modules/clock.cpp:434-451 | with a format for today, in every run: when the shown period was shown in the same mode just before, on a day of another number, its text is rendered anew |
| `CalendarCache.SharedBaseDayGoesStale` | src/modules/clock.cpp:434-451 | with a format for today, for every month but those of 1900 and every day but its last, a run that serves yesterday's text, which is wrong exactly if the format makes either day stand out |
| `TextFlow.Iterator.constructor` | include/util/clara.hpp:143-149 | at the first line, or at the end when that is empty |
| `TextFlow.Iterator.CalcLength` | include/util/clara.hpp:102-124 | the length, end and hyphen of the line at the position |
| `TextFlow.Iterator.FindBreak` | include/util/clara.hpp:113-115 | the last boundary within the room, less the whitespace before it |
| `TextFlow.Iterator.Deref` | include/util/clara.hpp:151-155 | the line with its indent and hyphen |
| `TextFlow.Iterator.Advance` | include/util/clara.hpp:157-170 | the next line starts after one newline, or else after all whitespace; after the last one is the end |
| `TextFlow.Progress` | include/util/clara.hpp:157-170 | with room for two characters every line moves on |
| `TextFlow.StandsStill` | include/util/clara.hpp:102-170 | with room for one character, exactly where the iterator does not move on |
| `TextFlow.AllLines` | include/util/clara.hpp:205-214 | iterating ends, for every text and every column with room for two characters, and yields the lines; a non-empty text without newline and with room for more than its length yields one string, its indent and the whole text |
| `TextFlow.LinesFit` | include/util/clara.hpp:102-134 | every line, indent and hyphen included, is at most the column's width and holds no newline |
| `TextFlow.HyphenOnlyWhenForced` | include/util/clara.hpp:113-122 | a hyphen is used only where up to every boundary in the room there is nothing but whitespace |
| `TextFlow.HyphenatedLineIsFull` | include/util/clara.hpp:119-122 | a line with a hyphen fills its column |
| `TextFlow.LongWordIsCut` | include/util/clara.hpp:113-134 | a word with no place to break it is printed up to the last column, with a hyphen there |
| `TextFlow.BreaksAtLastBoundary` | include/util/clara.hpp:113-118 | otherwise the line stops at the last boundary in the room, less the whitespace before it |
| `TextFlow.ParagraphThatFits` | include/util/clara.hpp:107-111 | a paragraph for which there is room is one line, all of it, and the next line is the next paragraph's |
| `TextFlow.TextThatFits` | include/util/clara.hpp:110-134 | a text without newlines for which there is room is printed as one string, its indent and all of the text |
| `TextFlow.NextLineStarts` | include/util/clara.hpp:157-170 | the next line starts right after a newline, or else at the next character that is not whitespace |
| `TextFlow.WhichIndent` | include/util/clara.hpp:126-130 | the initial indent is the first line's only |
| `TextFlow.BoundaryIff` | include/util/clara.hpp:56-100 | where a line may be broken, in terms of the characters themselves |
| `TextFlow.NothingLost` | include/util/clara.hpp:157-170 | the slices from any position on hold exactly the non-whitespace characters from there on, in order |
| `TextFlow.LinesHoldTheText` | include/util/clara.hpp:143-170 | the printed lines hold exactly the text's non-whitespace characters, in order, unless the text starts with a newline and has any |
| `LineStream.JoinPieces` | src/util/command_line_stream.cpp:67-70 | the pieces of the batch split have no newline and join to the text |
| `LineStream.PiecesJoin` | src/util/command_line_stream.cpp:67-70 | and are the only such |
| `LineStream.LineStream.EmitBufferedLines` | src/util/command_line_stream.cpp:64-85 | complete lines are emitted, the rest is held, or emitted by a flush |
| `LineStream.LineStream.DrainStdout` | src/util/command_line_stream.cpp:179-209 | what has been emitted and is held depends on the bytes read so far only |
| `LineStream.LineStream.HandleStdout` | src/util/command_line_stream.cpp:140-151 | draining, with a final flush on hang-up, after which nothing is read |
| `LineStream.LineStream.HandleExit` | src/util/command_line_stream.cpp:153-170 | the rest is drained and flushed if that was not done before |
| `LineStream.LineStream.Stop` | src/util/command_line_stream.cpp:123-136 | nothing held is carried over and nothing is emitted |
| `LineStream.LineStream.Start` | src/util/command_line_stream.cpp:99-121 | a session starts with nothing held |
| `LineStream.RunIsBatch` | src/util/command_line_stream.cpp:64-85 | bytes taken one at a time emit the batch split with one carriage return stripped, the last piece held |
| `LineStream.LineEndsAreStripped` | src/util/command_line_stream.cpp:64-85 | a line is emitted without its newline or its carriage return and newline |
| `LineStream.ChunkingDoesNotShow` | src/util/command_line_stream.cpp:184-196 | draining puts the same bytes and flush on the session's tape however they are cut into reads and however often these are interrupted |
| `LineStream.DrainedIsReceived` | src/util/command_line_stream.cpp:184-208 | that is the bytes read up to the end, an error or want of more, and the flush only at the end or an error |
| `LineStream.FlushTwice` | src/util/command_line_stream.cpp:77-84 | a repeated flush emits nothing |
| `LineStream.SessionIsBatch` | src/util/command_line_stream.cpp:64-85 | a session emits the batch split of its bytes, the last piece only by a final flush and only if not empty |
| `LineStream.TapeOfSession` | src/util/command_line_stream.cpp:140-170 | and every session is bytes, then at most one flush |
| `LineStream.LineStream.OutputIsBatch` | src/util/command_line_stream.cpp:64-85 | end to end: at any time the stream's output since its start is the batch split of the bytes read since, the last piece held, or emitted after a final flush if it is not empty |
| `Utf8Text.MeasureAndTruncate` | src/util/utf8_string.cpp:12-39 | the width of the whole text, and the text cut after the last non-space within the limit |
| `Utf8Text.Utf8Truncate` | src/util/utf8_string.cpp:46-61 | the two passes amount to one cut that leaves room for the ellipsis, if there is one |
| `Utf8Text.CutTwice` | src/util/utf8_string.cpp:51-56 | cutting to the limit first and then to the smaller one is cutting to the smaller one where that is possible |
| `Utf8Text.CutIsLongest` | src/util/utf8_string.cpp:31-36 | the cut is the longest prefix that ends in a non-space within the limit |
| `Utf8Text.GlyphWidth` | src/util/utf8_string.cpp:12-39 | two cells for a wide character, none for a combining one or the soft hyphen, one for any other |
| `Utf8Text.TruncatedWithEllipsis` | src/util/utf8_string.cpp:51-56 | a too wide text becomes the longest such prefix and the ellipsis, within the limit |
| `Utf8Text.WithinLimit` | src/util/utf8_string.cpp:46-61 | exactly when the result is within the limit |
| `Utf8Text.FittingTextKeepsItsWords` | src/util/utf8_string.cpp:46-52 | a text that fits loses only trailing spaces |
| `Utf8Text.EllipsisCanOverflow` | src/util/utf8_string.cpp:54-56 | a concrete text and limit that the result exceeds |
| `Sanitize.ReplaceAll` | src/util/sanitize_str.cpp:12-20 | one pass in place ends and replaces every occurrence once, never what it inserted |
| `Sanitize.SanitizeString` | src/util/sanitize_str.cpp:8-22 | the five passes equal escaping each character once |
| `Sanitize.AmpersandFirst` | src/util/sanitize_str.cpp:9-12 | five passes in an order do so for every text if and only if the ampersand's comes first |
| `Sanitize.DecodeEscape` | src/util/sanitize_str.cpp:8-22 | decoding the entities gives back the text |
| `Sanitize.PredefinedEntities` | src/util/sanitize_str.cpp:8-12 | which entity each of the five characters becomes, and that no other character is replaced |
| `Sanitize.NoBareMarkup` | src/util/sanitize_str.cpp:8-22 | markup characters occur in the result only as the ampersands of its entities |
| `CssImports.ParseFile` | src/util/css_reload_helper.cpp:148-167 | a file's new imports are entered and the file is marked, unless it was |
| `CssImports.Round` | src/util/css_reload_helper.cpp:124-133 | a round parses exactly the files not parsed at its start, in whatever order |
| `CssImports.RoundAdvances` | src/util/css_reload_helper.cpp:123-135 | a round moves on by one breadth-first layer; if nothing is new the closure is reached |
| `CssImports.WithinIsByPath` | src/util/css_reload_helper.cpp:109-146 | a layer holds exactly the files with an import path of that length at most |
| `CssImports.WatchedByPath` | src/util/css_reload_helper.cpp:109-146 | so a file is watched exactly if a path of at most a hundred imports leads to it |
| `CssImports.NoGrowthIsClosure` | src/util/css_reload_helper.cpp:135-135 | a layer that adds nothing is final: leaving early loses no file |
| `CssImports.ParseImports` | src/util/css_reload_helper.cpp:109-146 | the watch list is, for every import graph, exactly the files at most a hundred imports from the root, each once |
| `AudioBackend.AudioBackend.SinkInfoCb` | src/util/audio_backend.cpp:218-309 | the whole new state after one sink was listed |
| `AudioBackend.AudioBackend.ServerInfoCb` | src/util/audio_backend.cpp:337-346 | the default sink becomes current |
| `AudioBackend.AudioBackend.ToggleSinkMute` | src/util/audio_backend.cpp:520-528 | if the connection is ready the reported mute state is set ahead of the server's answer, otherwise nothing happens |
| `AudioBackend.AudioBackend.SetIgnoredSinks` | src/util/audio_backend.cpp:564-572 | the descriptions are added to the ignored ones, in order |
| `AudioBackend.AudioBackend.SetSinkMapping` | src/util/audio_backend.cpp:574-582 | a sink is mapped unless it already was |
| `AudioBackend.CurrentIsDefaultOrTarget` | src/util/audio_backend.cpp:218-309 | in every run the current sink is the default sink or its mapped target |
| `AudioBackend.SweepWithout` | src/util/audio_backend.cpp:254-270 | sinks other than the effective one never touch the report |
| `AudioBackend.IgnoredDefaultIsNotReplaced` | src/util/audio_backend.cpp:228-240 | in every run an ignored default sink that is not mapped leaves the report and the current sink as they were, whatever other sinks are listed |
| `AudioBackend.SweepReports` | src/util/audio_backend.cpp:254-308 | a sweep that lists the effective sink ends reporting its index, volume, description and mute state; without a valid volume it is silent and the old index stays |
| `AudioBackend.NamedSinkIsReported` | src/util/audio_backend.cpp:254-346 | in every run, once the server has named its default sink, a sweep that lists it, or the sink it is mapped to, ends with it current and reported |
| `AudioBackend.AnyOrder` | src/util/audio_backend.cpp:242-253 | in whatever order the sinks are listed, from any reachable state |
| `AudioBackend.DefaultIsLastNamed` | src/util/audio_backend.cpp:337-346 | in every run the default sink is the one named last, and it is current as soon as it is named |
| `AudioBackend.IgnoredIff` | src/util/audio_backend.cpp:564-572 | in every run a description is ignored exactly if that was asked for |
| `AudioBackend.IgnoredInOrder` | src/util/audio_backend.cpp:564-572 | ignoring some descriptions adds all of them, in order, and changes nothing else |
| `AudioBackend.MappedToTheFirst` | src/util/audio_backend.cpp:574-582 | in every run a sink is mapped to the target of the first request, if there was one |
| `AudioBackend.MuteIsReported` | src/util/audio_backend.cpp:510-528 | muting changes the reported mute state and nothing else |
| `AudioBackend.RunningAsListed` | src/util/audio_backend.cpp:228-270 | whether the current and the default sink are running is as the last listing of them says; an ignored current one is not |
| `AudioBackend.RunningDoesNotMatter` | src/util/audio_backend.cpp:254-270 | for any listing, what is reported does not depend on which sinks were held to be running |
| `RegexCollection.RegexCollection.constructor` | src/util/regex_collection.cpp:13-35 | the rules are those of the string members whose regex compiles, in an order the sort may give |
| `RegexCollection.RegexCollection.FindMatch` | src/util/regex_collection.cpp:37-47 | the first matching rule's result and the flag up, or the value itself |
| `RegexCollection.RegexCollection.GetFlagged` | src/util/regex_collection.cpp:49-66 | the answer is cached; the cache stays right exactly unless the flag was up, no rule matched and the value is not the default |
| `RegexCollection.RegexCollection.Get` | src/util/regex_collection.cpp:68-71 | a one-argument lookup answers as if there were no cache |
| `RegexCollection.AnswerIsGreatest` | src/util/regex_collection.cpp:34-47 | sorting and taking the first match give a matching rule of greatest priority, or the default |
| `RegexCollection.RulesOfEntries` | src/util/regex_collection.cpp:13-35 | a rule is built exactly for a string member whose key is a regex, with its value and the key's priority |
| `RegexCollection.FirstMatchIsFirst` | src/util/regex_collection.cpp:37-47 | among the rules that match, the first in the order of the sort answers |
| `RegexCollection.CacheIsTransparent` | src/util/regex_collection.cpp:49-71 | in every sequence of lookups each answer is the uncached one |

## Left out

- Network.Network.HandleAddr: the netmask texts are not modelled, nor that the IPv4 case falls through into the IPv6 one.
- Network.Network.HandleRoute: a gateway whose address cannot be printed leaves its buffer uninitialised; here every gateway has a text.
- Network.EveryDumpIsSent: counts the dumps that finish; the message of its end may be among those lost in an overrun.
- Network.NoInterfaceNoData: an interface without a name has link speed 0, as there is no such file in sysfs.
- Network.Network.ClearIface: the fields it resets are one record of the class, changed field by field; refreshes of the display and wake-ups of the timer thread are not recorded.
- Bandwidth, link speed, signal strength and format selection of the network module, and the parsing of netlink and nl80211 messages.
- Config.SetupConfig: JSON comments, duplicate keys, path expansion and file reading are in the `World` it is given; the order of member names is that of any enumeration.
- Config.LoadIsPreorderMerge: is for a root file with one configuration; `Config.EachBarIsItsOwnMerge` is for one with several. An included file that holds a list of bars is loaded by `SetupConfig` but not described by either.
- SleeperThread.AtMostOneStartAfterStop: `pthread_cancel`, which may end the worker earlier, and relaxed memory order are not modelled; joining and replacing the function is one step.
- SafeSignal.RunKeeps: emission on the main thread, which bypasses the queue, and a main loop run inside a callback are not modelled.
- Wireplumber.RunKeeps: starts after a successful first connection, as the constructor otherwise throws; the wrap of the 32-bit generation and the reuse of a destroyed module's address are not modelled.
- Client.BarsAndBatches: outputs have identities of their own; an output allocated at the address of a removed one is not modelled.
- Client.Client.BindInterfaces: the Wayland registry and the creation of xdg_output objects, which may fail.
- Calendar.GetCalendarLine: the two title lines, which are locale text; day numbers take two columns in the locale. Lines from 17 on, where the library's four-bit index would wrap, are never asked for, as no month has more than eight.
- CalendarPage.Render: week numbers beside the months, and the configured formats around the text; years beyond the library's 16 bits.
- CalendarCache.CacheIsTransparent: is for no format for today; `CalendarCache.CacheIsFreshIff` is for both.
- TextFlow.AllLines: columns side by side and the other half of that library, the command-line parser; a width of one more than the indent, with which the iterator may stand still.
- LineStream.LineStream.Start: spawning, signalling and reaping the child; a callback that stops the stream while it drains.
- Utf8Text.MeasureAndTruncate: invalid UTF-8, which is cut by bytes, and embedded NUL.
- CssImports.ParseImports: reading files, expanding paths and the regular expression for import statements are one function of the file.
- AudioBackend.AudioBackend.SinkInfoCb: port, monitor and form factor of a sink, the refresh callback, and sources.
- RegexCollection.RegexCollection.constructor: the order of rules of equal priority is the library's; it is a parameter that only has to be a sorted permutation.
- Regular expressions, formatting, locales and time zones, which enter as functions or not at all.
- Modules of compositors, D-Bus, MPD, system monitors and devices, and everything drawn: calls into libraries around little logic of their own.
