# Dynamic exporter runtime, verified

The exporter creator watches observers for endpoints, starts an exporter for each endpoint a
template matches, and routes telemetry to those exporters by comparing resource attributes with
endpoint properties. This project models that runtime in Dafny and proves what it promises:

- **Paths and properties** (`PropertyPath`, `LabelPaths`, `NestedProperty`). The path language is given by a
  printer. The byte parser accepts exactly the printed paths, each with one spelling, and lookups
  are structural walks along the parsed keys.
- **Routing** (`Router`). `Route`, with its early exits, answers with exactly the exporters that
  satisfy every rule, as a multiset. The cached counts and the gauge agree with the map after every
  sequence of updates.
- **Templates** (`Backticks`, `ConfigTree`, `Launch`). A string means its literal bytes and
  expressions; the one-pass scanner computes that meaning on every string. Expansion and pruning of
  trees are characterised address by address, and the endpoint an exporter starts with is stated
  outright and proved of the marker-key protocol.
- **Lifecycle** (`ExporterMaps`, `History`, `Lifecycle`, `Handler`). Notifications append events to
  a log, and everything the handler keeps is proved to be what the log calls for: who is held for an
  endpoint, what has been stopped, what the router routes to.
- **Observed endpoints** (`Tracking`). The totals and the gauge follow from who reports what.
- **Dispatch** (`Dispatch`). Logs, metrics and traces are dispatched by differently branched code
  that is proved to do the same thing: every record is accepted, taken by a default exporter, or
  counted as lost, once. Every export leaves a trace, and the traces are what the reports say.
- **End to end** (`Delivery`). A batch goes to exactly the exporters that the handler's history
  started with the signal for an endpoint that matches, and each gets what it matches.
- **Shared instances** (`SharedInstances`). One creator per configuration, started and stopped once.
- **Threads** (`Interleaving`, `Linearization`, `Chronicle`, `RemovalWindow`). A step model of the
  locks, for any number of threads that route, count, notify, shut down, or call the router's two
  updates directly: no deadlock, every schedule ends, every answer is the router's at one instant. For
  threads that update the router through the handler only, as the runtime does, handler and router
  agree, and every schedule has a log that its stops and holdings are those of.

Values stand in for Go's data: a string is a sequence of bytes, a configuration tree is a `Value`,
and endpoint ids, template names and types are numbers because they are compared and never
inspected. Map iteration is an arbitrary choice at each step. The expression library, the `%v`
format, `cast.ToString`, template rules and the factory's answer on whether it has an endpoint field
are arbitrary functions. Whether an external call (load, creation, start, shutdown, export) succeeds is
arbitrary each time; such calls are recorded as they are made, so that none can be left out. Classes carry the mutable state of the source's types; their methods are
proved against functions on values, and the properties of whole runs are proved about those.

## Four findings

- *An exporter can be shut down twice, or never.* The final shutdown stops what the handler holds and
  forgets nothing, so a removal or change notification delivered afterwards stops it again
  (`History.RemovalAfterShutdownStopsTwice`); and a notification that waited for the shutdown to
  finish starts an exporter that nothing stops (`History.LateStartIsNotStopped`). Over all runs, an
  exporter is stopped twice exactly when its endpoint held it at a shutdown and is removed or changed
  later, or still holds it at a further shutdown (`History.StoppedOnceExactly`), and it has been
  stopped in the end exactly when a removal of its endpoint or a shutdown came after its start
  (`History.StoppedExactly`).
- *The temporary marker key can be in an exporter's configuration.* The marker set for the merge
  never is, but a template may have a key of that name itself (`Launch.MarkerCanSurvive`). It stays
  exactly when what its entry expands to is neither nil nor a map that pruning empties
  (`Launch.MarkerSurvivesExactly`).
- *Routing can return a stopped exporter before any shutdown.* A removal stops an endpoint's
  exporters before the router forgets them; a thread that routes in between is answered with one
  (`RemovalWindow.RouteReturnsStopped` gives the schedule). Before the final shutdown, a routed
  exporter has been stopped exactly when a thread in the handler is removing its endpoint and has got
  past it (`Linearization.StoppedExactlyInRemoval`), and so never while the handler's mutex is free.
- *A failed start can leave a sub-exporter running.* When one sub-exporter of an endpoint starts and
  another does not, no exporter is launched and nothing is kept to stop the first one by
  (`Handler.StartCanFailHalfway`). It happens exactly when a start fails after or before another that
  succeeds (`Handler.StartedInVain`).

The comment at `config_expansion.go:37` speaks of runes; the loop reads bytes, and so does the model.

## Model

| member | source | states |
|---|---|---|
| PropertyPath.ParsePropertyPath | router.go:383-434 | the parser returns the keys of the path's one spelling, and refuses exactly the texts no spelling prints |
| PropertyPath.ParseBracketedKey | router.go:440-476 | a returned key and end are those of a well-formed quoted bracket at that position; refusal means no such bracket stands there |
| PropertyPath.PathKeysOfPrint | router.go:383-434 | printing non-empty keys under any choice of brackets, the first key bare, and reading the text gives the keys back |
| PropertyPath.SpellingIsUnique | router.go:356-382 | no path is the print of two different lists of segments |
| PropertyPath.ResolveAttributeName | router.go:491-500 | a spelling without a bracket is the name itself; any other names its keys joined by dots, or is refused when it spells no path |
| PropertyPath.SpellingsAgree | router.go:478-490 | however the keys are bracketed, the attribute named is the same dotted join |
| PropertyPath.ResolvedNameIsStable | router.go:491-500 | resolving leaves a name unchanged if and only if there is no bracket in it, so resolving a dotted name again changes nothing |
| LabelPaths.LabelPath | router.go:478-500 | a text like `a.b["c.d/e"]`, in ASCII, names the three keys, the last one whole, and as an attribute the flat name `a.b.c.d/e` |
| LabelPaths.EscapedBytes | router.go:447-470 | inside a quoted key a quote and a backslash carry a backslash, and every other byte stands for itself |
| NestedProperty.GetNestedProperty | router.go:504-537 | the loop with its early exits returns the node the parsed keys walk to; what that is, is in the next four rows |
| NestedProperty.PropertyOfKey | router.go:504-514 | a path of one bare key gives the property of that name, nil when there is none |
| NestedProperty.PropertyBelow | router.go:513-534 | one more key, however it is written, leads from a map, an environment or a label set to the entry of that key; a missing entry is nil, an empty label is an empty string, and any other value has no entries |
| NestedProperty.LabelsExactly | router.go:517-525 | a label is found by its key whatever bytes it holds, and is nil exactly when absent |
| NestedProperty.NoPathIsNil | router.go:505-510 | a text that spells no path gives nil |
| NestedProperty.NameableKeys | router.go:383-434 | some path names exactly these keys if and only if none is empty and the first has no dot and no bracket |
| NestedProperty.ReturnedExactly | router.go:504-537 | in every tree, a node that is not nil is returned by some path if and only if it stands below non-empty keys of which the first has no dot and no bracket |
| NestedProperty.AddressableExactly | router.go:504-537 | so in every tree a node below non-empty keys, standing nowhere else, is returned by some path if and only if its top-level key has no dot and no bracket |
| NestedProperty.Addressable | router.go:504-537 | in any tree, a node below a bare top-level key is returned by a path that spells its own keys |
| Router.TelemetryRouter.constructor | router.go:53-71 | a new router is empty, and each rule carries its resolved attribute name, or the configured text when it does not parse |
| Router.TelemetryRouter.AddExporter | router.go:84-97 | the new state is the old one with the exporter appended for its endpoint, counted in both caches and recorded |
| Router.TelemetryRouter.RemoveExporter | router.go:100-111 | the new state is the old one without the endpoint, each of its exporters taken out of both caches, and recorded |
| Router.TelemetryRouter.RecordCountLocked | router.go:118-126 | every type in the per-type count is recorded, whatever the order, and nothing when there is no telemetry |
| Router.AddedCoherent | router.go:84-97 | an added exporter keeps count, per-type counts, their sum and the gauge equal to what the map holds |
| Router.RemovedCoherent | router.go:100-111 | so does a removal, of unknown and repeated ids as well, and no type leaves the per-type counts |
| Router.RunCoherent | router.go:28-39 | after any sequence of adds and removes the caches agree with the map and the types counted are exactly those ever added |
| Router.GaugeShowsLiveCounts | router.go:113-126 | every type ever added is on the gauge with its live count, which is never negative |
| Router.NothingToRoute | router.go:156-164 | when the cached count is zero no exporter could match, so leaving early changes no answer |
| Router.NoRulesNoAnswer | router.go:146-154 | without rules nothing matches, so leaving early changes no answer |
| Router.AppendingRuleShrinks | router.go:261-326 | one more rule after the first never routes a resource to an exporter more often than before |
| Router.TelemetryRouter.MatchesAllRules | router.go:261-326 | the loop with its early exits decides whether all rules match; what that means is in the next row |
| Router.MatchesExactly | router.go:261-326 | rules as the constructor resolves them match when there are any and, for each, the resource has the attribute of the resolved name and it equals the property at the path: a string as it is, any other value but nil as it is rendered |
| Router.SpelledRule | router.go:264-298 | a rule bracketed anyhow looks up its keys joined by dots |
| Router.AnsweredExactly | router.go:166-173 | an exporter is in the answer if and only if it is registered, for any endpoint, with properties that match |
| Router.RoutedBySpelling | router.go:129-235 | routing by one rule, from the configured spelling on: exactly the exporters with a property at the path whose text is that of the attribute at the dotted join of the keys |
| Router.TelemetryRouter.MatchingOf | router.go:167-172 | the scan of one endpoint's exporters returns each exactly as often as it matches |
| Router.TelemetryRouter.Route | router.go:129-235 | as a multiset, the result is the matching exporters of every endpoint, whatever the order of the map and whichever exit is taken |
| Backticks.EvalBackticksInConfigValue | config_expansion.go:28-100 | on every string the scanner returns the meaning its pieces have, and its index always advances; the next six rows say what that is on every string |
| Backticks.EveryString | config_expansion.go:39-90 | every string is the print of literals and expressions, followed by nothing, by an expression that does not close, or by a lone backslash |
| Backticks.FirstStopDecides | config_expansion.go:60-73 | the first expression without a value decides, whatever follows: an empty one and an evaluation error fail, and one that reaches through a missing field gives nil |
| Backticks.OneExpression | config_expansion.go:53-99 | a string that is one expression: its value with its type, or, if it escapes backticks, text of that many backticks and the rendered value; nil for a missing field; an error for an empty or failing one |
| Backticks.BadEnds | config_expansion.go:41-44 | when every expression before it has a value, a backslash at the very end is a dangling escape, in an open expression too, and any other open expression is unbalanced |
| Backticks.OutputExactly | config_expansion.go:33-84 | what is written is what each piece shows, one after the other, and the results are those of the expressions |
| Backticks.BlankExactly | config_expansion.go:62-64 | an expression is empty exactly when it is the UTF-8 encoding of Unicode white space and nothing else |
| Backticks.RawTextExactly | config_expansion.go:46-54 | a text can stand between backticks exactly when each backtick in it follows a backslash and no backslash ends it |
| Backticks.LexOfPrint | config_expansion.go:39-85 | writing literals and expressions with their escapes and reading them gives the same pieces back |
| Backticks.PrintedExactly | config_expansion.go:39-90 | the strings read to the end without a complaint are exactly the printed ones, and each has one list of pieces |
| Backticks.MeaningOfPrint | config_expansion.go:28-100 | evaluating a printed string concatenates literals and rendered results, unless the first expression without a value makes it an error or nil |
| Backticks.TypeKeptExactly | config_expansion.go:92-99 | a string that evaluates successfully means its expression's own value exactly when there was one expansion and no literal byte was written, and text otherwise, for any rendering; any other string fails or means nil |
| Backticks.EscapeRoundTrip | config_expansion.go:41-52 | a literal with its backticks escaped evaluates to itself if and only if it does not end in a backslash |
| ConfigTree.ExpandFailsExactly | config_expansion.go:114-163 | expanding a tree fails if and only if some string in it fails, whatever the order of maps |
| ConfigTree.ExpandAt | config_expansion.go:114-163 | what stands at an address after expansion is the expansion of what stood there before, nil when it was dropped |
| ConfigTree.ExpandLeaf | config_expansion.go:114-127 | a string expands to its meaning and fails when it has none; a value without strings stays as it is |
| ConfigTree.ExpandShape | config_expansion.go:130-160 | slices keep their length, maps gain no key, and no map entry is nil |
| ConfigTree.ExpandConfig | config_expansion.go:104-110 | an expanded configuration has only keys of the original and no nil entry |
| ConfigTree.PruneKeepsLeaves | config_expansion.go:168-189 | along map keys, exactly the values that are neither nil nor maps are kept, each at its own path and unchanged |
| ConfigTree.PruneLeavesNothingEmpty | config_expansion.go:168-189 | no nil value and no empty nested map is left along map keys |
| ConfigTree.PruneIdempotent | config_expansion.go:168-189 | pruning again changes nothing |
| ConfigTree.MergeBelow | exporter_runner.go:187-193 | in a merge, path by path, what the second tree has wins, two maps being merged; where it has nothing the value of the first stays, unless the second has a value that is no map on the way |
| Launch.MergeTemplatedAndDiscoveredConfigs | exporter_runner.go:157-196 | the merge is the templated configuration with what is kept of the discovered one over it, and the target is the endpoint in force |
| Launch.KeptExactly | exporter_runner.go:158-184 | with the marker, the discovered endpoint is kept only if the template's own is empty or "0" and the factory accepts it; without the marker everything is kept |
| Launch.ExpandedDiscovery | observerhandler.go:203-216 | expanding the discovered configuration leaves the expanded target, unless nil, and the marker; nothing when the template has an endpoint |
| Launch.EndpointPrecedence | exporter_runner.go:157-196 | marker, withdrawal and merge together give the start configuration: the template's endpoint, else the discovered one if accepted, else none; the marker set for the merge is not in what is kept |
| Launch.StartConfigExactly | observerhandler.go:184-225 | key by key what an exporter is started with: each entry of the template that lasts, as it expands and pruned; and, when the template has no endpoint, the expanded target unless it is nil or the factory has no such field |
| Launch.LastsExactly | config_expansion.go:168-189 | an entry lasts unless it is nil or a map with no value below it that is neither nil nor a map |
| Launch.MarkerSurvivesExactly | exporter_runner.go:163-164 | the marker key is in the start configuration if and only if the template's own configuration has a key of that name whose entry expands to neither nil nor a map that prunes to nothing |
| Launch.MarkerCanSurvive | exporter_runner.go:163-164 | a template with a number under that name keeps it |
| Launch.ResolveConfigs | observerhandler.go:178-222 | configurations are produced exactly when the template expands, keeps an endpoint it names and can discover one it does not name, and they merge to the start configuration |
| Launch.RoutingEnv | observerhandler.go:245-275 | the loop, in any order of the attributes, computes the routing properties of the next row |
| Launch.RoutingPropertiesExactly | observerhandler.go:245-275 | property by property: the environment's own where the template has no attribute of that name or it fails, and otherwise what the attribute evaluates to, written as it is if a string and rendered if not, nil included |
| ExporterMaps.ExporterMap.Put | exportermap.go:17-19 | appends to the endpoint's list, duplicates included, and changes no other |
| ExporterMaps.ExporterMap.Get | exportermap.go:22-24 | the endpoint's list, empty when there is none |
| ExporterMaps.ExporterMap.RemoveAll | exportermap.go:27-29 | forgets the endpoint and no other |
| ExporterMaps.ExporterMap.Values | exportermap.go:32-37 | every exporter as often as all lists together hold it |
| ExporterMaps.ExporterMap.Size | exportermap.go:40-45 | the sum of the lengths of all lists |
| History.HeldExactly | observerhandler.go:107-154 | what an endpoint holds is the exporters started for it since it was last removed or changed, each once, in start order |
| History.HeldOnce | observerhandler.go:60-154 | no exporter is held by two endpoints, and what is held is live |
| History.Conservation | observerhandler.go:107-135 | before shutdown, an exporter is stopped once if it was started and is no longer live, and not at all otherwise |
| History.FinalShutdown | observerhandler.go:157-176 | a shutdown that nothing follows leaves every started exporter stopped exactly once |
| History.StopsCounted | observerhandler.go:107-176 | over any run, the shutdown calls an exporter got are the removals of its endpoint and the shutdowns since its start that found it still held |
| History.StoppedExactly | observerhandler.go:107-176 | over any run, an exporter has been stopped in the end if and only if a removal of its endpoint or a shutdown came after its start |
| History.StoppedOnceExactly | observerhandler.go:157-176 | over any run, no exporter is stopped twice if and only if no endpoint that held one at a shutdown is removed later or holds it at a further shutdown |
| History.LateStartIsNotStopped | observerhandler.go:53-57 | an exporter started after the shutdown is not stopped |
| History.RemovalAfterShutdownStopsTwice | observerhandler.go:107-135 | a removal after the shutdown does stop an exporter twice |
| Lifecycle.AgreesAlways | observerhandler.go:60-176 | over every run of possible events, multimap, router, caches, runner and log agree |
| Lifecycle.AgreesRemovedNothing | observerhandler.go:116-134 | skipping the router for an endpoint that holds nothing loses nothing |
| Lifecycle.RegisteredExactly | observerhandler.go:241-277 | for each endpoint the multimap and the router hold the same exporters in order, each with the properties and type its template gives the endpoint it was started for |
| Lifecycle.StartedWasDue | observerhandler.go:78-89 | whatever was started was eligible, was started with the start configuration, and has at least one signal and only ones its template enables |
| Lifecycle.EligibleExactly | observerhandler.go:78-89 | a template is tried for an endpoint exactly when its rule is true of it, no string of its configuration fails, and its own endpoint lasts or, when it has none, the target does not fail |
| Lifecycle.AddShapeExactly | observerhandler.go:60-97 | the events of a notification of added endpoints fall into one stretch per endpoint, in order, with one attempt for each eligible template |
| Lifecycle.OneAttemptExactly | observerhandler.go:78-89 | each eligible template is tried once for the endpoint, none twice, and no other |
| Lifecycle.StartedIsHeldOrStopped | observerhandler.go:107-135 | before shutdown every started exporter is in the multimap once or stopped once, never both |
| Lifecycle.AllStoppedOnce | observerhandler.go:157-176 | the final shutdown completes the count: every exporter ever started has been stopped exactly once |
| Lifecycle.SizeIsCount | exportermap.go:40-45 | the multimap's size is the router's cached count |
| Lifecycle.RoutedAreRunning | router.go:129-235 | before shutdown, whatever the router can return was started and has not been stopped |
| Lifecycle.RoutedExactly | observerhandler.go:243-277 | a resource is routed to an exporter, once, exactly when it was started for an endpoint not removed since and the endpoint's properties with the template's attributes over them satisfy every rule |
| Handler.Runner.Start | exporter_runner.go:54-125 | the merged configuration; the calls that load it, ask for each enabled signal and start what was made, each with what came of it; and a handle not used before exactly when none of these fails |
| Handler.LaunchesExactly | exporter_runner.go:110-123 | in terms of the calls made: an exporter is launched exactly when its configuration loaded, no creation broke, one made a sub-exporter, and no start failed |
| Handler.FollowsExactly | exporter_runner.go:78-119 | a sub-exporter is asked for exactly for the enabled signals once the configuration has loaded, and started exactly if it was made and none broke; the exporter has the signals that were made |
| Handler.StartedInVain | exporter_runner.go:119-121 | a sub-exporter is started for an exporter that is not launched exactly when another one's start fails, and then nothing is left to stop it by |
| Handler.StartCanFailHalfway | exporter_runner.go:267-277 | as when logs start and metrics do not |
| Handler.Runner.Shutdown | exporter_runner.go:127-129 | one more shutdown call for the exporter, and one more error if it fails |
| Handler.ObserverHandler.constructor | exporter.go:92-101 | a handler over an empty router starts in agreement with an empty log |
| Handler.ObserverHandler.StartExporter | observerhandler.go:178-277 | one attempt for an eligible template, tried by the runner with the start configuration, which on success is registered with multimap and router, and none otherwise |
| Handler.ObserverHandler.StartMatching | observerhandler.go:78-89 | exactly one attempt for each eligible template, in any order |
| Handler.ObserverHandler.OnAddLocked | observerhandler.go:60-97 | for each endpoint in turn, one attempt per eligible template; endpoints without an environment are passed over |
| Handler.ObserverHandler.RemoveEndpoint | observerhandler.go:116-134 | the endpoint's exporters are stopped, whatever the calls return, and forgotten by router and multimap |
| Handler.ObserverHandler.OnRemoveLocked | observerhandler.go:107-135 | each endpoint is removed in turn |
| Handler.ObserverHandler.OnAdd | observerhandler.go:53-57 | everything stays in agreement, and the log grows by one attempt per eligible template of each endpoint, each a try of the runner with the start configuration, logged as a start exactly when it launched |
| Handler.ObserverHandler.OnRemove | observerhandler.go:100-104 | everything stays in agreement, and the log grows by the removals |
| Handler.ObserverHandler.OnChange | observerhandler.go:138-154 | every endpoint is removed before any is added again, the additions are tries of the runner as above, and everything stays in agreement |
| Handler.ObserverHandler.StopEverything | observerhandler.go:157-176 | every exporter the multimap holds gets one shutdown call, in any order and despite errors, and the failures counted are the calls that failed |
| Handler.ObserverHandler.Shutdown | observerhandler.go:157-176 | everything held is stopped, nothing is forgotten, everything stays in agreement, and an error is reported exactly when a shutdown call failed |
| Tracking.EndpointTracker.TrackOne | endpointtracker.go:67-77 | an endpoint already counted under its type changes nothing; otherwise it is recorded and moves from its old series, if any, to the new one |
| Tracking.EndpointTracker.Track | endpointtracker.go:56-79 | reports and series become what the operation makes of them, and totals and gauge are the number of pairs each series counts |
| Tracking.EndpointTracker.Untrack | endpointtracker.go:82-97 | the same for dropped endpoints; unknown ones are ignored and no series is lost |
| Tracking.EndpointTracker.RecordLocked | endpointtracker.go:100-111 | every series is written to the gauge, those at zero included |
| Tracking.TotalsTracked | endpointtracker.go:67-77 | moving one endpoint between series keeps each total equal to the number of pairs of its observer and endpoint type |
| Tracking.TotalsUntracked | endpointtracker.go:88-95 | so does dropping one |
| Tracking.RunCovered | endpointtracker.go:36-43 | in every reachable state each reported endpoint is counted under a series that was seen |
| Tracking.SeriesStay | endpointtracker.go:40-43 | a series that was seen stays, whatever operations follow |
| Tracking.TrackTwice | endpointtracker.go:52-55 | repeating a report changes nothing |
| Tracking.TrackedExactly | endpointtracker.go:67-77 | after a report the subscription has each endpoint under the type it last gave it |
| Tracking.TrackedOnly | endpointtracker.go:56-79 | a report changes nothing of other subscriptions and of endpoints not in it |
| Tracking.UntrackedExactly | endpointtracker.go:82-97 | a dropped endpoint is no longer reported by the subscription that dropped it, and nothing else changes |
| Tracking.SubscriptionsCommute | endpointtracker.go:56-97 | operations of different subscriptions commute |
| Dispatch.Component.FirstUnsupported | exporter_runner.go:253-265 | true on the first call for a signal, and only that signal's flag is set |
| Dispatch.ExporterCreator.WarnUnsupportedSignal | exporter.go:613-622 | a warning at most once per wrapped exporter and signal, remembered by that exporter and no other |
| Dispatch.ExporterCreator.GroupMatched | exporter.go:199-222 | a resource joins the batch of every component of its answer that handles the signal, as often as it is matched, and is accepted exactly if there is one; exactly its wrapped exporters that do not are warned about |
| Dispatch.ExporterCreator.GroupAll | exporter.go:186-226 | the batches, the unmatched resources and the lost records of a whole batch |
| Dispatch.GroupsHandle | exporter.go:366-388 | every group belongs to a component that handles the signal, so the second check before sending drops nothing |
| Dispatch.SendToMatched | exporter.go:228-243 | each group whose component handles the signal is exported once, in any order, any other is skipped, and errors count the exports that failed; the trace of exports grows by exactly the sends reported |
| Dispatch.SendMetricsToMatched | exporter.go:352-406 | the metrics variant, with its own branches, exports the same, and its trace grows by exactly the sends reported |
| Dispatch.Wire.Export | exporter.go:238 | an export leaves its component, its batch and its outcome at the end of the trace; nothing else adds to it |
| Dispatch.SendToDefaults | exporter.go:247-259 | every default exporter that takes the signal is offered the unmatched batch, in order, and the trace of exports grows by exactly those offers |
| Dispatch.OfferUnmatchedMetrics | exporter.go:408-464 | unmatched points are lost exactly when no default exporter took them, the case of no defaults included |
| Dispatch.ExporterCreator.ConsumeLogs | exporter.go:176-272 | each exporter gets the input filtered, in order and with multiplicity, to what matched it; the exports made, with their outcomes, are exactly those reported; the counter grows by the records nobody took; the exporters remembered as warned grow by exactly the matched ones that do not handle logs; an error is reported exactly when an export failed |
| Dispatch.ExporterCreator.ConsumeMetrics | exporter.go:276-490 | the same for metrics, through different branches |
| Dispatch.ExporterCreator.ConsumeTraces | exporter.go:502-595 | the same for traces |
| Dispatch.DeliveredExactly | exporter.go:186-259 | a delivery position by position: a component is sent to exactly when it has the signal and is in some answer, once, with its batch; each default exporter for the signal gets all that is unmatched exactly when something is |
| Dispatch.BatchExactly | exporter.go:199-222 | a batch is every resource as often as its answer holds the component, in order |
| Dispatch.WithFateExactly | exporter.go:192-226 | the resources with a fate are all of those, once each and in order |
| Dispatch.DefaultsExactly | exporter.go:250-252 | the default exporters for a signal are those that are not wrapped and have it, once each and in order |
| Dispatch.ChosenExactly | exporter.go:199-222 | "as often as, in order" read by positions: they go up, and each is taken as often as its number says |
| Dispatch.FateExactly | exporter.go:192-226 | a resource is unmatched exactly when its answer is empty and accepted exactly when some component in it handles the signal |
| Dispatch.FailuresExactly | exporter.go:238-241 | the errors counted are the exports that failed |
| Dispatch.AllCallForExactly | exporter.go:205-211 | a dispatch warns about exactly the wrapped exporters in its answers that lack the signal |
| Dispatch.CountResourceMetricPoints | exporter.go:661-685 | the data points of every metric of a resource, none for an empty metric |
| Dispatch.CountResourceLogRecords | exporter.go:643-649 | the log records of every scope of a resource |
| Dispatch.CountResourceSpans | exporter.go:652-658 | the spans of every scope of a resource |
| Dispatch.SizesExactly | exporter.go:643-685 | sizes add up scope by scope and metric by metric, from nothing for an empty resource |
| Dispatch.RecordsSplit | exporter.go:199-226 | every record is in a resource that is accepted, unsupported or unmatched, and in one only |
| Dispatch.Accounting | exporter.go:245-266 | records in are records lost, accepted or taken by a default exporter |
| Dispatch.FlowConservation | exporter.go:199-243 | records out to matched exporters are each resource's once per matched component that handles the signal, no more and no fewer |
| SharedInstances.SharedComponents.GetOrAdd | internal/sharedcomponent/sharedcomponent.go:30-42 | the live instance of a key, or a new one around what was created, and no other key changes |
| SharedInstances.SharedComponent.Start | internal/sharedcomponent/sharedcomponent.go:60-66 | the component has been started once, however often this is called, and an error is returned exactly by the call that got one |
| SharedInstances.SharedComponent.Shutdown | internal/sharedcomponent/sharedcomponent.go:69-76 | the component has been stopped once; only the first call evicts, and it evicts no other instance; an error is returned exactly by the call that got one |
| SharedInstances.SharedComponents.GetOrAddExporterCreator | factory.go:78-105 | one wrapper per live configuration; a surplus creator has its telemetry shut down, and a failed construction leaves no entry |
| Interleaving.AlwaysLocked | router.go:248-255 | in every reachable state each lock is held by the threads whose place says so, and a writer excludes all others |
| Interleaving.WritersTakeTurns | router.go:84-111 | while one thread has queued to write or writes, every other one that updates the router waits to queue |
| Interleaving.NoDeadlock | observernotify.go:47-64 | any number of threads that route, count, notify, shut down and call AddExporter and RemoveExporter directly never deadlock: all calls have returned or some thread can move |
| Interleaving.OnlyTheTrapDeadlocks | router.go:248-250 | whether or not Route takes its lock again, nothing stops every thread but a queued writer with a reader that waits for the lock it holds |
| Interleaving.TrapIsForEver | router.go:248-250 | and those two never move again, whatever the others do |
| Interleaving.ReentrantReadDeadlocks | router.go:248-250 | a Route that took its lock again would deadlock with one resource and one new endpoint |
| Interleaving.EveryScheduleEnds | observerhandler.go:53-57 | no schedule goes on for ever |
| Interleaving.EveryCallReturns | observernotify.go:47-64 | from wherever a schedule has led, going on finishes every call of every thread |
| Linearization.ReadersSeeWholeUpdates | router.go:84-111 | whoever holds the read lock sees completed updates only, of all writers, and caches that agree with the map |
| Linearization.AnsweredAtOneInstant | router.go:129-235 | under every schedule each Route returned the matching exporters of the map, and each Count their number, as of one instant, dated by the updates completed then |
| Linearization.AnsweredOnReturn | router.go:129-131 | the instant an answer is dated is the one at which its call returned |
| Linearization.AgreeWhenFree | observerhandler.go:107-135 | when the router is updated through the handler only: whenever the handler's mutex is free, the multimap holds for every endpoint what the router routes to, in order |
| Linearization.StoppedExactlyInRemoval | observerhandler.go:116-131 | when the router is updated through the handler only: before the final shutdown a routed exporter has been stopped if and only if its endpoint is being removed and the removal has got past it, and so never while the mutex is free |
| RemovalWindow.RouteReturnsStopped | observerhandler.go:117-130 | a schedule of one add, one removal and one Route in which routing returns an exporter that has been stopped |
| Linearization.Conserved | observerhandler.go:107-135 | under every schedule, before the final shutdown no exporter has been stopped twice, and with the mutex free each one started is held once or has been stopped once |
| Linearization.ClosingStopsTheRest | observerhandler.go:157-176 | under every schedule, the first shutdown leaves every exporter started so far stopped exactly once |
| Chronicle.OwnedAsLogged | observerhandler.go:60-176 | under every schedule, with the mutex free, the multimap and the shutdown calls are those of the schedule's log, shutdowns anywhere |
| Chronicle.StoppedAsLogged | observerhandler.go:60-176 | under every schedule, an exporter has been stopped exactly when its endpoint was removed or the handler shut down since its start, and stopped again exactly when it was held at a shutdown and that happened once more |
| Delivery.DeliveredToDue | exporter.go:176-272 | a consumed batch goes to exactly the exporters started with the signal for an endpoint, not removed since, whose properties match some resource, and each is sent the resources it matches, once and in order |
| Delivery.DueToExactly | exporter.go:199-222 | what an exporter is due is every resource it matches, once each and in order |
| Delivery.FateIsDue | exporter.go:192-226 | a resource is unmatched when no such exporter matches it, unsupported when none of them has the signal, and accepted otherwise |
| Delivery.AnswerIsDue | router.go:166-173 | the components a resource is answered with are those of the exporters that match it |

## Left out

- Logging, debug rendering, error texts and level checks: they do not affect results. A parse or expansion error is a kind of failure, not a text.
- The expression compiler, the rule language and its validation: evaluating a rule or an expression is an arbitrary function that may fail.
- Configuration unmarshalling, confmap's `::` key syntax, factory lookup and the reading of a template's signals: a configuration loads or does not, and the enabled signals are part of the template.
- Component factories: what a factory answers for a signal is arbitrary. A sub-exporter has no handle of its own, so conservation is about exporters that launched.
- The default exporters' lookup from the host, which the source does not implement: dispatch takes any list of them.
- Telemetry instruments: a gauge is a map of last-written values, a counter a running integer.
- Integer width: counts are unbounded integers, where the source has `int64` and `int`.
- A nil Go map or slice is not told apart from an empty one, and a nil value of a Go interface is `Nil`.
- Updates in place of configuration trees: templates and discovered configurations are values here, so that a start cannot change a stored template holds by construction. The source deletes two keys from a map it has just made.
- Agreement between the tracker and the handler: two subscriptions may report one endpoint, and the two updates take separate locks.
- Formatting of numbers in `toString`: rendering is an arbitrary function.
- The environment of an endpoint: whether it can be built, and what it holds, is part of the endpoint.
- The setLogger call, and the wiring of observers in Start: no results depend on them once observers call back.
- Dispatch.ExporterCreator.ConsumeLogs: the router's answers for the batch are a parameter, one per resource; the three source copies of the grouping loop, which differ only in types, are one generic method.
- Handler.ObserverHandler.OnAdd: each method of the class is one critical section; how sections of several threads interleave is in `Interleaving`, where a notification is the list of starts and removals it makes, and template expansion takes no step.
- Chronicle.OwnedAsLogged: the step model knows no template, configuration or signals, so the starts of its log carry none.
- Delivery.DeliveredToDue: each resource is routed against a history of its own that ends between two events of the handler; that a resource routed in the middle of one sees the router's map of the updates completed is in `Linearization`.
- Linearization.AgreeWhenFree: a direct call of AddExporter or RemoveExporter goes past the handler, so what the handler and the router share is stated for threads that make none; the runtime makes none.
- Interleaving.NoDeadlock: the final shutdown stops everything in one step, and RemoveExporter's loop over the per-type counts is one stage; both are inside a lock.
- SharedInstances.SharedComponents.GetOrAddExporterCreator: calls are taken one at a time, as the factory makes them, so the once-flags are plain booleans.
