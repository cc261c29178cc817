# OpsAgent: a verified model of its stateful cores

OpsAgent is a host agent written in Go with a Rust plugin runtime. Most of it is I/O; this
project models the parts that keep state or transform data, and proves what they are for.

- **Federation hub.** `ConfigTree`, `Names` and `ConfigDistributor` model the four-level config
  merge, `ConfigHeap` the same merge on shared maps and slices, `Groups` the label-rule index,
  `HubServer` registration and heartbeat, `Canary` staged rollouts.
- **Metric delivery.** `MetricCache` models the ring and the batch buffer, `Delivery` the client
  as a ledger of where every metric went, `Interleaving` the same actions under any schedule.
- **Hot reload.** `ConfigDiff`, `ConfigReload` and `ServerReload` model the comparison, the apply
  and rollback loops, and the reloaders that are installed.
- **Plugin routing.** `TaskRouting` is the lifecycle as a pure machine over the plugin table and
  the handler table; `PluginGateway` are the objects that run it.
- **Codecs and arithmetic.** `ShellQuoting`, `Base64`, `Chunking`, `Percentiles`, `Aggregation`,
  `PercentileKeys`, `Aggregators`, `Alerting`.

The pattern is the same throughout: what the source updates in place is a class whose methods are
proved to be steps of a pure specification, and the laws are proved about that specification, over
every input, every run or every schedule.

Where the code does not do what its names or documents suggest, the model follows the code, and
the exact condition is proved:

- the give-up branch behind `MaxRestarts` is unreachable, since the count is never incremented (`NeverGivesUp`);
- loading over a live plugin leaves handlers behind iff its old manifest has tasks the new one lacks, and startup can do so (`LoadKeepsRouting`, `RediscoveryOrphans`);
- reloading a live collector pipeline closes its output for good, so neither a failed nor a successful reload of a changed collector section leaves it as it was (`LivePipelineUndone`, `ReloadClosesOutput`, `RolledBackButClosed`; `FailedReloadUndone` for pipelines in any state);
- reloads start in agreement only if the prometheus path is configured; what follows otherwise is `FirstReload` (`StartupAgreement`);
- caching around a replay overwrites nothing iff what is cached between drains fits the ring (`LossFreeExactly`, `ReplayLossFree`; a losing schedule is `ReplayRaceOverwrites`);
- removing a leaf keeps the group index in agreement iff the leaf still lists all its groups (`RemoveLeaf`);
- a full-size result under the default limits is refused by the agent (`CappedResponseAccepted`, `FullDefaultResponseRefused`);
- SDK chunks decode one by one only for limits divisible by four (`SdkChunksDecodeAlone`);
- a negative alert duration fires one evaluation late (`TraceLawExactly`, `NegativeDuration`);
- merging is not associative; exactly when it is, is `OverlayAssociativeExactly` (`OverlayNotAssociative`), and for all trees the merge is characterised by paths (`OverlayLookup`).

`dafny verify dfyconfig.toml` checks the whole project.

## Model

| member | source | states |
|---|---|---|
| `ConfigTree.OverlayLookup` | internal/federation/config_distributor.go:86-103 | what a lookup finds after a merge, for every base, overlay and path: the overlay where it has a non-map on the way, the base where the overlay has nothing, the merge of both where both have maps |
| `ConfigTree.OverlayWins` | internal/federation/config_distributor.go:86-103 | a non-map value the overlay sets at any path is what the merge holds there |
| `ConfigTree.OverlaySilent` | internal/federation/config_distributor.go:86-103 | where the overlay has no value and no non-map above, the base is found unchanged |
| `ConfigTree.OverlaySelf` | internal/federation/config_distributor.go:86-103 | merging a tree with itself gives the tree, at any depth |
| `ConfigTree.OverlayIdempotent` | internal/federation/config_distributor.go:86-103 | merging the same overlay a second time changes nothing, at any depth |
| `ConfigTree.OverlayCovered` | internal/federation/config_distributor.go:86-103 | a merge gives just the overlay iff the overlay has every key of the base, wherever both are maps |
| `ConfigTree.OverlayAssociativeExactly` | internal/federation/config_distributor.go:86-103 | which two of three trees are merged first makes no difference iff nowhere a non-map stands between two maps of which the last misses a key of the first |
| `ConfigTree.OverlayNotAssociative` | internal/federation/config_distributor.go:86-103 | merging is not associative when a map meets a non-map: a whole family of triples |
| `Names.ExchangeSort` | internal/federation/config_distributor.go:44-51 | the nested in-place exchange loops leave an ascending rearrangement of the names |
| `Names.SortedCopy` | internal/federation/config_distributor.go:44-51 | the sorted copy is ascending and holds the same names with the same multiplicities |
| `ConfigDistributor.LastLayerWins` | internal/federation/config_distributor.go:32-65 | of all layers, the last that sets a non-map value at a path decides it when the later ones are silent there |
| `ConfigDistributor.AgentLevelWins` | internal/federation/config_distributor.go:58-63 | whatever non-map value an agent's own config sets at a path is in that agent's resolved config |
| `ConfigDistributor.UntouchedGlobalSurvives` | internal/federation/config_distributor.go:32-65 | a path on which region, groups and agent are silent keeps its global value through all four levels |
| `ConfigDistributor.SortedListingFold` | internal/federation/config_distributor.go:44-57 | merging an ascending listing with repetitions gives what merging each group of its set once gives |
| `ConfigDistributor.Distributor.ResolveConfig` | internal/federation/config_distributor.go:32-65 | the result is a function of the set of groups: reordering or repeating names cannot change it |
| `ConfigDistributor.Distributor.MergeGroups` | internal/federation/config_distributor.go:41-57 | sorting and merging the listed groups equals the fold over their set |
| `ConfigDistributor.Distributor.GetConfigVersion` | internal/federation/config_distributor.go:68-79 | two versions are equal exactly when the resolved configs are |
| `ConfigDistributor.Distributor.UpdateLevels` | internal/federation/config_distributor.go:82-84 | later resolutions use exactly the new levels |
| `Groups.GroupsForMembers` | internal/federation/group.go:33-42 | a name is listed exactly when some rule of that name matches, a missing label reading as "" |
| `Groups.GroupEngine.Evaluate` | internal/federation/group.go:33-42 | the matching rules' names, in rule order; a group is listed iff a rule of that name matches the merged labels |
| `Groups.Without` | internal/federation/group.go:53-61 | deleting a member removes that pair only, and the group entry with its last member |
| `Groups.GroupEngine.LeafGroups` | internal/federation/group.go:124-132 | exactly the groups the index lists the agent under |
| `Groups.GroupEngine.UpdateLeaf` | internal/federation/group.go:45-72 | the index again holds exactly the pairs (group, agent) where a rule of that name matches; the leaf lists its groups; nothing else moves |
| `Groups.GroupEngine.Prune` | internal/federation/group.go:53-61 | the agent leaves the old groups no longer matched and every other pair stays |
| `Groups.GroupEngine.Insert` | internal/federation/group.go:62-69 | the agent joins the new groups and every other pair stays |
| `Groups.GroupEngine.GetGroupMembers` | internal/federation/group.go:96-106 | ascending, without repetition, exactly the tracked agents whose labels a rule of that name matches |
| `HubServer.RunKeepsCapacity` | internal/federation/server.go:42-47 | in every state of every run the hub holds at most MaxLeaves leaves and tracks only registered ones |
| `HubServer.KnownIffRegistered` | internal/federation/server.go:38-84 | a leaf is known exactly when some registration of it was accepted earlier in the run |
| `HubServer.LeafAfterRun` | internal/federation/server.go:38-104 | after any run a leaf's record is what its latest accepted registration and its later non-empty heartbeats say |
| `HubServer.UpdateFlagLaw` | internal/federation/server.go:79-104 | over any run the update flag is raised iff the config resolved now, from the labels reported since, differs from the one resolved at the latest accepted registration |
| `HubServer.StepOnLeaf` | internal/federation/server.go:79-104 | only an accepted registration replaces a leaf; only its own non-empty heartbeat relabels it |
| `HubServer.Server.IndexNeverDrifts` | internal/federation/server.go:38-104 | in every valid server state the group index agrees with recomputing every tracked leaf's groups |
| `HubServer.Server.constructor` | internal/federation/server.go:30-36 | a new hub is empty and in agreement |
| `HubServer.Server.CheckVersion` | internal/federation/server.go:96-103 | the answered version is the hash of the config resolved now; the flag compares it with the registered one |
| `HubServer.Server.Enter` | internal/federation/server.go:62-66 | files and indexes the leaf and stamps it with the version of the config its groups resolve to |
| `HubServer.Server.Install` | internal/federation/server.go:60-67 | an accepted registration is the Register step of the protocol machine, with leaf, push channel and record for the same agents |
| `HubServer.Server.HandleRegister` | internal/federation/server.go:38-77 | refused exactly when the hub is full (also for a leaf it already knows), otherwise one Register step, with the groups and version that were resolved |
| `HubServer.Server.Relabel` | internal/federation/server.go:91-94 | new labels re-index the leaf: one Heartbeat step |
| `HubServer.Server.Reindex` | internal/federation/server.go:91-94 | the leaf carries the new labels and the groups they give it; other leaves are untouched |
| `HubServer.Server.HandleHeartbeat` | internal/federation/server.go:79-104 | unknown leaves are refused; otherwise one Heartbeat step, answered with the current version and the update flag |
| `HubServer.Untrack` | internal/federation/group.go:75-93 | removing an agent from the engine leaves the hub valid and its registration in place |
| `HubServer.Serve` | internal/federation/server.go:38-104 | any sequence of register, heartbeat, level update and removal calls drives the objects through the run of the protocol machine and ends with an agreeing index |
| `MetricCache.MetricCache.constructor` | internal/grpcclient/cache.go:21-29 | a fresh ring is empty; a non-positive size becomes 1 |
| `MetricCache.MetricCache.Add` | internal/grpcclient/cache.go:32-45 | the ring afterwards holds the last maxSize of its contents and the new metric |
| `MetricCache.MetricCache.Drain` | internal/grpcclient/cache.go:48-68 | returns the contents oldest first and leaves an empty ring of nil slots |
| `MetricCache.MetricCache.Len` | internal/grpcclient/cache.go:71-75 | the number of metrics held |
| `MetricCache.MetricCache.HeadIsModulo` | internal/grpcclient/cache.go:32-45 | head = (tail + count) mod maxSize, and exactly the non-live slots are nil |
| `MetricCache.RingOverwrite` | internal/grpcclient/cache.go:32-45 | writing over the oldest slot of a full ring drops the oldest and appends the newest |
| `MetricCache.RingAdd` | internal/grpcclient/cache.go:32-45 | writing the head slot of a ring with room appends |
| `MetricCache.HistoryLaw` | internal/grpcclient/cache.go:32-68 | after any history of Add and Drain the contents are the last maxSize metrics added since the last Drain |
| `MetricCache.Replay` | internal/grpcclient/cache.go:32-68 | running the ring through any history returns at each Drain exactly what the history law says |
| `MetricCache.Buffer.Add` | internal/collector/buffer.go:33-47 | drop-oldest keeps the newest metrics, drop-newest the oldest |
| `MetricCache.Buffer.Batch` | internal/collector/buffer.go:50-63 | the batch is the next min(batchSize, length) metrics in order, the rest stays |
| `MetricCache.BatchAll` | internal/collector/buffer.go:50-63 | repeated batches return the whole buffer in order |
| `MetricCache.DrainBoth` | internal/grpcclient/cache.go:32-68 | on the same additions the ring and a drop-oldest buffer emptied batch by batch give the same sequence |
| `Delivery.RunConserves` | internal/grpcclient/client.go:109-133 | over every run of submit, connect-and-replay, disconnect and flush with any send failing: submitted = delivered + cached + overwritten + left over, as multisets |
| `Delivery.StepConserves` | internal/grpcclient/client.go:389-418 | each step keeps the balance of every metric and the bound on the ring |
| `Delivery.NoDoubleDelivery` | internal/grpcclient/client.go:389-418 | if the submitted metrics are distinct, none is ever delivered twice |
| `Delivery.NothingOverwrittenWithinCapacity` | internal/grpcclient/client.go:109-133 | while no more metrics were submitted than the ring holds, none is overwritten |
| `Delivery.ReplayKeepsOrder` | internal/grpcclient/client.go:389-418 | with a stream, what was delivered followed by what is cached again is what was drained, and nothing is overwritten or discarded |
| `Delivery.SentBound` | internal/grpcclient/client.go:404-417 | the cut where sending stops lies within the drained metrics |
| `Delivery.Client.constructor` | internal/grpcclient/client.go:66-88 | a fresh client is disconnected and empty; a non-positive cache size becomes 10000 |
| `Delivery.Client.SendMetrics` | internal/grpcclient/client.go:109-133 | one Submit step: delivered when connected with a stream and Send succeeds, cached otherwise |
| `Delivery.Client.CacheEach` | internal/grpcclient/client.go:114-131 | caching one by one equals keeping the last maxSize of everything, with the rest overwritten |
| `Delivery.Client.SendInBatches` | internal/grpcclient/client.go:404-417 | batches of 100 are delivered in order up to the first that does not go |
| `Delivery.Client.ReplayCache` | internal/grpcclient/client.go:389-418 | one replay: the sent part is delivered, the rest is cached again in order; without a stream all of it is discarded |
| `Delivery.Client.DoConnect` | internal/grpcclient/client.go:288-302 | one Connect step |
| `Delivery.Client.SetDisconnected` | internal/grpcclient/client.go:497-506 | marks the connection lost and keeps everything else |
| `Delivery.Client.Close` | internal/grpcclient/client.go:484-494 | drops the stream and keeps everything else |
| `Delivery.Client.FlushAndStop` | internal/grpcclient/client.go:510-564 | one Flush step: delivered plus remaining is, in order, what was delivered plus what was cached |
| `Interleaving.ScheduleAccounts` | internal/grpcclient/client.go:109-133 | under every interleaving of the atomic actions of all goroutines each submitted metric is in the ledger, in the ring or held by a goroutine, with its multiplicity |
| `Interleaving.ActAccounts` | internal/grpcclient/client.go:389-418 | each atomic action keeps that account |
| `Interleaving.UninterruptedCaching` | internal/grpcclient/client.go:411-415 | a goroutine left alone caches what the one-step model says |
| `ConfigDiff.DiffGRPC` | internal/config/diff.go:157-181 | reports nothing exactly when the sections are equal |
| `ConfigDiff.DiffExecutor` | internal/config/diff.go:183-195 | reports nothing exactly when the sections are equal |
| `ConfigDiff.DiffHost` | internal/config/diff.go:217-234 | reports nothing exactly when the hosts are equal, and only under that host's index |
| `ConfigDiff.DiffGateway` | internal/config/diff.go:197-238 | reports nothing exactly when the sections are equal; with equally many hosts, index i is reported iff host i differs |
| `ConfigDiff.Diff` | internal/config/diff.go:28-96 | fails exactly on an invalid config; the change set says which reloadable sections differ; refusals are empty exactly when all frozen fields are equal |
| `ConfigReload.AllOrNothing` | internal/config/reload.go:64-109 | under the reloader contract, after any Apply either the new config is current and all subsystems agree with it, or config and world are exactly as before |
| `ConfigReload.FailureRestores` | internal/config/reload.go:91-105 | a failing sequence of reloaders, unwound in reverse, gives back the world it started from |
| `ConfigReload.SuccessAgrees` | internal/config/reload.go:91-108 | after a successful sequence every subsystem, skipped ones included, agrees with the new config |
| `ConfigReload.FrozenForever` | internal/config/reload.go:77-108 | over any run of Apply, whatever the reloaders do, no frozen field changes and no invalid config is adopted |
| `ConfigReload.RunsStayInAgreement` | internal/config/reload.go:64-109 | under the contract every run of Apply ends with all subsystems agreeing with the current config |
| `ConfigReload.RefusalBlocks` | internal/config/reload.go:91-105 | a due reloader whose Apply cannot succeed makes the whole Apply fail, wherever it stands |
| `ConfigReload.ConfigReloader.Apply` | internal/config/reload.go:64-109 | the loop with its list of applied reloaders computes the nested apply-then-undo specification |
| `ConfigReload.ConfigReloader.RollbackAll` | internal/config/reload.go:96-101 | the reverse loop rolls the applied reloaders back last first |
| `ServerReload.ServerReloadersMeetContract` | internal/server/reload.go:25-84 | the auth, prometheus and reporter reloaders meet every clause of the reloader contract |
| `ServerReload.AuthRefusesOnlyDisabling` | internal/server/reload.go:25-40 | on a validated config the auth reloader refuses exactly the disabling of auth |
| `ServerReload.AuthStaysEnabled` | internal/server/reload.go:25-28 | with the auth reloader anywhere in the list, no run of reloads disables auth once enabled |
| `ServerReload.Server.constructor` | internal/server/server.go:67-70 | a new server takes the configured options with the default path |
| `ServerReload.Server.UpdateAuth` | internal/server/server.go:139-143 | sets the auth options and nothing else |
| `ServerReload.Server.UpdatePrometheus` | internal/server/server.go:146-150 | sets the prometheus options and nothing else |
| `ServerReload.Server.ApplyAuth` | internal/server/reload.go:25-40 | is the apply step of the reloader the contract is proved for |
| `ServerReload.Server.RollbackAuth` | internal/server/reload.go:43-49 | is the rollback step of that reloader |
| `ServerReload.Server.ApplyPrometheus` | internal/server/reload.go:67-74 | is the apply step of the prometheus reloader |
| `TaskRouting.Slash` | internal/pluginruntime/gateway.go:435-446 | the first slash, or the length when there is none |
| `TaskRouting.SplitJoin` | internal/pluginruntime/gateway.go:435-446 | splitting a joined name gives back plugin and task, whatever the task is called |
| `TaskRouting.JoinSplit` | internal/pluginruntime/manifest.go:138-140 | joining a split name gives back the name |
| `TaskRouting.ParseOfFull` | internal/pluginruntime/gateway.go:435-446 | a valid plugin's task name parses back to plugin and task, unless the task is empty |
| `TaskRouting.StepKeeps` | internal/pluginruntime/gateway.go:626-704 | each lifecycle operation keeps both tables in agreement |
| `TaskRouting.StopKeeps` | internal/pluginruntime/gateway.go:404-432 | stopping removes exactly the plugin's own handlers and its client |
| `TaskRouting.LoadKeepsRouting` | internal/pluginruntime/gateway.go:333-401 | a load keeps the agreement iff no live plugin of that name has a task the new manifest lacks |
| `TaskRouting.StopAllKeeps` | internal/pluginruntime/gateway.go:161-182 | stopping everything in any order leaves exactly the built-ins |
| `TaskRouting.BuiltinsUnqualified` | internal/task/task.go:10-21 | no built-in name contains a slash, so no plugin can replace or remove a built-in handler |
| `TaskRouting.DispatchReachesPlugin` | internal/pluginruntime/gateway.go:204-243 | a dispatched task reaches a plugin iff that plugin runs and declares the non-empty task |
| `TaskRouting.RegisterAllHandlers` | internal/app/agent.go:944-953 | the load callback sets exactly the plugin's own task names |
| `TaskRouting.UnregisterAllHandlers` | internal/app/agent.go:954-960 | the unload callback removes exactly the plugin's own task names |
| `PluginGateway.Dispatcher.Register` | internal/task/dispatcher.go:24-28 | sets one handler, replacing any earlier one |
| `PluginGateway.Dispatcher.Unregister` | internal/task/dispatcher.go:31-35 | removes one handler |
| `PluginGateway.Dispatcher.RegisterBuiltIns` | internal/app/agent.go:812-902 | leaves exactly the ten built-in handlers |
| `PluginGateway.Dispatcher.OnLoaded` | internal/app/agent.go:944-953 | registers every task of the plugin and nothing else |
| `PluginGateway.Dispatcher.OnUnloaded` | internal/app/agent.go:954-960 | unregisters every task of the plugin and nothing else |
| `PluginGateway.Gateway.constructor` | internal/pluginruntime/gateway.go:108-129 | starts in the initial state; a non-positive restart limit becomes 3 |
| `PluginGateway.Gateway.LoadPlugin` | internal/pluginruntime/gateway.go:333-401 | one Load step; succeeds iff the name is valid and the process came up |
| `PluginGateway.Gateway.File` | internal/pluginruntime/gateway.go:372-388 | the plugin is running with a client under its name and every other entry is untouched |
| `PluginGateway.Gateway.StopPlugin` | internal/pluginruntime/gateway.go:404-432 | one Stop step on both tables |
| `PluginGateway.Gateway.SetStatus` | internal/pluginruntime/gateway.go:315-317 | changes that plugin's status only |
| `PluginGateway.Gateway.Reload` | internal/pluginruntime/gateway.go:271-282 | one Reload step; succeeds iff the plugin is known, its name is valid and it starts |
| `PluginGateway.Gateway.Enable` | internal/pluginruntime/gateway.go:285-302 | one Enable step; succeeds iff the plugin is disabled and loads |
| `PluginGateway.Gateway.Disable` | internal/pluginruntime/gateway.go:305-320 | one Disable step; succeeds iff the plugin is known |
| `PluginGateway.Gateway.CheckOne` | internal/pluginruntime/gateway.go:632-703 | one Ping step; says whether the context ended during the backoff |
| `PluginGateway.Gateway.HealthCheckAll` | internal/pluginruntime/gateway.go:626-704 | a run of Ping steps, each plugin once, all of them unless the context ended during a backoff |
| `PluginGateway.Gateway.ManifestRemoved` | internal/pluginruntime/watcher.go:93-103 | one removal step: stopped, then forgotten |
| `PluginGateway.Gateway.StopGateway` | internal/pluginruntime/gateway.go:161-182 | stops every plugin and forgets them all: one Shutdown step |
| `ShellQuoting.ReadEscaped` | internal/gateway/proxy/ssh.go:74-76 | reading an escaped body inside single quotes yields the original text, or fails iff it holds a NUL |
| `ShellQuoting.ReadQuoted` | internal/gateway/proxy/ssh.go:74-76 | a quoted word is read back whole by the POSIX word splitter |
| `ShellQuoting.CommandLineRoundTrip` | internal/gateway/proxy/ssh.go:90-94 | splitting the assembled line gives back command and arguments, empty strings and embedded quotes included; it fails iff some word holds a NUL |
| `ShellQuoting.BuildCommand` | internal/gateway/proxy/ssh.go:90-94 | the builder loop produces a line with that round trip |
| `Base64.DecodeEncode` | rust-runtime/src/chunking.rs:41-41 | every byte string is recovered from its padded encoding (section 4 of RFC 4648) |
| `Base64.EncodeLength` | internal/pluginruntime/client.go:102-102 | the encoded length is four characters per started block of three bytes |
| `Base64.EncodeAppend` | sdk/plugin/chunking.go:11-40 | encoding splits at any multiple of three bytes |
| `Chunking.ChunkOutput` | rust-runtime/src/chunking.rs:6-48 | decoding the chunks in order gives the capped output (uncapped when disabled); numbered from 1, eof on exactly the last, no part above the chunk size |
| `Chunking.CutAndEncode` | rust-runtime/src/chunking.rs:30-47 | the loop encodes exactly the successive pieces |
| `Chunking.PiecesConcat` | rust-runtime/src/chunking.rs:30-47 | the pieces joined are the whole |
| `Chunking.PiecesSizes` | rust-runtime/src/chunking.rs:30-47 | every piece but the last is full, and the last is not empty |
| `Chunking.CarriedPartsDecode` | rust-runtime/src/chunking.rs:34-45 | chunks carrying encoded parts decode to the parts joined |
| `Chunking.SdkChunkOutput` | sdk/plugin/chunking.go:11-40 | no chunks iff the encoding fits; otherwise the joined text decodes to the whole output, numbered from 0, eof on exactly the last, no chunk above the limit |
| `Chunking.ValidateChunkSize` | internal/pluginruntime/client.go:96-109 | the early exit never changes the verdict: accepted iff no limit or the whole estimate is within it |
| `Chunking.EstimateSlack` | internal/pluginruntime/client.go:96-109 | the estimate is never below the decoded total, at most two bytes per chunk above, and equal iff every part is a multiple of three |
| `Chunking.EstimateOfPieces` | internal/pluginruntime/client.go:96-109 | the estimate in closed form: full chunks and remainder, each rounded up to three bytes |
| `Chunking.CappedResponseAccepted` | internal/pluginruntime/client.go:96-109 | a response capped by the runtime is accepted iff its rounded-up full chunks and remainder fit |
| `Chunking.FullDefaultResponseRefused` | internal/config/config.go:404-405 | with the default limits a full-size result is refused: the estimate is 64 bytes over |
| `Percentiles.SortPermutes` | internal/collector/aggregators/percentile/percentile.go:137-137 | sorting rearranges the values |
| `Percentiles.SortIgnoresOrder` | internal/collector/aggregators/percentile/percentile.go:137-137 | equal multisets sort to the same sequence |
| `Percentiles.AtIsLinear` | internal/collector/aggregators/percentile/percentile.go:175-181 | the order statistic at a whole index, the straight line between neighbours in between |
| `Percentiles.AtMonotone` | internal/collector/aggregators/percentile/percentile.go:175-181 | the interpolated value rises with the index, across segments |
| `Percentiles.PercentileMonotone` | internal/collector/aggregators/percentile/percentile.go:168-182 | a higher percentile is never a smaller value |
| `Percentiles.PercentileBounds` | internal/collector/aggregators/percentile/percentile.go:168-182 | p = 0 is the minimum, p = 100 the maximum, every p in between |
| `Aggregation.MinMaxBound` | internal/collector/aggregators/minmax/minmax.go:84-94 | minimum and maximum are among the samples and bound them all |
| `Aggregation.AvgBound` | internal/collector/aggregators/avg/avg.go:101-121 | the average lies between minimum and maximum, and times the count is the sum |
| `Aggregation.SortedExtremes` | internal/collector/aggregators/percentile/percentile.go:137-137 | the first and last of the sorted values are the minimum and the maximum |
| `Aggregation.TotalIsSum` | internal/collector/aggregators/sum/sum.go:64-115 | the running total, integer or float, is the sum of the samples |
| `Aggregation.StatisticsAgree` | internal/collector/aggregators/percentile/percentile.go:168-182 | for one field's samples: min <= avg <= max, min <= percentile <= max, sum = avg * count |
| `Aggregation.SameFieldsReported` | internal/collector/aggregators/minmax/minmax.go:111-136 | all four aggregators report on exactly the fields that received a number |
| `Aggregation.AggregatorsAgree` | internal/collector/aggregators/avg/avg.go:101-121 | after the same additions, for every reported field: min <= avg <= max, min <= percentile <= max, sum = avg * count, whatever the int/float mix and however often a field is listed |
| `Aggregation.PercentileIgnoresOrder` | internal/collector/aggregators/percentile/percentile.go:123-147 | a percentile depends only on the multiset of added values |
| `Aggregators.MinMax.Add` | internal/collector/aggregators/minmax/minmax.go:64-108 | every table entry again follows all samples seen since the last reset; name and tags come from the first matching metric |
| `Aggregators.MinMax.Push` | internal/collector/aggregators/minmax/minmax.go:111-136 | emits the minimum and maximum of each field's samples, only for fields that have some |
| `Aggregators.MinMax.Reset` | internal/collector/aggregators/minmax/minmax.go:139-147 | forgets all samples |
| `Aggregators.Avg.Add` | internal/collector/aggregators/avg/avg.go:64-98 | every table entry again follows all samples seen since the last reset; name and tags come from the first matching metric |
| `Aggregators.Avg.Push` | internal/collector/aggregators/avg/avg.go:101-121 | emits the average of each field's samples |
| `Aggregators.Avg.Reset` | internal/collector/aggregators/avg/avg.go:124-132 | forgets all samples |
| `Aggregators.Summer.Add` | internal/collector/aggregators/sum/sum.go:64-115 | every table entry again follows all samples seen since the last reset; name and tags come from the first matching metric |
| `Aggregators.Summer.Push` | internal/collector/aggregators/sum/sum.go:118-138 | emits the total of each field's samples, an integer iff only integers were added |
| `Aggregators.Summer.Reset` | internal/collector/aggregators/sum/sum.go:141-149 | forgets all samples |
| `Aggregators.PercentileAggregator.Add` | internal/collector/aggregators/percentile/percentile.go:87-120 | every table entry again follows all samples seen since the last reset; name and tags come from the first matching metric |
| `Aggregators.PercentileAggregator.Push` | internal/collector/aggregators/percentile/percentile.go:123-147 | emits every percentile of each field's samples under its rendered name; sorting in place keeps later additions correct |
| `Aggregators.PercentileAggregator.Reset` | internal/collector/aggregators/percentile/percentile.go:150-157 | forgets all samples |
| `Aggregators.Summer.Accumulate` | internal/collector/aggregators/sum/sum.go:74-102 | a float promotes an integer total, an integer never demotes a float one, and no other field changes |
| `Aggregators.TotalStep` | internal/collector/aggregators/sum/sum.go:74-102 | adding a sample to the total of the earlier ones gives the total of all, kind included |
| `Aggregators.TracksStep` | internal/collector/aggregators/minmax/minmax.go:69-95 | a table that follows the samples still does after one listed field, repeated listings included |
| `Alerting.PhaseLaw` | internal/alerting/rules.go:54-78 | for every duration and any order of times: OK, pending or firing in terms of the current unbroken met run |
| `Alerting.TraceLaw` | internal/alerting/rules.go:54-78 | for non-decreasing times and duration >= 0: firing iff the last evaluation was met and the duration has passed since the run's first |
| `Alerting.NegativeDuration` | internal/alerting/rules.go:54-78 | a negative duration fires exactly from the second evaluation of a met run |
| `Alerting.TraceLawExactly` | internal/alerting/rules.go:54-78 | the trace law holds of all ordered histories iff the duration is not negative |
| `Alerting.AlertsSeparated` | internal/alerting/engine.go:98-113 | between two alerts of one rule there is an unmet evaluation |
| `Alerting.AlertLaw` | internal/alerting/engine.go:98-113 | the alert comes at the first due evaluation of a met run, and only there |
| `Alerting.RaisedSeparated` | internal/alerting/engine.go:65-116 | over any feed of metrics, two alerts of one rule have between them a round where its metric is missing or its condition false |
| `Alerting.RunStart` | internal/alerting/rules.go:54-78 | where the unbroken met run at the end of a history starts |
| `Alerting.CheckedIsNext` | internal/alerting/engine.go:84-113 | checking a rule against its memory equals recomputing it from all rounds |
| `Alerting.ReadMetric` | internal/alerting/engine.go:69-80 | one metric's numeric fields go over the earlier values, in any key order |
| `Alerting.ReadMetrics` | internal/alerting/engine.go:66-80 | a key holds the reading of the last metric that has a number under it, and only such keys exist |
| `Alerting.EvaluatedRule.ConditionMet` | internal/alerting/rules.go:54-78 | one transition of the rule machine |
| `Alerting.EvaluatedRule.Check` | internal/alerting/engine.go:85-113 | one rule in one round: a missing metric counts as unmet and keeps the last value; an alert exactly on the rising edge |
| `Alerting.Engine.constructor` | internal/alerting/engine.go:35-57 | every rule starts OK |
| `Alerting.Engine.Evaluate` | internal/alerting/engine.go:65-116 | every rule remembers exactly what all rounds imply; the alerts are, in rule order, those whose rising edge is this round |
| `Alerting.Watch` | internal/alerting/engine.go:65-116 | over any feed, each round's alerts are determined by the feed so far alone |
| `Canary.ValidateStages` | internal/config/config.go:720-727 | the check of neighbours accepts exactly percentages 1..100 that ascend strictly throughout |
| `Canary.SelectSubset` | internal/federation/canary.go:41-58 | fails iff the index is out of range; otherwise a prefix, empty iff there are no agents |
| `Canary.RoundNearest` | internal/federation/canary.go:50-50 | the rounded share is the nearest count, halves going up |
| `Canary.CountIsNearest` | internal/federation/canary.go:50-56 | the count is within half an agent of the percentage, unless raised to one |
| `Canary.SelectsAllExactly` | internal/federation/canary.go:50-56 | a stage selects everyone iff at most half an agent would be left over, or there is only one; 100% always does |
| `Canary.CountMonotone` | internal/federation/canary.go:50-56 | a higher percentage never selects fewer |
| `Canary.StagesNest` | internal/federation/canary.go:41-58 | with admitted stages each subset is non-empty and a prefix of every later one, and a 100% stage reaches everyone |
| `ConfigHeap.DeepCopy` | internal/federation/config_distributor.go:116-129 | the copy of a tree of shared maps and slices has the same value and is made of new maps and slices only |
| `ConfigHeap.DeepCopySlice` | internal/federation/config_distributor.go:120-125 | the copied slice is new, and so is everything in it |
| `ConfigHeap.DeepCopyMap` | internal/federation/config_distributor.go:105-114 | the copied map is new, and so is everything in it, in whatever order the keys come |
| `ConfigHeap.DeepMerge` | internal/federation/config_distributor.go:86-103 | the merge loop over keys in any order computes exactly the path-wise overlay and shares no map or slice with either input |
| `ConfigHeap.MergeKey` | internal/federation/config_distributor.go:88-101 | one key: copied when it is new or not a map on both sides, merged otherwise, with nothing shared |
| `ConfigHeap.MergeLayers` | internal/federation/config_distributor.go:32-65 | merging the levels over each other gives the resolved value in a tree that shares nothing with any level |
| `Groups.GroupEngine.RemoveLeaf` | internal/federation/group.go:75-93 | the agent leaves exactly the groups its leaf lists and is no longer tracked; the index still agrees iff that list names every group the agent was indexed under |
| `Groups.GroupEngine.ListsItsGroups` | internal/federation/group.go:70-71 | a leaf as UpdateLeaf left it lists every group it is indexed under |
| `Interleaving.LossFreeExactly` | internal/grpcclient/client.go:389-418 | under any schedule of any number of goroutines nothing is overwritten iff at no moment more metrics were cached since the last drain than the ring holds |
| `Interleaving.LossFreeBetweenDrains` | internal/grpcclient/client.go:109-133 | without a drain in between, nothing is overwritten iff what is cached plus the cachings that really happen fit the ring |
| `Interleaving.ReplayLossFree` | internal/grpcclient/client.go:389-418 | after a replay has drained the ring, nothing is overwritten until the next drain iff its re-caching and everybody else's caching together fit the ring |
| `Interleaving.ActOverwrites` | internal/grpcclient/cache.go:32-45 | only caching into a full ring overwrites, one metric at a time |
| `Interleaving.ReplayRaceOverwrites` | internal/grpcclient/client.go:389-418 | a schedule with one slot where a newer metric is lost to the older one put back |
| `Delivery.Drive` | internal/grpcclient/client.go:109-133 | any sequence of calls on a new client object is the run of the machine, so the object's own ledger balances |
| `Delivery.Call` | internal/grpcclient/client.go:109-133 | each call on the object is one step |
| `ConfigDiff.TrimSpaceLaw` | internal/config/config.go:528-528 | trimming cuts out one stretch: only white space is cut, and none is left at either end |
| `ConfigDiff.DiffGatewayScalars` | internal/config/diff.go:197-212 | reports nothing exactly when everything but the hosts is equal |
| `ServerReload.FailedReloadUndone` | internal/collector/scheduler.go:140-232 | with the collector reloader installed, a failed reload leaves everything as it was iff the collector section did not change, or the pipeline was already closed and empty and rebuilds as it was |
| `ServerReload.LivePipelineUndone` | internal/collector/scheduler.go:140-232 | while the pipeline's output is open, a failed reload is undone iff the collector section did not change |
| `ServerReload.RolledBackButClosed` | internal/collector/scheduler.go:98-102 | replacing an input and disabling auth in one config: auth refuses, the pipeline is rebuilt as before, its output stays closed |
| `ServerReload.ReloadClosesOutput` | internal/collector/scheduler.go:98-102 | a successful reload keeps a live pipeline's output open iff the collector section did not change |
| `ServerReload.InstalledOutcome` | internal/app/agent.go:387-396 | behind the collector only auth can fail, and then nothing was changed |
| `ServerReload.StartupAgreement` | internal/server/server.go:67-70 | the agreement reloads start from holds at startup iff the prometheus path is configured, because New fills in a default |
| `ServerReload.FirstReload` | internal/server/reload.go:25-84 | the first reload after startup, path configured or not: a failure is undone; a success ends in agreement iff the path was configured or the prometheus section changed |
| `ServerReload.Server.RollbackPrometheus` | internal/server/reload.go:77-84 | is the rollback step of the prometheus reloader |
| `TaskRouting.RoutingAgreement` | internal/pluginruntime/gateway.go:271-432 | in every state reached without orphaning a handler (as with distinct manifest names) a handler exists exactly for the built-ins and for the tasks of plugins with a client, and a running plugin has a client |
| `TaskRouting.RediscoveryOrphans` | internal/pluginruntime/gateway.go:131-152 | two discovered manifests of one name, which startup accepts, leave a handler behind |
| `TaskRouting.SoundAlways` | internal/pluginruntime/gateway.go:131-432 | in every run whatever, entries are filed under their own valid name, running ones have a client, stopped and disabled ones none, and restart counts are zero |
| `TaskRouting.NeverGivesUp` | internal/pluginruntime/gateway.go:626-704 | in every run whatever the give-up branch behind MaxRestarts is unreachable: after a failed ping the plugin is in error iff the restart itself failed |
| `PluginGateway.Perform` | internal/pluginruntime/gateway.go:271-432 | each operation on the objects is one step of the routing machine |
| `PluginGateway.Operate` | internal/pluginruntime/gateway.go:161-432 | any sequence of operations, shutdowns included, drives both object tables through the run of the routing machine, and every shutdown visits every plugin |
| `Chunking.SdkChunksDecodeAlone` | sdk/plugin/chunking.go:11-40 | decoding SDK chunks one by one and joining gives the output iff the limit is a multiple of four; otherwise it fails |
| `Chunking.AlignedPieces` | sdk/plugin/chunking.go:11-40 | cutting the text at a multiple of four is encoding the bytes cut accordingly |
| `Chunking.AcceptedIsWithinLimit` | internal/pluginruntime/client.go:96-109 | an accepted response of the runtime really is within the limit |
| `Chunking.AnyAcceptedIsWithinLimit` | internal/pluginruntime/client.go:96-109 | the check is sound for every plugin: whatever decodes and is accepted is within the limit, and whatever is two bytes per chunk below it is accepted |
| `PercentileKeys.KeyInjective` | internal/collector/aggregators/percentile/percentile.go:139-139 | different fields or percentiles are never reported under one name |
| `PercentileKeys.RenderedAt` | internal/collector/aggregators/percentile/percentile.go:138-141 | rendering the names loses no entry and adds none |
| `Aggregators.PercentileAggregator.PutAll` | internal/collector/aggregators/percentile/percentile.go:138-141 | adds exactly that field's percentiles, under their rendered names |
| `Names.AtMostExactly` | internal/federation/config_distributor.go:47-47 | the comparison the names are sorted by: a prefix first, otherwise the first different character decides |
| `ConfigDistributor.GroupBeatsRegion` | internal/federation/config_distributor.go:31-57 | a group's value stands whatever region and global say, unless the agent or a group of a greater name speaks about the path |
| `ConfigDistributor.RegionBeatsGlobal` | internal/federation/config_distributor.go:31-39 | a region's value stands whatever global says, where the leaf's groups and the agent are silent |
| `Groups.MergedLabel` | internal/federation/leaf_state.go:33-39 | under every key a leaf has its manual label, else its automatic one, else none, read as "" |
| `Groups.PatternLaw` | internal/federation/group.go:134-141 | a pattern is met iff each of its pairs is; the empty pattern is met by everybody |
| `Groups.ManualLabelDecides` | internal/federation/group.go:33-42 | a rule on one pair goes by the manual label where there is one, whatever the automatic labels are |
| `Groups.GroupsInRuleOrder` | internal/federation/group.go:36-40 | the groups of two lists of rules are those of the first, then those of the second |
| `Groups.OneRule` | internal/federation/group.go:36-40 | one rule gives its name exactly when its pattern is met |
| `HubServer.TrackedExactly` | internal/federation/server.go:38-104 | the group index cares for a leaf exactly when it registered or relabelled since it was last removed |
| `MetricCache.LastNLaw` | internal/grpcclient/cache.go:32-45 | what the stores keep: a suffix (or a prefix) of all, as long as fits |
| `Delivery.SentLaw` | internal/grpcclient/client.go:404-417 | sending stops at the first batch of 100 that does not go, and not before; that batch is not delivered |
| `Delivery.SubmitLaw` | internal/grpcclient/client.go:109-133 | a submission is delivered exactly when connected, with a stream, and Send succeeds; otherwise it goes behind what is cached, the oldest falling out |
| `Delivery.ConnectLaw` | internal/grpcclient/client.go:288-302 | a reconnect delivers the cached metrics up to the first batch of 100 whose Send fails and keeps the rest cached in order |
| `Delivery.FlushLaw` | internal/grpcclient/client.go:510-556 | a flush delivers up to the first batch before which the context ended or whose Send fails; the rest, and without a stream everything, is left over |
| `ConfigDiff.DiffAgent` | internal/config/diff.go:132-147 | each of the four fields is reported exactly when it differs |
| `ConfigDiff.AuthAcceptableExactly` | internal/config/config.go:527-535 | auth passes iff it is off or the token without white space at its ends has 32 characters or more |
| `ConfigReload.ApplySucceedsExactly` | internal/config/reload.go:64-109 | a reload succeeds iff the config parses and validates, no frozen field differs, and every reloader whose section changed accepts it in the world it is given |
| `ConfigReload.OutcomeSucceeds` | internal/config/reload.go:91-105 | the sequence of reloaders succeeds iff each due one does, and then leaves the world they made one after the other |
| `ServerReload.ServerReloadSucceeds` | internal/server/reload.go:25-84 | the server's part of a reload succeeds iff the config is acceptable and does not disable auth |
| `ServerReload.InstalledReloadSucceeds` | internal/app/agent.go:387-396 | with all reloaders installed it succeeds iff, besides, a changed collector section can be built |
| `TaskRouting.ReloadEffect` | internal/pluginruntime/gateway.go:271-282 | a reloaded plugin runs again with its manifest and every task handled; if it does not start it is stopped, or still disabled; no other entry changes |
| `TaskRouting.EnableEffect` | internal/pluginruntime/gateway.go:285-302 | enabling runs a disabled plugin that starts, with every task handled, and otherwise changes nothing |
| `TaskRouting.DisableEffect` | internal/pluginruntime/gateway.go:305-320 | a disabled plugin has no client and no handled task; no other entry changes |
| `TaskRouting.PingEffect` | internal/pluginruntime/gateway.go:626-704 | an answered ping changes nothing; after a failed one the plugin runs again, is in error, or is stopped, by how the restart went |
| `TaskRouting.DiscoveryEffect` | internal/pluginruntime/gateway.go:333-401 | a discovered plugin runs under its valid name with every task handled, if it starts |
| `TaskRouting.RemovalEffect` | internal/pluginruntime/watcher.go:93-103 | a removed plugin is gone with all its handlers; no other entry changes |
| `TaskRouting.ShutdownEffect` | internal/pluginruntime/gateway.go:161-182 | after a shutdown nothing is left but the built-in handlers |
| `TaskRouting.TasksHandled` | internal/task/dispatcher.go:24-46 | every task of an entry is handled exactly when the entry has a client |
| `TaskRouting.ValidNameGrows` | internal/pluginruntime/gateway.go:23-32 | a valid name starts with a letter or digit and goes on with letters, digits, "_" and "-" |
| `Base64.SextetIsTableEntry` | rust-runtime/src/chunking.rs:41-41 | each sextet is written as the entry of the table in section 4 of RFC 4648 |
| `Base64.BlockIsNumber` | rust-runtime/src/chunking.rs:41-41 | a block read to the base 64 is the number its three bytes are to the base 256 |
| `Chunking.CappedLaw` | rust-runtime/src/chunking.rs:15-19 | the capped output is a prefix, cut to the total only when chunking is on, a total is set and the output exceeds it |
| `Percentiles.OrderStatistic` | internal/collector/aggregators/percentile/percentile.go:168-182 | the k-th of n values is the percentile 100 k / (n - 1) |
| `Percentiles.Median` | internal/collector/aggregators/percentile/percentile.go:168-182 | the 50th percentile is the middle value, or half way between the two middle values |
| `PercentileKeys.KeySpells` | internal/collector/aggregators/percentile/percentile.go:139-139 | a name spells the field, "_p" and the percentile in decimal |
| `Aggregation.MetricSamples` | internal/collector/aggregators/minmax/minmax.go:69-82 | a metric adds its value once per listing of the field if it is a float64 or an int64, and otherwise nothing |
| `Aggregation.SumAppend` | internal/collector/aggregators/avg/avg.go:64-98 | sums add up |
| `Aggregation.IdentityLaw` | internal/collector/aggregators/minmax/minmax.go:98-107 | name and tags are those of the first metric that has a name and a listed field |
| `Aggregators.Emit` | internal/collector/aggregators/minmax/minmax.go:131-136 | nothing is emitted for no values; otherwise one metric with the suffixed name, the tags and all values |
| `Alerting.OperatorLaws` | internal/alerting/rules.go:23-40 | what each operator means by its complement, by monotonicity and at the threshold; an unknown one is never satisfied |
| `Alerting.LastReadingLaw` | internal/alerting/engine.go:66-80 | the last metric's numbers are found under its name, "_" and the field; under other keys the earlier metrics decide |
| `Alerting.AlertSaysWhy` | internal/alerting/engine.go:85-113 | a round without the metric clears the rule and keeps its value; an alert carries the reading that met the condition |
| `Alerting.FiringOverRounds` | internal/alerting/engine.go:65-116 | over rounds in time order a rule is firing iff some run of rounds up to the last all met the condition and spans the duration |
| `Alerting.AlertsInRuleOrder` | internal/alerting/engine.go:85-113 | the alerts of a round come in rule order |
| `Canary.SubsetIsNearest` | internal/federation/canary.go:41-58 | a stage selects the nearest number of agents to its percentage, and never none |

## Left out

- gRPC, TLS, sockets, processes, SSH sessions and file writes: only their success or failure appears, as an input.
- The clock: the times of alert evaluations are inputs; leaf last-seen times, statuses, hostnames and addresses are not modelled.
- Version hashing: the truncated SHA-256 is taken to be collision free, and every resolved config to be marshallable.
- Config values of Go types other than `map[string]any` and `[]any`: scalars here; the source hands them on without copying. Nil and empty maps or slices are not told apart.
- Validation: only the auth rules and the canary stages are spelled out; the other checks are a parameter of `Validate`.
- Numbers: float64 is `real` and int64 is `int`, so rounding, NaN, infinities and wrap-around are not modelled.
- Strings: sequences of characters compared by code.
- ConfigDiff.TrimSpaceLaw: white space is that of ASCII.
- Alert condition parsing, alert message text and notifiers: rules start parsed.
- Disk persistence of metrics at shutdown: what a flush leaves over is handed back as a sequence.
- Interleavings inside one plugin load, stop or health check: each is one step, though the source releases its lock around them.
- Leaf objects changed or indexed by code other than the hub.
- MetricCache.Buffer.Add: a zero-sized drop-oldest buffer is excluded, because the source would slice an empty list.
- First-connect path of the connection loop, scheduler goroutines, aggregator push timing, agent shutdown order.
- Collector plugins: whether an instance can be built is a fixed property of its type and config; static input tags, which the agent never sets, are not modelled; the output channel counts as closed as soon as its last sender has stopped.
- Checkers, discovery, SNMP, GPU, cloud metadata, tunnels, sandbox policy, auth middleware, user interface: thin wrappers or policy tables.
