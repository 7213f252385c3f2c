# kata-pulse in Dafny

A model of the core of kata-pulse, a monitoring agent for Kata Containers sandboxes, with
proofs about that model. The agent does four things, and the model covers each of them:

- It tracks which sandboxes exist by watching the sandbox directory.
- It enriches each sandbox with pod metadata from the container runtime (CRI).
- On a timer, it fetches every sandbox's shim metrics, parses them and publishes them as one
  double-buffered generation.
- It converts Cloud Hypervisor guest metrics into cAdvisor-style Prometheus text.

Modules, one per file:

- `Registry` (`sandbox_cache.dfy`) defines the sandbox cache. It is a class whose map from
  sandbox id to CRI metadata the methods update in place.
- `MetricsStore` (`metrics_cache.dfy`) defines the metrics cache. It is a class with a
  `current` and a `staging` buffer. A collection starts by clearing staging, adds to it, and
  publishes it by a swap.
- `Cri` (`cri.dfy`) matches the pods returned by the runtime against the list of ids still
  waiting for metadata. It writes their metadata into the registry.
- `Reconciler` (`sandbox_cache_manager.dfy`) holds the initial scan, the filesystem
  reconciliation, the metadata sync and one tick of the monitoring loop with its two timers.
- `Collector` (`metrics_collector.dfy`) is one collection cycle. It fetches every sandbox,
  counts successes and failures, stages what parsed and publishes the result.
- `PrometheusParser`, `PrometheusFormat` and `PrometheusRoundTrip`
  (`prometheus_parser.dfy`, `prometheus_format.dfy`, `prometheus_roundtrip.dfy`) cover the
  Prometheus text parser, keyed by base metric name, and the formatter. They prove that
  formatting a set of families and parsing the text back gives the families back.
- `ConverterConfig` (`converter_config.dfy`) holds the network-interface glob filter and the
  CRI label enricher.
- `CadvisorLabels`, `CadvisorFormat`, `CadvisorNetwork`, `CadvisorDisk`, `CadvisorProcess` and
  `CadvisorMetrics` are the cAdvisor data types and their text renderers.
- `HypervisorSamples`, `HypervisorFolds` and `CloudHypervisor` are the Cloud Hypervisor
  converter. Each conversion is a method, proved to compute a fold over the selected samples.
  The folds are proved not to depend on the order of the hash map.
- `Float` (`float.dfy`) is the `f64` a sample carries: the value the parser reads, the text
  the formatter writes back, and the saturating `as u64` cast the converters apply.
- `Wrappers`, `Seqs` and `Text` are the option and result types, sequence helpers, and the
  Rust string operations the code relies on: trim, split, strip and number parsing.

Each mutable structure of the agent is a class whose methods are proved against a function
of the old state. The properties the agent depends on are lemmas about those functions:

- a reader only sees whole generations;
- an id is registered once;
- an entry of the tracked list that received metadata is dropped;
- sample lines round-trip through the formatter and the parser, `f64` values included;
- converted totals are sums of the right samples.

A successful metadata sync replaces the tracked list with the ids the sync left unmatched
(src/monitor/sandbox_cache_manager.rs:155-156). The directory check only removes sandboxes
that are on the tracked list. `Reconciler.EnrichedSandboxLeaks` proves the consequence: a
sandbox that received metadata is never removed when its directory disappears. The model
follows the code here, and the corrected sync is listed under Findings.

## Model

| member | source | states |
|---|---|---|
| Registry.PutIfAbsent | src/monitor/sandbox_cache.rs:41-49 | the insert happens exactly when the id is absent; on insert the id maps to the value, otherwise the map is unchanged (no overwrite); the key set gains the id |
| Registry.RemoveIfPresent | src/monitor/sandbox_cache.rs:34-37 | reports true exactly when the id was present; afterwards the id is absent and every other entry is unchanged |
| Registry.RegisteredAfterOps | src/monitor/sandbox_cache.rs:34-49 | over any sequence of inserts-if-absent and removes-if-present an id is registered exactly when the last operation naming it is an insert (or, with none, when it was registered before): successful inserts minus successful removes is the key set |
| Registry.UntouchedAfterOps | src/monitor/sandbox_cache.rs:34-49 | an id no operation names keeps its presence and its metadata |
| Registry.SandboxCache.constructor | src/monitor/sandbox_cache.rs:20-24 | a new registry is empty |
| Registry.SandboxCache.GetSandboxList | src/monitor/sandbox_cache.rs:27-30 | returns every registered id exactly once |
| Registry.SandboxCache.DeleteIfExists | src/monitor/sandbox_cache.rs:34-37 | the registry becomes `RemoveIfPresent` of the old one, and the result is whether the id was present |
| Registry.SandboxCache.PutIfNotExists | src/monitor/sandbox_cache.rs:41-49 | the registry becomes `PutIfAbsent` of the old one, and the result is whether the id was absent |
| Registry.SandboxCache.SetCriMetadata | src/monitor/sandbox_cache.rs:52-55 | the id maps to the value and nothing else changes |
| Registry.SandboxCache.GetSandboxesWithMetadata | src/monitor/sandbox_cache.rs:58-63 | returns each registered (id, metadata) pair exactly once |
| Registry.SandboxCache.GetMetadataTry | src/monitor/sandbox_cache.rs:70-79 | `None` under contention; otherwise the registered metadata of the id, `None` when it is not registered; never changes the registry |
| MetricsStore.Get | src/monitor/metrics_cache.rs:48-51 | a reader gets the published entry of the id and never looks at staging |
| MetricsStore.Deleted | src/monitor/metrics_cache.rs:106-122 | removes the id from the published buffer only, keeps every other entry and staging, and reports whether the id was present |
| MetricsStore.DeleteTwice | src/monitor/metrics_cache.rs:106-122 | a second delete of the same id reports false and changes nothing |
| MetricsStore.StagingInvisible | src/monitor/metrics_cache.rs:55-75 | no sequence of start and add operations changes what a reader gets |
| MetricsStore.StagedKeys | src/monitor/metrics_cache.rs:55-59 | exactly the added ids are staged |
| MetricsStore.StagedValue | src/monitor/metrics_cache.rs:55-59 | a staged id holds the metrics of its last add |
| MetricsStore.AddAllAfterStart | src/monitor/metrics_cache.rs:64-75 | adds after a start build exactly the staged map of those adds and leave the published buffer alone |
| MetricsStore.CycleReplaces | src/monitor/metrics_cache.rs:64-101 | start, adds, finish publishes exactly the added metrics and leaves staging empty; an id with no add in the cycle is gone even if it was published before |
| MetricsStore.MetricsCache.constructor | src/monitor/metrics_cache.rs:36-41 | both buffers start empty |
| MetricsStore.MetricsCache.GetMetrics | src/monitor/metrics_cache.rs:48-51 | returns the published entry of the id |
| MetricsStore.MetricsCache.StartCollection | src/monitor/metrics_cache.rs:64-68 | empties staging, leaves the published buffer unchanged |
| MetricsStore.MetricsCache.AddMetrics | src/monitor/metrics_cache.rs:73-75 | through the staging setter (lines 55-59) sets (or overwrites) the id in staging, leaves the published buffer unchanged |
| MetricsStore.MetricsCache.FinishCollection | src/monitor/metrics_cache.rs:86-101 | the published buffer becomes the old staging exactly, staging becomes empty |
| MetricsStore.MetricsCache.DeleteMetrics | src/monitor/metrics_cache.rs:106-122 | the store becomes `Deleted` of the old one and the result is whether the id was published |
| Cri.MetadataOf | src/monitor/cri.rs:94-106 | a matched pod writes its own uid, name and namespace, or three empty strings when it has no metadata |
| Cri.Synced | src/monitor/cri.rs:55-86 | without a client or when listing the pods fails, the list comes back unchanged and the registry is untouched |
| Cri.MatchAccounting | src/monitor/cri.rs:91-127 | the returned list keeps the input's order (a subsequence), loses exactly one occurrence of each matched id, has the input's length minus the number of matches, and every matched id was both listed and a pod's id |
| Cri.MatchWrites | src/monitor/cri.rs:92-108 | only matched ids are written, each with the metadata of a pod carrying that id; every other entry keeps its presence and value |
| Cri.MatchRemainder | src/monitor/cri.rs:91-127 | over a list without duplicates the remainder is the list minus every listed pod id, order kept |
| Cri.SyncSandboxes | src/monitor/cri.rs:44-128 | returns the unmatched remainder and leaves the registry as the matching step defines it, for each of the connection and listing outcomes |
| Reconciler.PutAllFacts | src/monitor/sandbox_cache_manager.rs:66-84 | after the initial listing exactly the old and the listed ids are registered; metadata already present is kept and a new entry's is empty |
| Reconciler.AddNewFacts | src/monitor/sandbox_cache_manager.rs:183-207 | a listed id that is neither tracked nor registered is registered with empty metadata and tracked; nothing else is registered or tracked anew, and existing metadata is kept |
| Reconciler.FindVanishedFacts | src/monitor/sandbox_cache_manager.rs:209-223 | a tracked, unlisted, registered id is removed from the registry, loses its published metrics and is dropped from the tracked list; a tracked, unlisted id the registry no longer has stays tracked; nothing else changes and staging is untouched |
| Reconciler.Checked | src/monitor/sandbox_cache_manager.rs:171-174 | when the directory cannot be read, the tracked list, the registry and the metrics are unchanged |
| Reconciler.CheckedEffect | src/monitor/sandbox_cache_manager.rs:171-225 | the fate of every id through a directory check: when it is registered, tracked and loses its metrics afterwards, in both directions, and which metadata it holds |
| Reconciler.SyncUntracks | src/monitor/sandbox_cache_manager.rs:145-167 | a tracked sandbox the runtime lists leaves the tracked list (which becomes the sync's remainder) and is registered with that pod's metadata |
| Reconciler.SyncKeepsUntracked | src/monitor/sandbox_cache_manager.rs:145-167 | a registered id that is not tracked keeps its entry and its metrics through any sync, successful or not |
| Reconciler.UntrackedNeverRemoved | src/monitor/sandbox_cache_manager.rs:155-222 | through any sequence of syncs and directory checks, whatever the directory lists, a registered id that is not tracked keeps its registry entry and its published metrics |
| Reconciler.EnrichedSandboxLeaks | src/monitor/sandbox_cache_manager.rs:155-222 | a sandbox enriched by a sync stays registered with the synced metadata, and keeps its metrics, after its directory disappears and later checks list nothing |
| Reconciler.InitialTimers | src/monitor/sandbox_cache_manager.rs:118-121 | both deadlines start a refresh interval after the monitor starts |
| Reconciler.TickOrder | src/monitor/sandbox_cache_manager.rs:124-137 | when both actions are due, the iteration is a metadata sync followed by a directory check, and both deadlines move past the current time |
| Reconciler.CorrectedTickKeepsTracked | src/monitor/sandbox_cache_manager.rs:145-161 | with a sync that leaves the tracked list alone, every registered sandbox stays on the tracked list through any iteration |
| Reconciler.CorrectedTickRemovesVanished | src/monitor/sandbox_cache_manager.rs:124-137 | with the corrected sync, a registered sandbox missing from the listing when the check runs leaves the registry and the tracked list, and its metrics are deleted |
| Reconciler.EnrichedSandboxRemoved | src/monitor/sandbox_cache_manager.rs:145-222 | with the corrected sync, an enriched sandbox keeps its place on the tracked list, and the first check that does not list it removes it and its metrics |
| Reconciler.SandboxCacheManager.constructor | src/monitor/sandbox_cache_manager.rs:38-48 | the manager shares the given registry and metrics store |
| Reconciler.SandboxCacheManager.InitialListing | src/monitor/sandbox_cache_manager.rs:66-84 | every entry is registered with empty metadata through insert-if-absent, and the tracked list is exactly the listing |
| Reconciler.SandboxCacheManager.SyncCriMetadata | src/monitor/sandbox_cache_manager.rs:145-167 | after a successful sync the tracked list is the returned remainder; after a failed one it is unchanged |
| Reconciler.SandboxCacheManager.CheckFilesystemChanges | src/monitor/sandbox_cache_manager.rs:171-225 | the registry, metrics and tracked list become `Checked` of the old ones |
| Reconciler.SandboxCacheManager.AddNewEntries | src/monitor/sandbox_cache_manager.rs:183-207 | the registry and tracked list become `AddNew` of the old ones |
| Reconciler.SandboxCacheManager.RemoveVanished | src/monitor/sandbox_cache_manager.rs:209-219 | the registry and metrics become `FindVanished` of the old ones, which also names the ids to drop |
| Reconciler.SandboxCacheManager.MonitorIteration | src/monitor/sandbox_cache_manager.rs:124-137 | one iteration is `Tick`: a due sync, then a due directory check, each rescheduled |
| Collector.SuccessesSound | src/monitor/metrics_collector.rs:112-126 | every staged pair is a sandbox of the snapshot whose fetch succeeded, with its parsed answer |
| Collector.SuccessesComplete | src/monitor/metrics_collector.rs:112-126 | every sandbox of the snapshot whose fetch succeeded is staged |
| Collector.CollectionPublishes | src/monitor/metrics_collector.rs:92-143 | after a cycle the store publishes exactly the sandboxes whose fetch succeeded, each under its own id with its parsed metrics, and staging is empty |
| Collector.FetchAll | src/monitor/metrics_collector.rs:95-107 | one answer per sandbox, in snapshot order |
| Collector.StageAll | src/monitor/metrics_collector.rs:109-139 | stages each success under its own id, adds nothing for a failure, and the success and failure counts add up to the number of sandboxes |
| Collector.MetricsCollector.constructor | src/monitor/metrics_collector.rs:32-43 | the collector shares the given registry and store and keeps the interval |
| Collector.MetricsCollector.CollectOnce | src/monitor/metrics_collector.rs:70-143 | an empty snapshot leaves the store alone with no counts; otherwise the store becomes start, then every success added, then finish; successes plus failures is the snapshot size |
| PrometheusParser.GetOrCreateMetric | src/utils/prometheus_parser.rs:48-56 | an existing family is returned as stored; a missing one is created empty (no samples, help or type) under the requested name |
| PrometheusParser.StripFirstSuffix | src/utils/prometheus_parser.rs:177-186 | a name ending in none of the suffixes is unchanged; otherwise the first matching suffix in list order is the one removed |
| PrometheusParser.ParseMetadataLine | src/utils/prometheus_parser.rs:100-105 | succeeds exactly when the line starts with the prefix and a space follows it; the line is then the prefix, a space-free name, a space and the text |
| PrometheusParser.NonEmptyPieces | src/utils/prometheus_parser.rs:154-156 | keeps exactly the non-empty pieces of the comma split |
| PrometheusParser.FinishSample | src/utils/prometheus_parser.rs:127-149 | reading the value, timestamp and labels never panics; a parsed sample keeps the given name and holds its value in the canonical decimal form the `f64` reader produces |
| PrometheusParser.ApplyLineKeyedByName | src/utils/prometheus_parser.rs:72-94 | each HELP, TYPE or sample line keeps every family stored under its own name |
| PrometheusParser.ParseLinesKeyedByName | src/utils/prometheus_parser.rs:58-97 | after any sequence of lines, every family is stored under its own name |
| PrometheusParser.Parse | src/utils/prometheus_parser.rs:58-97 | succeeds on every input, since unreadable lines are skipped (a line the source panics on is read as unreadable, see Findings); the result is the line-by-line fold over the input and is keyed by family name |
| PrometheusFormat.Escaped | src/utils/prometheus_parser.rs:188-200 | the escaped value is never shorter than the value and holds no raw newline |
| PrometheusFormat.EscapedUnchanged | src/utils/prometheus_parser.rs:188-200 | a value without backslash, double quote or newline is written unchanged |
| PrometheusFormat.EscapeLabelValue | src/utils/prometheus_parser.rs:188-200 | the character loop produces exactly the escaped value |
| PrometheusFormat.LabelPairs | src/utils/prometheus_parser.rs:225-235 | one `key="escaped value"` pair per listed key, in the listed order |
| PrometheusFormat.SampleLines | src/utils/prometheus_parser.rs:218-250 | one line per sample of the family |
| PrometheusFormat.FormatLabels | src/utils/prometheus_parser.rs:222-237 | the label text is `{`, the pairs joined by commas, `}`, over an enumeration of every label key, each once |
| PrometheusFormat.FormatSample | src/utils/prometheus_parser.rs:218-249 | writes the sample line (name, labels if any, value, timestamp if any) over an enumeration of the label keys |
| PrometheusFormat.FormatHeader | src/utils/prometheus_parser.rs:207-215 | writes the HELP line exactly when help is set and the TYPE line exactly when the type is set, in that order |
| PrometheusFormat.FormatFamily | src/utils/prometheus_parser.rs:206-251 | writes a family's header lines then its sample lines in stored order |
| PrometheusFormat.ToPrometheusFormat | src/utils/prometheus_parser.rs:203-254 | writes every family exactly once, in some iteration order returned as the layout, each family's lines contiguous |
| PrometheusRoundTrip.LabelsRoundTrip | src/utils/prometheus_parser.rs:153-174 | the label text written for a non-empty map of names, and of values with no comma, no closing brace and no trailing double quote, parses back to that map, in any key order |
| PrometheusRoundTrip.SampleLineRoundTrip | src/utils/prometheus_parser.rs:109-150 | the line written for a well-formed sample parses back to that sample, fractional values such as 123.45 included, in any label order |
| PrometheusRoundTrip.MetadataLineFacts | src/utils/prometheus_parser.rs:100-105 | a written HELP or TYPE line is one line, unchanged by trimming, and splits back into its name and text |
| PrometheusRoundTrip.SampleLineClassified | src/utils/prometheus_parser.rs:62-94 | a written sample line of a well-formed sample is classified as that sample, not as a comment or metadata line |
| PrometheusRoundTrip.HelpLineClassified | src/utils/prometheus_parser.rs:62-76 | a written HELP line is read as the help text of its family |
| PrometheusRoundTrip.TypeLineClassified | src/utils/prometheus_parser.rs:62-83 | a written TYPE line is read as the type of its family |
| PrometheusRoundTrip.ParseLinesAppend | src/utils/prometheus_parser.rs:61-94 | parsing two blocks of lines equals parsing the first and continuing with the second |
| PrometheusRoundTrip.SampleLinesFold | src/utils/prometheus_parser.rs:88-93 | parsing a family's sample lines appends the samples to that family in order, creating it when missing |
| PrometheusRoundTrip.HeaderFold | src/utils/prometheus_parser.rs:72-83 | the header lines of a new family create it with its help and type and no samples |
| PrometheusRoundTrip.FamilyFold | src/utils/prometheus_parser.rs:206-251 | the lines of one well-formed family rebuild exactly that family |
| PrometheusRoundTrip.ExpositionFold | src/utils/prometheus_parser.rs:203-254 | the lines written for the families of a layout rebuild exactly those families |
| PrometheusRoundTrip.ExpositionRoundTrip | src/utils/prometheus_parser.rs:349-365 | writing well-formed families and parsing the text back gives the same families, whatever order the writer chose |
| PrometheusRoundTrip.RoundTrip | src/utils/prometheus_parser.rs:349-365 | format then parse returns success with the original families |
| PrometheusRoundTrip.ClosingBraceFirstPanics | src/utils/prometheus_parser.rs:110-116 | the line `a}{ 1` makes the as-written slice bounds reversed, so the source panics |
| PrometheusRoundTrip.PanicsExactly | src/utils/prometheus_parser.rs:110-116 | the source panics exactly on lines holding both braces with the first `}` before the first `{` |
| PrometheusRoundTrip.CorrectedParse | src/utils/prometheus_parser.rs:109-150 | the corrected parser rejects the panicking lines and agrees with the as-written parser on every other line |
| PrometheusRoundTrip.EscapeUnescapeMismatch | src/utils/prometheus_parser.rs:164-169 | with the replacements applied one after another as written, a value made of a backslash and `n` is escaped to two backslashes and `n` and read back as a backslash and a newline |
| PrometheusRoundTrip.EscapeDecodes | src/utils/prometheus_parser.rs:188-199 | decoding the escaped text in one left-to-right pass gives the value back, for every value |
| PrometheusRoundTrip.UnquoteEscaped | src/utils/prometheus_parser.rs:164-169 | the corrected reading of a quoted, escaped label value gives the value back whenever it does not end with a double quote |
| ConverterConfig.MatchesNetworkInterface | src/utils/metrics_converter/config.rs:111-122 | true exactly when some pattern matches: a pattern ending in `.*` by prefix, any other by equality; no pattern matches nothing |
| ConverterConfig.GlobIsPrefix | src/utils/metrics_converter/config.rs:113-116 | a glob `p.*` accepts exactly the names starting with `p` |
| ConverterConfig.BareGlobAcceptsAll | src/utils/metrics_converter/config.rs:113-116 | a bare `.*` pattern accepts every interface |
| ConverterConfig.DefaultPatternsAccept | src/utils/metrics_converter/config.rs:78-83 | the default patterns accept exactly `eth0` and the names starting with `veth`, `tap` or `tun` |
| ConverterConfig.DefaultAcceptsExamples | src/utils/metrics_converter/config.rs:176-183 | the defaults accept `eth0`, `veth1234567890ab`, `tap0` and `tun1`, the accepted names of the source test |
| ConverterConfig.DefaultRejectsByFirstLetter | src/utils/metrics_converter/config.rs:78-83 | a name whose first letter is not `e`, `v` or `t` is refused by the defaults |
| ConverterConfig.DefaultRejectsBridges | src/utils/metrics_converter/config.rs:185-188 | the defaults refuse `lo`, `docker0` and `br-abcdef` |
| ConverterConfig.DefaultRejectsSecondNic | src/utils/metrics_converter/config.rs:78-83 | `eth0` is an exact pattern, so `eth1` is refused |
| ConverterConfig.CriLabelEnricher.constructor | src/utils/metrics_converter/config.rs:148-150 | the enricher reads the given registry |
| ConverterConfig.CriLabelEnricher.Enrich | src/utils/metrics_converter/config.rs:154-161 | the registered uid, name and namespace when the non-blocking lookup finds the sandbox; empty labels when it is missing or the registry is held by a writer |
| CadvisorLabels.NewStandardLabels | src/utils/metrics_converter/cadvisor.rs:56-73 | container is `kata`, image `unknown`, id the pod uid, namespace the pod namespace, and both name and pod the pod name |
| CadvisorLabels.ExtraPairs | src/utils/metrics_converter/cadvisor.rs:99-101 | one `key="escaped value"` pair per extra label, in the given order |
| CadvisorLabels.ToLabelStringWithExtras | src/utils/metrics_converter/cadvisor.rs:89-104 | the label block is the six standard pairs followed by the extra pairs, comma-joined in braces |
| CadvisorLabels.NoExtras | src/utils/metrics_converter/cadvisor.rs:76-104 | with no extras the block equals the plain standard block |
| CadvisorLabels.ExtrasChangeBlock | src/utils/metrics_converter/cadvisor.rs:89-104 | any extra label makes the block strictly longer than the plain one |
| CadvisorLabels.StandardPairsInOrder | src/utils/metrics_converter/cadvisor.rs:77-85 | the standard pairs are the label map written in the fixed order container, id, image, name, namespace, pod |
| CadvisorLabels.ExtrasParse | src/utils/metrics_converter/cadvisor.rs:89-104 | for plain values and distinct, well-named extras, the block is braced and parses back to the standard labels plus the extras |
| CadvisorLabels.LabelStringParses | src/utils/metrics_converter/cadvisor.rs:76-86 | for plain values the standard block is braced and parses back to the six standard labels |
| CadvisorFormat.RenderEntries | src/utils/metrics_converter/cadvisor.rs:302-363 | rendering entries one by one gives the text of all entries in order |
| CadvisorFormat.RenderAppend | src/utils/metrics_converter/cadvisor.rs:722-732 | the text of two blocks of entries is the concatenation of their texts |
| CadvisorFormat.SamplesOfAppend | src/utils/metrics_converter/cadvisor.rs:722-732 | the samples of a family in two blocks of entries are those of the first block, then the second |
| CadvisorFormat.Positive | src/utils/metrics_converter/cadvisor.rs:666-701 | present exactly when the count is positive, carrying that count |
| CadvisorFormat.FormatCpu | src/utils/metrics_converter/cadvisor.rs:302-363 | the CPU text is the rendering of the CPU entries with the CPU part's labels |
| CadvisorFormat.CpuTimeEmission | src/utils/metrics_converter/cadvisor.rs:309-336 | one usage sample always; one user and one system sample exactly when positive; all labelled `cpu="total"` |
| CadvisorFormat.LoadEmission | src/utils/metrics_converter/cadvisor.rs:338-359 | one sample per load window (1m, 5m, 15m) exactly when a load average is present, labelled `cpu="total"` |
| CadvisorFormat.FailureKeyAccepted | src/utils/metrics_converter/cadvisor.rs:418-427 | a key `type:scope` without further colon yields exactly the labels failure_type=type and scope=scope |
| CadvisorFormat.FailureKeyShape | src/utils/metrics_converter/cadvisor.rs:420-423 | any key that yields labels is exactly `type:scope` with no colon in either part |
| CadvisorFormat.FailureSampleEntries | src/utils/metrics_converter/cadvisor.rs:418-433 | the loop over the failure keys writes the failure samples in key order |
| CadvisorFormat.FormatMemory | src/utils/metrics_converter/cadvisor.rs:365-438 | the memory text is the rendering of the memory entries over an enumeration of the failure keys |
| CadvisorFormat.MemoryEmission | src/utils/metrics_converter/cadvisor.rs:370-412 | one usage sample always; working set, cache, rss and swap exactly when present; the mapped-file figure is never written |
| CadvisorFormat.MemoryFailureEmission | src/utils/metrics_converter/cadvisor.rs:414-434 | one failure type line exactly when there are failures; a sample for exactly the keys of the form `type:scope`, carrying their counts |
| CadvisorNetwork.InterfaceSampleEntries | src/utils/metrics_converter/cadvisor.rs:505-515 | the loop over the interfaces writes that family's per-interface samples in key order |
| CadvisorNetwork.NetworkTotalEntries | src/utils/metrics_converter/cadvisor.rs:445-497 | writes the four totals when bytes moved, then the error totals that are present |
| CadvisorNetwork.FormatNetwork | src/utils/metrics_converter/cadvisor.rs:440-562 | the network text is the rendering of the network entries over an enumeration of the interfaces |
| CadvisorNetwork.TrafficEmission | src/utils/metrics_converter/cadvisor.rs:445-558 | each byte and packet family gets its unlabelled total when any bytes moved, followed by the per-interface samples |
| CadvisorNetwork.InterfaceEmission | src/utils/metrics_converter/cadvisor.rs:500-558 | a per-interface sample is written for exactly the interfaces whose counter is positive, labelled with the interface name and carrying that counter |
| CadvisorNetwork.TrafficTypeLines | src/utils/metrics_converter/cadvisor.rs:445-558 | a traffic family's type line appears once for the totals and once for the per-interface section |
| CadvisorNetwork.NetworkErrorEmission | src/utils/metrics_converter/cadvisor.rs:481-497 | the receive and transmit error totals are written exactly when present; the dropped totals never are |
| CadvisorDisk.DeviceSampleEntries | src/utils/metrics_converter/cadvisor.rs:627-654 | the loop over the devices writes the device samples in key order |
| CadvisorDisk.DiskTotalEntries | src/utils/metrics_converter/cadvisor.rs:569-622 | writes the four counts, then each positive time, only when any operation happened |
| CadvisorDisk.FormatDisk | src/utils/metrics_converter/cadvisor.rs:564-659 | the disk text is the rendering of the disk entries over an enumeration of the devices |
| CadvisorDisk.DiskCountEmission | src/utils/metrics_converter/cadvisor.rs:569-599 | each operation and byte total is written once, unlabelled, exactly when any read or write happened, even when it is itself zero |
| CadvisorDisk.DiskSecondsEmission | src/utils/metrics_converter/cadvisor.rs:601-621 | each I/O time is written exactly when some operation happened and the time is positive; the overall and weighted I/O times are never written |
| CadvisorDisk.DeviceEmission | src/utils/metrics_converter/cadvisor.rs:624-655 | a Read sample for each device that read and a Write sample for each device that wrote, labelled with device, major and minor, with no type line |
| CadvisorProcess.TaskSampleEntries | src/utils/metrics_converter/cadvisor.rs:707-715 | the loop over the states writes one sample per state in key order |
| CadvisorProcess.ProcessHeadEntries | src/utils/metrics_converter/cadvisor.rs:666-701 | writes the process, thread and descriptor counts when positive and the thread limit when known |
| CadvisorProcess.FormatProcess | src/utils/metrics_converter/cadvisor.rs:661-720 | the process text is the rendering of the process entries over an enumeration of the states |
| CadvisorProcess.ProcessEmission | src/utils/metrics_converter/cadvisor.rs:666-701 | process, thread and descriptor counts each written exactly when positive, the thread limit exactly when known, all unlabelled |
| CadvisorProcess.TaskEmission | src/utils/metrics_converter/cadvisor.rs:703-716 | one task-state type line when there is any state, and exactly one sample per state, labelled with the state and carrying its count |
| CadvisorMetrics.FormatAll | src/utils/metrics_converter/cadvisor.rs:722-732 | the output is the CPU, memory, network, disk and process texts in that order, each with its own labels, over enumerations of every map |
| CadvisorMetrics.SharedLabels | src/utils/metrics_converter/cadvisor.rs:722-732 | when all parts share labels the output is the rendering of all parts' entries in order |
| CadvisorMetrics.AllParts | src/utils/metrics_converter/cadvisor.rs:722-732 | the samples and type lines of any family in the whole output are those of the five parts, in order |
| HypervisorSamples.Label | src/utils/metrics_converter/cloud_hypervisor.rs:75-76 | present exactly when the sample has the label, carrying its value |
| HypervisorSamples.SelectedStep | src/utils/metrics_converter/cloud_hypervisor.rs:69-74 | one more family extends the samples read by that family's own samples when its name selects it |
| HypervisorSamples.SelectedMembers | src/utils/metrics_converter/cloud_hypervisor.rs:69-74 | a sample is read exactly when it belongs to a family whose name selects it |
| HypervisorSamples.SelectedPermutation | src/utils/metrics_converter/cloud_hypervisor.rs:69-74 | the samples read depend only on which families there are, not on the map's iteration order |
| HypervisorSamples.ItemMapKeys | src/utils/metrics_converter/cloud_hypervisor.rs:431-435 | an item is in the item map exactly when some sample carries that `item` label |
| HypervisorSamples.ItemMapLast | src/utils/metrics_converter/cloud_hypervisor.rs:431-435 | for an item carried by several samples, the last one's value wins |
| HypervisorSamples.AcceptedInterface | src/utils/metrics_converter/cloud_hypervisor.rs:206-214 | a network sample counts exactly when it has an `interface` label that the configured patterns accept |
| HypervisorSamples.SumAppend | src/utils/metrics_converter/cloud_hypervisor.rs:67-90 | a sum over two blocks of samples is the sum of the two sums |
| HypervisorSamples.SumPermutation | src/utils/metrics_converter/cloud_hypervisor.rs:67-90 | a sum depends only on which samples there are, not on their order |
| HypervisorSamples.TotalIgnoresOrder | src/utils/metrics_converter/cloud_hypervisor.rs:67-90 | a total over the selected families is the same in any iteration order of the map |
| HypervisorSamples.JiffiesByItem | src/utils/metrics_converter/cloud_hypervisor.rs:81-88 | the jiffy total is the sum of the user, system, guest and nice totals |
| HypervisorSamples.SumNone | src/utils/metrics_converter/cloud_hypervisor.rs:67-90 | nothing counted sums to zero |
| HypervisorSamples.ItemMapSnoc | src/utils/metrics_converter/cloud_hypervisor.rs:431-435 | one more sample with an item sets that item to its value |
| HypervisorSamples.Casts | src/utils/metrics_converter/cloud_hypervisor.rs:148 | the cast map has the same items, each holding the saturating `u64` cast of the item's value |
| HypervisorSamples.RealSumPermutation | src/utils/metrics_converter/cloud_hypervisor.rs:96-121 | an `f64` sum depends only on which samples there are, not on their order |
| HypervisorSamples.RealTotalIgnoresOrder | src/utils/metrics_converter/cloud_hypervisor.rs:96-121 | an `f64` total over the selected families is the same in any iteration order of the map |
| HypervisorSamples.RealSumOfWholeCounts | src/utils/metrics_converter/cloud_hypervisor.rs:77-115 | when every value is a whole count in the `u64` range, the `f64` sum equals the sum of the cast values |
| HypervisorFolds.ItemAbsent | src/utils/metrics_converter/cloud_hypervisor.rs:140-151 | an item no sample carries is not in the item map |
| HypervisorFolds.SaturatingSub | src/utils/metrics_converter/cloud_hypervisor.rs:154-156 | the difference when it is not negative, otherwise zero |
| HypervisorFolds.MemoryUsage | src/utils/metrics_converter/cloud_hypervisor.rs:154-156 | usage is the last `memtotal` less the last `memfree`, floored at zero; zero when either is missing |
| HypervisorFolds.MemoryWorkingSet | src/utils/metrics_converter/cloud_hypervisor.rs:159-163 | the working set is the last `active` plus the last `inactive_file`, only when both are present |
| HypervisorFolds.MemoryCache | src/utils/metrics_converter/cloud_hypervisor.rs:166-168 | the cache is the last `cached` plus the last `buffers`, only when both are present |
| HypervisorFolds.MemoryCopies | src/utils/metrics_converter/cloud_hypervisor.rs:171-185 | swap is `swaptotal` less `swapfree` floored at zero when both are present; rss is `anon_pages` and mapped memory `mapped` when present |
| HypervisorFolds.DivideSum | src/utils/metrics_converter/cloud_hypervisor.rs:92-93 | dividing a sum by the factor is summing the divided parts |
| HypervisorFolds.CpuUsageSplit | src/utils/metrics_converter/cloud_hypervisor.rs:67-121 | usage is the sum of the cast user, system, guest and nice jiffies over the factor; when every sample is a whole count in the `u64` range, that is user seconds plus system seconds plus the guest and nice jiffies over the factor |
| HypervisorFolds.ItemMapEmpty | src/utils/metrics_converter/cloud_hypervisor.rs:438-440 | the item map is empty exactly when no sample carries an item |
| HypervisorFolds.LoadPresence | src/utils/metrics_converter/cloud_hypervisor.rs:423-447 | a load average is reported exactly when some load sample carries an item |
| HypervisorFolds.LoadFigures | src/utils/metrics_converter/cloud_hypervisor.rs:442-446 | the one-, five- and fifteen-minute figures are the `f64` values of the last `load1`, `load5` and `load15` samples, each 0.0 when missing |
| HypervisorFolds.TaskFigures | src/utils/metrics_converter/cloud_hypervisor.rs:367-382 | the process count is the last `cur` task value (zero if none), the thread limit the last `max` one (absent if none) |
| HypervisorFolds.AddTo | src/utils/metrics_converter/cloud_hypervisor.rs:239-260 | an optional total becomes present with the previous value (or zero) plus the new one |
| HypervisorFolds.NetFold | src/utils/metrics_converter/cloud_hypervisor.rs:193-274 | the per-interface records of the totals stay empty while the samples are folded |
| HypervisorFolds.NetFoldSnoc | src/utils/metrics_converter/cloud_hypervisor.rs:205-263 | folding one more sample applies one network step |
| HypervisorFolds.NetStepCounter | src/utils/metrics_converter/cloud_hypervisor.rs:222-238 | a step adds the sample's value to its byte or packet total exactly when the interface is accepted and the item matches |
| HypervisorFolds.NetCounterSum | src/utils/metrics_converter/cloud_hypervisor.rs:200-264 | each byte and packet total is the sum of its item's samples on accepted interfaces |
| HypervisorFolds.NetOptionalSum | src/utils/metrics_converter/cloud_hypervisor.rs:239-260 | each error and drop total is absent when no accepted sample of its item came, otherwise the sum of those samples |
| HypervisorFolds.NetStepInterfaces | src/utils/metrics_converter/cloud_hypervisor.rs:219-220 | a step keeps every interface record named after its key and adds exactly the accepted interface |
| HypervisorFolds.NetInterfaces | src/utils/metrics_converter/cloud_hypervisor.rs:200-264 | exactly the accepted interfaces some sample names get a record, each named after the interface |
| HypervisorFolds.DiskFold | src/utils/metrics_converter/cloud_hypervisor.rs:276-359 | the per-device records of the totals stay empty while the samples are folded |
| HypervisorFolds.DiskFoldSnoc | src/utils/metrics_converter/cloud_hypervisor.rs:288-348 | folding one more sample applies one disk step |
| HypervisorFolds.DiskStepCounter | src/utils/metrics_converter/cloud_hypervisor.rs:300-322 | a step adds the sample's value (times 512 for sectors) to its total exactly when the sample names a disk and the item matches |
| HypervisorFolds.DiskCounterSum | src/utils/metrics_converter/cloud_hypervisor.rs:283-349 | read and write totals are the sums of the `reads` and `writes` samples; the byte totals are 512 times the sector sums |
| HypervisorFolds.DiskStepSeconds | src/utils/metrics_converter/cloud_hypervisor.rs:323-332 | a step adds the sample's milliseconds over 1000 to its read or write time exactly when the sample names a disk and the item matches |
| HypervisorFolds.DiskSecondsSum | src/utils/metrics_converter/cloud_hypervisor.rs:283-349 | the read and write times are the `f64` sums of the `time_reading` and `time_writing` samples over 1000 |
| HypervisorFolds.DiskOptionalSecondsSum | src/utils/metrics_converter/cloud_hypervisor.rs:335-345 | the io and weighted io times are absent when no sample of their item came, otherwise the `f64` sum of those samples over 1000 |
| HypervisorFolds.DiskStepDevices | src/utils/metrics_converter/cloud_hypervisor.rs:289-298 | a step keeps every device record named after its key and adds exactly the device the sample names |
| HypervisorFolds.DiskDevices | src/utils/metrics_converter/cloud_hypervisor.rs:283-349 | exactly the devices some sample names get a record, each named after the device |
| CloudHypervisor.CloudHypervisorConverter.WithEnricher | src/utils/metrics_converter/cloud_hypervisor.rs:30-40 | the converter keeps the configuration, the enricher and the sandbox id |
| CloudHypervisor.CloudHypervisorConverter.Labels | src/utils/metrics_converter/cloud_hypervisor.rs:43-55 | container `kata`, image `unknown`, pod equal to name; id, name and namespace from the registry when it answers for the sandbox, otherwise empty |
| CloudHypervisor.CloudHypervisorConverter.CreateStandardLabels | src/utils/metrics_converter/cloud_hypervisor.rs:43-55 | the labels the registry gives for this converter's sandbox, or empty ones |
| CloudHypervisor.CloudHypervisorConverter.ConvertCpu | src/utils/metrics_converter/cloud_hypervisor.rs:60-132 | the CPU figures of the selected `cpu_time` and `load` samples: the cast jiffy total over the factor, the `f64` user and system sums over the factor, the load average and the labels |
| CloudHypervisor.CloudHypervisorConverter.ExtractLoadAverage | src/utils/metrics_converter/cloud_hypervisor.rs:423-447 | the load average from the `f64` values of the last load items, none without any load item |
| CloudHypervisor.CloudHypervisorConverter.ConvertMemory | src/utils/metrics_converter/cloud_hypervisor.rs:134-191 | the memory figures of the meminfo item map with each value cast to `u64`, the last sample of each item winning |
| CloudHypervisor.CloudHypervisorConverter.ConvertNetwork | src/utils/metrics_converter/cloud_hypervisor.rs:193-274 | the network fold of the selected samples, with the interface records kept only when configured |
| CloudHypervisor.CloudHypervisorConverter.NetworkSample | src/utils/metrics_converter/cloud_hypervisor.rs:216-262 | the loop body is exactly one network step |
| CloudHypervisor.CloudHypervisorConverter.ConvertDisk | src/utils/metrics_converter/cloud_hypervisor.rs:276-359 | the disk fold of the selected samples, with the device records kept only when configured |
| CloudHypervisor.CloudHypervisorConverter.DiskSample | src/utils/metrics_converter/cloud_hypervisor.rs:294-347 | the loop body is exactly one disk step |
| CloudHypervisor.CloudHypervisorConverter.ConvertProcess | src/utils/metrics_converter/cloud_hypervisor.rs:361-418 | task counts from the last `cur` and `max`, thread and descriptor counts summed over every component gauge |
| CloudHypervisor.TotalJiffies | src/utils/metrics_converter/cloud_hypervisor.rs:67-90 | the sum of the user, system, guest and nice jiffies of the `cpu="total"` samples |
| CloudHypervisor.CpuSeconds | src/utils/metrics_converter/cloud_hypervisor.rs:96-121 | the `f64` sums of the user and system samples, each over the factor |
| CloudHypervisor.SecondsStep | src/utils/metrics_converter/cloud_hypervisor.rs:108-116 | adding one counted sample divided by the factor keeps the running seconds equal to the divided sum |
| CloudHypervisor.CollectItems | src/utils/metrics_converter/cloud_hypervisor.rs:426-436 | the item map of the selected families with the `f64` values, a later sample replacing an earlier one |
| CloudHypervisor.CollectCounts | src/utils/metrics_converter/cloud_hypervisor.rs:140-151 | the meminfo item map with each value cast to `u64`, a later sample replacing an earlier one |
| CloudHypervisor.MemoryFigures | src/utils/metrics_converter/cloud_hypervisor.rs:153-185 | the memory figures derived from the item map: usage, working set, cache, swap, rss and mapped memory |
| CloudHypervisor.TaskCounts | src/utils/metrics_converter/cloud_hypervisor.rs:367-382 | the process count and thread limit of the `tasks` item map |
| CloudHypervisor.TaskStep | src/utils/metrics_converter/cloud_hypervisor.rs:367-382 | one task sample sets the process count when its item is `cur`, the thread limit when it is `max`, and nothing otherwise |
| CloudHypervisor.ComponentTotal | src/utils/metrics_converter/cloud_hypervisor.rs:385-412 | the sum of every sample of the shim, hypervisor, agent and virtiofsd gauges with the given suffix |
| CloudHypervisor.CpuIgnoresFamilyOrder | src/utils/metrics_converter/cloud_hypervisor.rs:60-132 | the CPU figures are the same in any iteration order of the families |
| CloudHypervisor.ProcessIgnoresFamilyOrder | src/utils/metrics_converter/cloud_hypervisor.rs:385-412 | the thread and descriptor counts are the same in any iteration order of the families |
| CloudHypervisor.NetworkIgnoresFamilyOrder | src/utils/metrics_converter/cloud_hypervisor.rs:200-264 | the network byte and packet totals are the same in any iteration order of the families |
| CloudHypervisor.DiskIgnoresFamilyOrder | src/utils/metrics_converter/cloud_hypervisor.rs:283-349 | the disk operation and byte totals are the same in any iteration order of the families |
| CloudHypervisor.SelectedSingle | src/utils/metrics_converter/cloud_hypervisor.rs:69-74 | a single family contributes its samples exactly when it is selected |
| CloudHypervisor.CpuConversionExample | src/utils/metrics_converter/cloud_hypervisor.rs:459-509 | 56160 user and 82060 system jiffies at factor 100 give 561.6 and 820.6 seconds, 1382.2 in all, and no load average |
| CloudHypervisor.MemoryConversionExample | src/utils/metrics_converter/cloud_hypervisor.rs:511-558 | a total of 1000 and 400 free give a usage of 600 |
| Text.Trim | src/utils/prometheus_parser.rs:62 | the trimmed line is no longer than the line and neither starts nor ends with whitespace |
| Text.TrimUnchanged | src/utils/prometheus_parser.rs:62 | a line that neither starts nor ends with whitespace is unchanged by trimming |
| Text.SplitOnce | src/utils/prometheus_parser.rs:121-123 | no split exactly when the separator is absent; otherwise the text is the part before, the separator and the part after, the first part free of the separator |
| Text.SplitWhitespace | src/utils/prometheus_parser.rs:128 | every word is non-empty and holds no whitespace |
| Text.SplitWhitespaceJoin | src/utils/prometheus_parser.rs:128 | words joined by single spaces split back into the same words |
| Text.SplitJoin | src/utils/metrics_converter/cadvisor.rs:420 | pieces free of the separator, joined with it, split back into the same pieces |
| Text.LinesOfJoinLines | src/utils/prometheus_parser.rs:61 | lines without newline or trailing carriage return, each ended by a newline, come back out of the line splitter |
| Text.ParseI64 | src/utils/prometheus_parser.rs:134 | a parsed timestamp lies within the signed 64-bit range |
| Text.ParseI64OfIntToString | src/utils/prometheus_parser.rs:134 | a signed 64-bit timestamp, written in decimal, parses back to itself |
| PrometheusParser.SkippedLineIgnored | src/utils/prometheus_parser.rs:62-71 | a blank line, or a comment that is neither `# HELP ` nor `# TYPE `, leaves the collected families unchanged |
| PrometheusParser.CounterBaseName | src/utils/prometheus_parser.rs:177-185 | for every name, `name_total` is filed under `name` |
| PrometheusParser.BucketBaseName | src/utils/prometheus_parser.rs:177-185 | for every name, `name_bucket` is filed under `name` (no earlier suffix in the list matches it) |
| PrometheusParser.SumBaseName | src/utils/prometheus_parser.rs:177-185 | for every name, `name_sum` is filed under `name` |
| PrometheusParser.CountBaseName | src/utils/prometheus_parser.rs:177-185 | for every name, `name_count` is filed under `name` |
| PrometheusParser.NoSuffixKept | src/utils/prometheus_parser.rs:177-184 | a non-empty name whose last letter ends none of the six suffixes is its own family name |
| PrometheusParser.OneSuffixStripped | src/utils/prometheus_parser.rs:179-182 | only the first matching suffix is removed: `x_total_count` is filed under `x_total` |
| PrometheusParser.StripSuffixAt | src/utils/prometheus_parser.rs:179-182 | a name ending with the i-th suffix and with none of the earlier ones is filed under the name without it |
| PrometheusParser.SameFamilyGrouped | src/utils/prometheus_parser.rs:86-93 | four samples with the same base name make exactly one family holding them in input order |
| PrometheusParser.HistogramGrouped | src/utils/prometheus_parser.rs:291-303 | two bucket samples, a sum and a count of one histogram make exactly one family, named after the histogram, holding all four in input order |
| Float.ParseF64 | src/utils/prometheus_parser.rs:129-132 | a value that parses is in canonical form: a finite value has no trailing zero in its fraction |
| Float.F64Text | src/utils/prometheus_parser.rs:241 | the written value is non-empty and holds no whitespace, so it stays one word of the sample line |
| Float.ParseF64OfF64Text | src/utils/prometheus_parser.rs:241 | every canonical value, finite, infinite or NaN, written as text reads back as itself |
| Float.AsU64 | src/utils/metrics_converter/cloud_hypervisor.rs:77 | the cast never exceeds the unsigned 64-bit maximum |
| Float.AsU64Floor | src/utils/metrics_converter/cloud_hypervisor.rs:77 | the cast of a finite value is 0 at or below zero, otherwise the floor of the value capped at the unsigned 64-bit maximum |
| Float.WholeCountCast | src/utils/metrics_converter/cloud_hypervisor.rs:77-102 | for a whole count in the `u64` range, the `f64` value and its cast agree |

## Left out

- Float.ParseF64: a value is kept as the exact decimal it was written as. The rounding of
  `str::parse::<f64>` to the nearest double, and its overflow to infinity, are not modelled;
  nor is the rounding of `f64` additions and divisions, which are read as arithmetic on reals.
- Float.F64Text: writes the kept decimal in full, without an exponent, as Rust's `Display`
  does; the value is not first rounded to a double. Negative zero is not distinguished from
  zero, so it is written as `0`, where the agent writes `-0`.
- Float.ToReal: NaN and the infinities read as 0.0 where a converter adds or divides `f64`
  values; a sum that meets a non-finite value is not modelled.
- HypervisorFolds.CpuUsageSplit: usage equals user plus system seconds plus the guest and nice
  part only when every sample is a whole count in the `u64` range. Usage adds the cast values,
  while the user and system seconds add the `f64` values, so a fractional or negative jiffy
  count makes them differ.
- CadvisorFormat.ValueText: floating-point figures (CPU seconds, load averages, disk seconds)
  are exact reals. A `show` parameter stands for Rust's float formatting, so the text of a
  fraction is not fixed.
- HypervisorFolds.AddTo: `u64` overflow of the `+=` totals and of the `* 512` sector
  conversion is not modelled, because integers are unbounded. The agent would panic in debug
  builds or wrap in release builds.
- Locks, `try_read` and `tokio::spawn`: the model is sequential. The contention that makes
  `try_read` fail is an explicit boolean input (`contended`).
- Timers, sleeps and the 60 s retry loop are not modelled as waiting. The monitoring tick
  takes the current time as an input, and the fixed delays are constants.
- I/O and the network are not modelled:
  - the directory listing is an input (`None` when the directory cannot be read);
  - the CRI pod list is an input result, with a flag for "never connected";
  - each shim fetch is an input function from sandbox id to text or error;
  - the process-wide `OnceCell` CRI client is left out.
- Hash map iteration order is unspecified. Methods choose an order with `Seqs.Enumerate`
  and return it as a ghost out-parameter. The converters take the parsed map's values as a
  sequence in iteration order, and the totals are proved independent of that order.
- PrometheusFormat.ToPrometheusFormat: the `sandbox_id` parameter is unused by the source and
  is not modelled.
- The per-CPU breakdown (`per_cpu`) is always built empty and never written. The config's
  `hypervisor_type` and `include_per_cpu` are read by no modelled path. None of the three is
  kept in the model.
- src/utils/metrics_converter/mod.rs is not part of this model: `convert_all` only calls the
  five conversions in turn.
- src/server.rs, src/monitor/cri_client.rs, src/utils/shim_client.rs, src/config/mod.rs,
  src/context.rs and src/main.rs are not part of this model. They are HTTP handlers, gRPC
  and Unix-socket transport, path probing and process wiring.
- HypervisorFolds.NetOptionalSum: the optional per-interface totals (drops and errors) are
  proved equal to the sum over the interfaces that report them. Their independence from the
  iteration order is not stated separately.
- PrometheusParser.Parse, Collector.StageAll and Collector.MetricsCollector.CollectOnce: they
  read shim answers with the corrected parser, which rejects a line such as `a}{ 1`. The
  source panics on that line (src/utils/prometheus_parser.rs:114). The panic happens inside the
  spawned collection loop, which then ends and never publishes again; the model does not
  capture that end of collection.
- PrometheusParser.ParsePairs: decodes label values with the corrected single-pass decoder
  `Unescape`, not with the chain of replacements as written (see Findings).
- PrometheusRoundTrip.LabelsRoundTrip: holds for values without a comma, a closing brace or a
  trailing double quote. The parser splits pairs on commas, ends the label text at the first
  closing brace and trims every double quote from both ends of a value, so such values do not
  come back.
- Reconciler.SandboxCacheManager.SyncCriMetadata and Reconciler.Tick keep the tracked-list
  replacement as written. The corrected sync is `Reconciler.CorrectedSyncedState` with
  `Reconciler.CorrectedTick`, proved separately (see Findings).
- Logging is not modelled.

## Findings

| source | as written | input that shows it | evidently intended | confidence | as-written member | corrected member |
|---|---|---|---|---|---|---|
| src/utils/prometheus_parser.rs:110-116 | the label slice `line[brace_start + 1..brace_end]` is taken without checking that `}` comes after `{`, so the slice panics | the sample line `a}{ 1` | reject the line as malformed, like any other unreadable sample line | not executed | PrometheusRoundTrip.ClosingBraceFirstPanics | PrometheusRoundTrip.CorrectedParse |
| src/utils/prometheus_parser.rs:164-169 | the label value is unescaped by four `replace` calls in a row, each of which also rewrites what the earlier ones produced | the value made of a backslash and `n`, written as `\\n`, reads back as a backslash and a newline | decode each escape once, from left to right, so that reading back an escaped value gives the value | not executed | PrometheusRoundTrip.EscapeUnescapeMismatch | PrometheusRoundTrip.EscapeDecodes |
| src/monitor/sandbox_cache_manager.rs:155-156 | a successful sync replaces the tracked list with the ids it did not match, and the directory check only removes tracked ids | a sandbox that the sync matches, whose directory then disappears | keep enriched sandboxes on the tracked list, so that the check removes them and their metrics when their directory goes | not executed | Reconciler.EnrichedSandboxLeaks | Reconciler.EnrichedSandboxRemoved |
