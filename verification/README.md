# LoRa trace statistics — a Dafny model

This project models the statistics pipeline of a FLoRa/OMNeT++ LoRa
sensor-network repository. The pipeline has two ends and a middle.

- **Producing traces.** The `wlam_sensor_app` LoRa application keeps four
  sensors (temperature, NO2, humidity, counter). Each sensor has an interval
  and a jittered next-due time. One scheduler tick samples every due sensor
  and sends a single uplink packet. The packet's bitmap says which fields it
  carries. The tick then re-arms the scheduler at the earliest next-due time.
- **Reducing traces.** The Python tooling reads OMNeT++ `.vec` and `.sca`
  traces and keeps running statistics (count, sum, min and max) per vector
  and per (node, signal):
  - `parse_chunk` and `parse_repetition` read the trace in byte chunks;
  - `aggregate_setup` summarises the per-repetition means by their mean and
    spread;
  - the lightweight passes of the simulation configuration fill per-node
    tables;
  - the analyzer loads raw results.
  
  When no trace is available, the simulator's console output is used
  instead: its `ev/sec` samples are dealt round-robin over the nodes and
  gateways named in the simulation name (`SF7_TP-5_N10_GW1`).
- **Reporting.** Several reports are derived from these statistics: the
  packet delivery rate (measured and estimated), the PDR export, the
  per-node plot rows and the setup comparison rows.

## How the model is organised

- **Values.** Python floats are `real`. The infinities that initialise
  `min` and `max` are the `RunningStats.Bound` values `NegInf` and `PosInf`.
- **Dictionaries.** A Python dict that the code accumulates into is a
  `map`. A JSON object whose iteration order matters is a sequence of
  `(key, value)` pairs.
- **Files.** A file is its text, or its sequence of lines. A directory
  listing is a sequence of entries.
- **Loops.** Each loop of the source is a `method` proved against a
  specification function. The properties are lemmas about those functions.
- **The sensor application.** It is a `class`, because its C++ methods
  update fields in place: the sensor array, the armed scheduler time, the
  sent packets and the emitted signals. The random jitter draws and the
  generated sample values are parameters.

## Model

| member | source | states |
|---|---|---|
| RunningStats.Min | simulations/run_and_analyze.py:125 | `min` on bounds is the greatest lower bound of its two arguments and is one of them |
| RunningStats.Max | simulations/run_and_analyze.py:126 | `max` on bounds is the least upper bound of its two arguments and is one of them |
| RunningStats.Add | simulations/run_and_analyze.py:124-126 | adding a sample is combining with the one-sample statistic |
| RunningStats.IdentityLeft | simulations/run_and_analyze.py:107-108 | the fresh `{"count":0,"sum":0.0,"min":inf,"max":-inf}` entry is a left identity of the merge |
| RunningStats.IdentityRight | simulations/run_and_analyze.py:107-108 | the fresh entry is a right identity of the merge |
| RunningStats.CombineAssoc | simulations/run_and_analyze.py:155-161 | merging partial statistics is associative |
| RunningStats.CombineComm | simulations/run_and_analyze.py:155-161 | merging partial statistics is commutative, so chunk order does not matter |
| RunningStats.CombineValid | simulations/run_and_analyze.py:155-161 | merging keeps `count*min <= sum <= count*max` and finite bounds for non-empty entries |
| RunningStats.AddValid | simulations/run_and_analyze.py:124-126 | adding a sample keeps the statistic consistent |
| RunningStats.MeanBetween | simulations/run_and_analyze.py:182 | a non-empty entry has finite bounds and `min <= sum/count <= max` |
| RunningStats.FoldValuesAppend | simulations/run_and_analyze.py:124-126 | folding `a + b` is merging the folds of `a` and `b` |
| RunningStats.FoldValuesValid | simulations/run_and_analyze.py:124-126 | folding samples gives a consistent statistic whose count is the number of samples |
| RunningStats.FoldValuesBounds | simulations/run_and_analyze.py:125-126 | the folded min and max are samples and bound every sample |
| RunningStats.AverageWithin | simulations/run_and_analyze.py:184 | the mean of samples between `lo` and `hi` lies between `lo` and `hi` |
| RunningStats.Record | simulations/run_and_analyze.py:123-126 | recording into a table changes only that key's entry, which absorbs the sample |
| RunningStats.Merge | simulations/run_and_analyze.py:152-161 | the merged table has the union of the keys, and each entry is the merge of the two entries |
| RunningStats.MergeIdentity | simulations/run_and_analyze.py:152-153 | merging with the empty table changes nothing |
| RunningStats.MergeComm | simulations/run_and_analyze.py:152-161 | merging tables is commutative |
| RunningStats.MergeAssoc | simulations/run_and_analyze.py:152-161 | merging tables is associative |
| RunningStats.RecordIsMerge | simulations/run_and_analyze.py:123-126 | recording a sample is merging with a one-sample table |
| RunningStats.MergeRecord | simulations/run_and_analyze.py:152-161 | recording after a merge equals merging after the record |
| RunningStats.RecordValid | simulations/run_and_analyze.py:123-126 | recording keeps every entry of a table consistent |
| RunningStats.MergeValid | simulations/run_and_analyze.py:152-161 | merging keeps every entry of a table consistent |
| VectorTrace.MergeStatsIdentity | simulations/run_and_analyze.py:152-153 | the empty pair of tables is a two-sided identity of the chunk merge |
| VectorTrace.MergeStatsAssoc | simulations/run_and_analyze.py:152-161 | the chunk merge is associative |
| VectorTrace.MergeStatsComm | simulations/run_and_analyze.py:152-161 | the chunk merge is commutative |
| VectorTrace.LineDefs | simulations/run_and_analyze.py:139-144 | the definition pass gives one contribution per line |
| VectorTrace.ReadDefinitions | simulations/run_and_analyze.py:137-144 | the definition loop computes the definition table, or the `ValueError` of `int(parts[1])` |
| VectorTrace.FoldFailureSticks | simulations/run_and_analyze.py:143 | once the definition pass has raised, later lines cannot change the error |
| VectorTrace.FoldFails | simulations/run_and_analyze.py:140-143 | the pass raises iff some `vector ` line with four fields has a non-integer id |
| VectorTrace.DefinedIff | simulations/run_and_analyze.py:140-144 | an id is defined iff some line defines it |
| VectorTrace.DefinitionsLastWins | simulations/run_and_analyze.py:144 | an id's definition is the one its last defining line gives |
| VectorTrace.ChunksFrom | simulations/run_and_analyze.py:146-148 | the chunks are contiguous, cover `[0, size)`, are at most `chunk_size` long, and only the last is shorter |
| VectorTrace.ChunksOrdered | simulations/run_and_analyze.py:147-148 | every chunk ends at or before the start of every later chunk |
| VectorTrace.EmptyFileNoChunks | simulations/run_and_analyze.py:147-150 | an empty file has no chunks and a non-empty file has at least one |
| VectorTrace.SampleOf | simulations/run_and_analyze.py:115-129 | an accepted line is non-blank with four fields and a defined id; it has a node key iff the module matches the node pattern, and the key is digits |
| VectorTrace.Apply | simulations/run_and_analyze.py:118-133 | a rejected line changes nothing; an accepted line is recorded per vector and, with a node key, per (node, signal) |
| VectorTrace.ApplyShift | simulations/run_and_analyze.py:122-133 | applying a line to partial tables is merging them with the line applied to nothing |
| VectorTrace.ScanLines | simulations/run_and_analyze.py:112-114 | the scan loop computes the specified scan from the given offset |
| VectorTrace.ParseChunk | simulations/run_and_analyze.py:106-134 | `parse_chunk` is the seek, the skip of the partial first line when `start != 0`, and the scan |
| VectorTrace.VisitsFromBoundary | simulations/run_and_analyze.py:112-114 | from a line boundary, the scan reads exactly the lines that begin in `[p, e)` |
| VectorTrace.ChunkOwnership | simulations/run_and_analyze.py:110-114 | as written, chunk `[s, e)` reads the lines beginning in `[0, e)` when `s == 0` and in `(s, e)` otherwise |
| VectorTrace.BoundaryLineLost | simulations/run_and_analyze.py:110-114 | a line that begins exactly at a non-zero chunk start is read by no chunk |
| VectorTrace.ScanShift | simulations/run_and_analyze.py:112-133 | a scan over partial tables is those tables merged with the same scan from nothing |
| VectorTrace.ParseChunkFixed | simulations/run_and_analyze.py:106-134 | the corrected `parse_chunk`, which starts at the first line beginning at or after `start` |
| VectorTrace.FixedOwnership | simulations/run_and_analyze.py:110-114 | with the corrected start, a chunk reads exactly the lines that begin in `[s, e)` |
| VectorTrace.MergeResults | simulations/run_and_analyze.py:152-161 | the merge loop folds the chunk results left to right |
| VectorTrace.FixedChunkInvariance | simulations/run_and_analyze.py:145-161 | with the corrected start, merging the chunk results equals one sequential scan of the file, for every chunk size |
| VectorTrace.ChunkInvariance | simulations/run_and_analyze.py:145-161 | as written, the same holds whenever no line begins on a chunk boundary |
| VectorTrace.ParseChunks | simulations/run_and_analyze.py:149-151 | the pool's `starmap` gives one corrected chunk result per chunk, in chunk order |
| VectorTrace.ParseRepetition | simulations/run_and_analyze.py:136-162 | `parse_repetition` (corrected chunk start) returns the tables of one sequential scan and the definition table; it fails on a bad definition or, for an empty file, with the empty-pool error |
| NodePattern.BracketedDigitsAt | simulations/run_and_analyze.py:29 | the `\[(\d+)\]` group, when it matches, is digits |
| NodePattern.MatchAt | simulations/run_and_analyze.py:29 | a match of `(?:loRaNodes\|node)\[(\d+)\]` at a position captures digits |
| NodePattern.FindMatch | simulations/run_and_analyze.py:29 | the search finds the leftmost match position, and there is no match before it |
| NodePattern.Search | simulations/run_and_analyze.py:127 | `node_pattern.search` fails iff no position matches; a capture is digits |
| NodePattern.CaseInsensitiveMatchesMore | app/simulation_config.py:39 | whatever the case-sensitive pattern finds, the `IGNORECASE` pattern also finds |
| CrossRep.Insert | simulations/run_and_analyze.py:166 | inserting into a sorted list keeps it sorted and adds exactly that name |
| CrossRep.SortNames | simulations/run_and_analyze.py:166 | `sorted` gives a sorted permutation |
| CrossRep.DigitNames | simulations/run_and_analyze.py:166 | the filter keeps exactly the all-digit names, with their multiplicities |
| CrossRep.RepetitionNames | simulations/run_and_analyze.py:166 | the repetitions are sorted and are exactly the all-digit directory names |
| CrossRep.Distance | simulations/run_and_analyze.py:184 | a deviation's magnitude is non-negative and is zero iff the value equals the mean |
| CrossRep.SquaredDistanceSign | simulations/run_and_analyze.py:184 | a squared deviation is non-negative and is zero iff the value is the mean |
| CrossRep.SquaredDeviation | simulations/run_and_analyze.py:184 | the sum of squared deviations is non-negative |
| CrossRep.Variance | simulations/run_and_analyze.py:184 | the population variance behind `np.std` is non-negative |
| CrossRep.SquaredDeviationZero | simulations/run_and_analyze.py:184 | the squared deviations sum to zero iff every value is the mean |
| CrossRep.VarianceZeroIff | simulations/run_and_analyze.py:184 | the variance is zero iff all repetition means are equal |
| CrossRep.ConstantSummary | simulations/run_and_analyze.py:183-184 | constant means summarise to that value with no spread |
| CrossRep.RepMeans | simulations/run_and_analyze.py:177-182 | there is at most one mean per repetition |
| CrossRep.RepMeansEmptyIff | simulations/run_and_analyze.py:177-183 | no mean is collected iff no repetition counted the pair |
| CrossRep.AggregateKeys | simulations/run_and_analyze.py:174-184 | a pair is aggregated iff the first repetition has it and some repetition counted it |
| CrossRep.OneRepetition | simulations/run_and_analyze.py:174-184 | with one repetition, a counted pair summarises to its own mean with zero spread |
| CrossRep.CollectMeans | simulations/run_and_analyze.py:177-182 | the `values` loop collects the specified means |
| CrossRep.AggregatePairs | simulations/run_and_analyze.py:174-184 | the aggregation loops compute the specified aggregate |
| CrossRep.InfoJsonRoundTrip | simulations/run_and_analyze.py:188 | `{str(k): v}` loses nothing: every id's entry is found under its decimal string, and each string key comes from one id |
| CrossRep.ReadAll | simulations/run_and_analyze.py:169-173 | on success there is one repetition result per repetition name |
| CrossRep.ReadAllFailureSticks | simulations/run_and_analyze.py:169-173 | the first failing repetition decides the result |
| CrossRep.NodeTables | simulations/run_and_analyze.py:172 | there is one node table per repetition |
| CrossRep.ReadRepetitions | simulations/run_and_analyze.py:169-173 | the repetition loop computes the specified results, each repetition read with the corrected chunk start |
| CrossRep.AggregateSetup | simulations/run_and_analyze.py:164-191 | given the listing of the directory holding the repetitions (intended: the setup's own directory), `aggregate_setup` computes the specified setup summary over the corrected repetition reads, or the first error |
| CrossRep.NoRepetitionsFail | simulations/run_and_analyze.py:175 | without repetition directories, `all_reps_node_stats[0]` raises `IndexError` |
| CrossRep.GeneratedRootFails | simulations/run_and_analyze.py:165-175 | as written, listing `RESULTS_DIR` in the layout `generate_ini` writes (lines 48-56: only setup directories) yields no repetition, so every setup raises `IndexError` |
| CrossRep.ReadAllSucceeds | simulations/run_and_analyze.py:169-173 | when every repetition's vector file is present and parses, the repetition loop succeeds |
| CrossRep.SetupDirectoryAggregates | simulations/run_and_analyze.py:164-191 | listing the setup's own directory of repetition numbers, each with a readable vector file, succeeds and reports exactly those repetitions |
| CrossRep.SetupShape | simulations/run_and_analyze.py:164-191 | a successful setup lists its repetitions sorted; they are exactly the all-digit names; it keeps the last repetition's definitions |
| SimName.SimNameFields | app/simulation_config.py:109 | the name `SF{sf}_TP{tp}_N{nodes}_GW1` splits on `_` into its four fields |
| SimName.NodeCountOfName | app/simulation_config.py:346-350 | the node count read back from a generated name is the requested count |
| SimName.GatewayCountOfName | app/simulation_config.py:364 | the gateway count read back from a generated name is 1 |
| SimName.NodeCountFallback | app/simulation_config.py:346-350 | a name with fewer than three fields falls back to 10 nodes |
| EventRates.EventRate | app/simulation_config.py:384-386 | a rate is only read from a line that has both `Speed:` and `ev/sec=` |
| EventRates.EventsAppend | app/simulation_config.py:383-393 | the samples of concatenated output are the concatenated samples |
| EventRates.EventsOfOtherLine | app/simulation_config.py:384 | a line without `Speed:` gives no sample |
| EventRates.ExtractEvents | app/simulation_config.py:383-393 | the output loop collects the specified samples, in order |
| EventRates.ForwardIndex | app/simulation_config.py:401 | the k-th element of a stride slice `xs[i::step]` is `xs[i + k*step]` |
| EventRates.ForwardCovers | app/simulation_config.py:401 | every in-range `xs[i + k*step]` is in the stride slice |
| EventRates.RoundRobin | app/simulation_config.py:401 | sample `e` is at position `e / stride` of recipient `e % stride`'s slice |
| EventRates.ShareRemainder | app/simulation_config.py:443 | every element of slice `r` has an index congruent to `r` |
| EventRates.SharesTotal | app/simulation_config.py:400-471 | the `stride` slices together hold every sample exactly once |
| EventRates.Smallest | app/simulation_config.py:404 | `min(node_events)` is a sample and bounds all of them from below |
| EventRates.Largest | app/simulation_config.py:405 | `max(node_events)` is a sample and bounds all of them from above |
| EventRates.RateEntry | app/simulation_config.py:403-415 | a share's entry counts the share; its min and max are samples that bound it, and its mean lies between them |
| EventRates.ScaledInOrder | app/simulation_config.py:417-438 | dividing by the node count or multiplying by the packet size keeps `min <= mean <= max` |
| EventRates.NodeAfterCounts | app/simulation_config.py:352-438 | a dealt node keeps its six signals; the four it updates count its share and the other two stay zero |
| EventRates.NodeAfterEntries | app/simulation_config.py:400-438 | a node with samples gets its rate, that rate over the node count, in packets of the packet size, and a busy state |
| EventRates.NodeAfterRate | app/simulation_config.py:400-438 | a node's mean is its share's average between its least and greatest sample, and each derived entry stays in order |
| EventRates.GatewayAfterCounts | app/simulation_config.py:365-471 | a dealt gateway keeps its seven signals; the ones it updates count its share and the rest stay zero |
| EventRates.GatewayAfterEntries | app/simulation_config.py:441-471 | a gateway with samples gets its incoming rate and the derived entries |
| EventRates.GatewayAfterRate | app/simulation_config.py:441-471 | a gateway's incoming mean is its share's average, bounded by the share's extremes, and its derived entries stay in order |
| EventRates.IndexedDomain | app/simulation_config.py:352-375 | the table's keys are exactly the prefixed decimal ids |
| EventRates.IndexedAt | app/simulation_config.py:352-375 | id `i` is stored under its prefixed decimal key |
| EventRates.IdsDomain | app/data_processor.py:184-193 | the node keys are exactly `str(0) .. str(n-1)` |
| EventRates.IdsAt | app/data_processor.py:184-193 | node `i`'s signals are stored under `str(i)` |
| EventRates.KeyInjective | app/simulation_config.py:366-367 | distinct ids give distinct keys |
| DataProcessor.ProcessResult | app/data_processor.py:165-258 | `_process_result` computes the specified processed result |
| DataProcessor.Deal | app/data_processor.py:216-256 | the node loop leaves each node with its own round-robin share applied |
| DataProcessor.DistributedFails | app/data_processor.py:215 | the processor raises `ZeroDivisionError` iff there are samples and the node count is zero |
| DataProcessor.AsDictKeys | app/data_processor.py:184-193 | the node keys are exactly the decimal ids |
| DataProcessor.AsDictAt | app/data_processor.py:184-193 | node `id`'s statistics are found under `str(id)` |
| DataProcessor.DistributedNodes | app/data_processor.py:184-193 | there is one node per id in `range(num_nodes)`, each with the six initial signals |
| DataProcessor.NoSamplesZero | app/data_processor.py:196-215 | without samples, every node keeps its zero initial statistics |
| DataProcessor.DistributedTotal | app/data_processor.py:215-256 | the nodes' counts add up to the number of samples: nothing is lost or counted twice |
| DataProcessor.DistributedRoundRobin | app/data_processor.py:215-256 | sample `e` is counted by node `e % n` and lies between that node's min and max |
| DataProcessor.ProcessedNamed | app/data_processor.py:178-193 | for a generated name, there is one node entry per requested node |
| SimResult.SimulateResult | app/simulation_config.py:333-473 | `_process_result` computes the specified result, including its error paths |
| SimResult.DealNodes | app/simulation_config.py:400-438 | the node loop gives each node its share, and reports whether `packet_size` was ever bound |
| SimResult.DealGateways | app/simulation_config.py:441-471 | the gateway loop fails iff a gateway has samples while `packet_size` is unbound; otherwise it gives each gateway its share |
| SimResult.KeysDisjoint | app/simulation_config.py:353-367 | a node key never equals a gateway key |
| SimResult.JoinedKeys | app/simulation_config.py:352-375 | the node table's keys are the node ids and the `GW` ids |
| SimResult.JoinedNode | app/simulation_config.py:352-361 | node `id` is stored under `str(id)` |
| SimResult.JoinedGateway | app/simulation_config.py:365-375 | gateway `g` is stored under `GW{g}` |
| SimResult.GatewaysWithoutNodesFail | app/simulation_config.py:461 | with zero nodes, a gateway and at least one sample, the gateway loop raises `UnboundLocalError` on `packet_size` |
| SimResult.SpreadSucceeds | app/simulation_config.py:397-471 | with at least one node, the spread succeeds with one entry per node and per gateway |
| SimResult.NodesCount | app/simulation_config.py:400-438 | the nodes together count the shares of the first `n` recipients |
| SimResult.GatewaysCount | app/simulation_config.py:441-471 | the gateways together count the shares of recipients `n .. n+gw-1` |
| SimResult.SpreadTotal | app/simulation_config.py:397-471 | node and gateway counts add up to the number of samples |
| SimResult.SpreadRoundRobin | app/simulation_config.py:397-471 | sample `e` goes to recipient `e % (n+gw)`, a node or a gateway, which counts it and bounds it |
| SimResult.SimulatedNamed | app/simulation_config.py:346-375 | for a generated name, the result has the requested nodes and one gateway |
| SimTrace.ReadingOf | app/simulation_config.py:248-273 | an accepted line has a defined vector and its signal, and a digit node id; the key starts with `GW` iff the module is a gateway |
| SimTrace.Tally | app/simulation_config.py:281-289 | a counter tick adds one to that counter's count and keeps its sum, min and max; every other entry is unchanged |
| SimTrace.ProcessVectorsLightweight | app/simulation_config.py:230-305 | the two passes compute the specified report |
| SimTrace.ReadingFilters | app/simulation_config.py:248-265 | an accepted line is non-blank and not a header or comment, with four fields, a digit id and float time and value |
| SimTrace.ReadingKey | app/simulation_config.py:267-273 | the key is the node digits, prefixed with `GW` exactly for gateway modules |
| SimTrace.PacketsSentCount | app/simulation_config.py:282-285 | a node's `packets_sent` count equals its number of `outgoingPacketLengths` samples |
| SimTrace.PacketsReceivedCount | app/simulation_config.py:286-289 | a gateway's `packets_received` count equals its number of `incomingPacketLengths` samples |
| SimTrace.AccumulateEntries | app/simulation_config.py:275-289 | every sampled entry is consistent, and every counter entry has a zero sum |
| SimTrace.ReportsAt | app/simulation_config.py:291-305 | each sampled entry is reported with its count, mean, min, max and sum |
| SimTrace.CounterReport | app/simulation_config.py:291-305 | a counter is reported with its signal's count and zero statistics |
| SimTrace.ReportsDomain | app/simulation_config.py:291-305 | a (node, signal) is reported iff it was sampled |
| SimTrace.ReportedBetween | app/simulation_config.py:291-305 | a reported signal has `min <= mean <= max` |
| SimTrace.PacketsSentReport | app/simulation_config.py:281-305 | a node's reported `packets_sent` count is its number of outgoing packet samples |
| SimTrace.ScalarOf | app/simulation_config.py:312-329 | an accepted `scalar` line has a module that matches the node pattern, its metric and a float value |
| SimTrace.ProcessScalars | app/simulation_config.py:307-331 | the scalar loop computes the specified table |
| SimTrace.ScalarsLastWins | app/simulation_config.py:323-327 | a (node, metric) holds the value of its last scalar line |
| SimTrace.ScalarKeysDigits | app/simulation_config.py:322-327 | every scalar node key is digits |
| SimTrace.PathJoin | app/simulation_config.py:89-92 | an absolute second path wins; otherwise the result ends with it |
| SimTrace.AppendLinesSplit | app/simulation_config.py:97-103 | appending single-line settings adds exactly those lines to the template's lines |
| SimTrace.IniAppendsSettings | app/simulation_config.py:86-105 | without `TEMP_RESULTS_DIR` the call raises `NameError`; otherwise the file is the template's lines plus the six settings |
| SimTrace.IniNodeCount | app/simulation_config.py:100 | the node-count setting reads back as the requested number of nodes |
| AnalyzerLoad.SampleOf | app/data_analyzer.py:203-224 | an accepted sample line gives a digit node id |
| AnalyzerLoad.ProcessVectorFile | app/data_analyzer.py:186-238 | `_process_vector_file` computes the specified table |
| AnalyzerLoad.ScalarOf | app/data_analyzer.py:244-263 | an accepted scalar line gives a digit node id |
| AnalyzerLoad.ProcessScalarFile | app/data_analyzer.py:240-265 | `_process_scalar_file` computes the specified table |
| AnalyzerLoad.LoadConfiguration | app/data_analyzer.py:130-149 | the raw branch gives nothing without files; otherwise `.vec` files, then `.sca` files, over an empty table |
| AnalyzerLoad.VectorFilesFailureSticks | app/data_analyzer.py:141-143 | the first `.vec` file that raises decides the load |
| AnalyzerLoad.LoadRawAsWritten | app/data_analyzer.py:8-15 | as written, any raw file fails with `NameError` for `re`, and no file gives nothing |
| AnalyzerLoad.MissingImportFails | app/data_analyzer.py:188 | one empty `.vec` file: the written load fails, the intended one gives an empty table |
| AnalyzerLoad.AccumulateSampled | app/data_analyzer.py:203-224 | every accumulated entry has a positive count |
| AnalyzerLoad.VectorFileOverwrites | app/data_analyzer.py:226-238 | a `.vec` file replaces, rather than combines, each (node, signal) it sampled; other entries are kept |
| AnalyzerLoad.VectorEntryOrdered | app/data_analyzer.py:226-238 | every written entry has `min <= mean <= max` |
| AnalyzerLoad.ScalarFileLastWins | app/data_analyzer.py:244-263 | a (node, metric) holds the value of its last scalar line, or what was there before |
| AnalyzerLoad.ScalarFileAppend | app/data_analyzer.py:244-263 | reading two scalar texts in turn is reading their concatenation |
| AnalyzerLoad.ScalarFilesFlatten | app/data_analyzer.py:145-147 | reading the `.sca` files in turn is reading their concatenated lines |
| AnalyzerLoad.ScalarsWin | app/data_analyzer.py:141-147 | a scalar value overrides any vector statistic for the same (node, metric) |
| DataAnalyzer.Find | app/data_analyzer.py:529 | a key lookup succeeds iff some entry has that key |
| DataAnalyzer.SumWhereAppend | app/data_analyzer.py:524-530 | the node or gateway sum over a concatenation is the sum of the sums |
| DataAnalyzer.CountWhereAppend | app/data_analyzer.py:524-530 | the node or gateway count over a concatenation is the sum of the counts |
| DataAnalyzer.SumWhereNonNegative | app/data_analyzer.py:524-530 | non-negative weights give a non-negative sum |
| DataAnalyzer.PercentRange | app/data_analyzer.py:543 | a part within `rate` of the whole is between 0 and `100*rate` per cent |
| DataAnalyzer.FirstGateway | app/data_analyzer.py:534-538 | `next(...)` finds nothing iff there is no gateway, and otherwise finds the first gateway's statistics |
| DataAnalyzer.CalculatePdr | app/data_analyzer.py:520-550 | `_calculate_pdr` computes the specified summary |
| DataAnalyzer.LaterGatewaysIgnored | app/data_analyzer.py:533-541 | only the first gateway's receptions count |
| DataAnalyzer.FirstGatewayAppend | app/data_analyzer.py:534-538 | appending entries does not change an existing first gateway |
| DataAnalyzer.GatewayEntriesAddNoTx | app/data_analyzer.py:524-530 | gateway entries add neither transmissions nor nodes |
| DataAnalyzer.PdrRange | app/data_analyzer.py:543 | when receptions do not exceed transmissions, the PDR is a percentage that is exactly `rx/tx*100` |
| DataAnalyzer.SuccessRate | app/data_analyzer.py:587-602 | the success rate lies strictly between 0 and 1; the small-network tier is 0.80 (SF7) or 0.70 (otherwise) |
| DataAnalyzer.SuccessRateMonotone | app/data_analyzer.py:587-602 | a larger network never gets a higher success rate |
| DataAnalyzer.Trunc | app/data_analyzer.py:579-581 | `int()` truncates toward zero |
| DataAnalyzer.EstimateBounds | app/data_analyzer.py:577-614 | with non-negative counters, the estimate receives no more than was sent and its PDR is non-negative |
| DataAnalyzer.EstimateOfSilence | app/data_analyzer.py:577-605 | counter means below one packet give zero packets and zero PDR |
| DataAnalyzer.ZeroPackets | app/data_analyzer.py:579-581 | counter means in `[0, 1)` truncate to zero packets in total |
| DataAnalyzer.ExportPdr | app/data_analyzer.py:898-924 | the export loop computes the specified export row |
| DataAnalyzer.ExportOrderFree | app/data_analyzer.py:905-914 | the export row does not depend on the order of the node entries |
| DataAnalyzer.PlotRowOf | app/data_analyzer.py:334-343 | a plot row's spread is a quarter of its range |
| DataAnalyzer.PlotRowsFail | app/data_analyzer.py:328-343 | building the plot rows fails iff a plotted node has a non-integer id |
| DataAnalyzer.PlotRowsShape | app/data_analyzer.py:310-343 | every plot row names a mapped metric and has the quarter-range spread |
| DataAnalyzer.SignalPlotRowsShape | app/data_analyzer.py:331-343 | one node's rows name mapped metrics and carry that node's id |
| DataAnalyzer.SetupSkipsGateways | app/data_analyzer.py:752-755 | a gateway entry anywhere leaves the comparison rows unchanged |
| DataAnalyzer.SetupRowsFail | app/data_analyzer.py:752-769 | building the comparison rows fails iff a compared non-gateway node has a non-integer id |
| VisualizePdr.SetupsIn | simulations/visualize_pdr.py:31-34 | the collected setups are the listing's `SF7_` and `SF12_` directories, with their multiplicities |
| VisualizePdr.ScanSetups | simulations/visualize_pdr.py:31-36 | the scan collects the setup directories and sorts them |
| VisualizePdr.ScannedSetups | simulations/visualize_pdr.py:31-36 | the scanned setups are sorted and are exactly the setup directories |
| VisualizePdr.RateTable | simulations/visualize_pdr.py:64-80 | the script's success-rate table is the analyzer's table |
| VisualizePdr.PointAgreesWithAnalyzer | simulations/visualize_pdr.py:56-92 | the script's point has the same numbers as the analyzer's estimate for the same statistics |
| VisualizePdr.PointBounds | simulations/visualize_pdr.py:82-83 | with non-negative counters, no more packets are received than sent, and the PDR is in [0, 100] |
| VisualizePdr.PlotData | simulations/visualize_pdr.py:43-48 | at most one point per setup, each for a setup that has a statistics file |
| VisualizePdr.ExtractPdrData | simulations/visualize_pdr.py:23-96 | `extract_simple_pdr_data` gives the specified points, in sorted setup order |
| VisualizePdr.PlotDataInRange | simulations/visualize_pdr.py:82-92 | with non-negative counters, every plotted PDR is a percentage and receptions never exceed transmissions |
| SensorApp.DefaultState | src/LoRaApp/wlam_sensor_app.h:21-28 | a default sensor state is never due |
| SensorApp.JitterBound | src/LoRaApp/wlam_sensor_app.cc:73-87 | a positive interval schedules the next sample within `interval ± interval*jitterFrac` of now plus the interval; otherwise the sensor is never due (`SIMTIME_MAX`) |
| SensorApp.NextDueNotPast | src/LoRaApp/wlam_sensor_app.cc:81-85 | with `intervalJitterFraction` at most 1, a new due time is never before now |
| SensorApp.JitterIntoPast | src/LoRaApp/wlam_sensor_app.cc:81-85 | with `intervalJitterFraction` above 1 and a positive interval, the lowest draw gives a due time before now |
| SensorApp.TickFlags | src/LoRaApp/wlam_sensor_app.cc:144-180 | a flag is in the tick's bitmap iff some due sensor sets it |
| SensorApp.QuietTick | src/LoRaApp/wlam_sensor_app.cc:144-193 | when no sensor is due, the tick samples nothing and sends nothing |
| SensorApp.StepState | src/LoRaApp/wlam_sensor_app.cc:144-188 | a sensor's new state does not depend on what earlier sensors did to the tick |
| SensorApp.CounterTick | src/LoRaApp/wlam_sensor_app.cc:172-179 | a due counter sensor increments its counter, and the packet carries the new value |
| SensorApp.AfterKeeps | src/LoRaApp/wlam_sensor_app.cc:144-188 | a sensor that is not due is untouched; a due one keeps its identity and interval and is rescheduled |
| SensorApp.AfterNotPast | src/LoRaApp/wlam_sensor_app.cc:144-188 | with `intervalJitterFraction` at most 1, no sensor is due before now after a tick |
| SensorApp.TickSignals | src/LoRaApp/wlam_sensor_app.cc:144-180 | the tick emits a sample on a flag's signal iff that flag is in the bitmap, and the sensor loop emits only samples |
| SensorApp.PayloadBytes | src/LoRaApp/wlam_sensor_app.cc:206-211 | the payload is base + bitmap byte + timestamp + 8 bytes per double field + the counter bytes when the counter is set |
| SensorApp.DoubleFieldCount | src/LoRaApp/wlam_sensor_app.cc:206-211 | the number of double fields is the number of temperature, NO2 and humidity flags set |
| SensorApp.WlamSensorApp.constructor | src/LoRaApp/wlam_sensor_app.h:33-35 | a new application has default sensors, no scheduler, no armed time and nothing sent |
| SensorApp.WlamSensorApp.InitSensor | src/LoRaApp/wlam_sensor_app.cc:73-87 | `initSensor` sets that sensor's state and first due time, and leaves the others alone |
| SensorApp.WlamSensorApp.Initialize | src/LoRaApp/wlam_sensor_app.cc:9-54 | stage 0 reads the parameters, creates the scheduler and initialises the four sensors |
| SensorApp.WlamSensorApp.EarliestNextDue | src/LoRaApp/wlam_sensor_app.cc:89-96 | the result is no later than any sensor's due time and is one of them, or `SIMTIME_MAX` |
| SensorApp.WlamSensorApp.ScheduleNext | src/LoRaApp/wlam_sensor_app.cc:98-103 | from an unarmed scheduler: fails (the "cannot schedule message to the past" error) iff some due time is before now; otherwise arms the earliest due time, staying unarmed iff no sensor is due |
| SensorApp.WlamSensorApp.VisitSensor | src/LoRaApp/wlam_sensor_app.cc:144-188 | one iteration of the sensor loop applies that sensor's step and emits its signals; the other sensors are untouched |
| SensorApp.WlamSensorApp.SampleAndSendIfDue | src/LoRaApp/wlam_sensor_app.cc:134-220 | every sensor advances by its step; a packet with the tick's fields and payload size is sent iff the bitmap is non-empty |
| SensorApp.WlamSensorApp.HandleMessage | src/LoRaApp/wlam_sensor_app.cc:222-235 | a scheduler tick advances every sensor, sends the tick's packet iff its bitmap is non-empty, emits the tick's samples followed by `LoRa_AppPacketSent`, and re-arms at the earliest due time or fails when that is in the past (never with a jitter fraction at most 1 and draws in [0, 1)); the payload parameters are untouched; any other message changes nothing |
| Text.Strip | simulations/run_and_analyze.py:115 | `str.strip()` leaves no whitespace at either end and keeps a string that has none |
| Text.SplitJoinWords | simulations/run_and_analyze.py:117 | `str.split()` of words joined by single spaces gives back the words |
| Text.SplitOnJoin | app/simulation_config.py:347 | `split("_")` of fields joined by `_` gives back the fields |
| Text.JoinSplitOn | app/simulation_config.py:347 | joining the `split("_")` fields gives back the string |
| Text.ParseIntToString | simulations/run_and_analyze.py:188 | `int(str(i)) == i` |
| Text.IntToStringInjective | simulations/run_and_analyze.py:188 | distinct integers have distinct decimal strings |
| Text.ParseRealOfNat | simulations/run_and_analyze.py:119 | `float()` of a decimal integer string is that integer |

## Left out

- Floating point: IEEE rounding, `nan`, and arithmetic on the infinities are not modelled. Sample values are exact reals, and the infinities appear only as the initial `min` and `max`.
- `np.std` is a square root. The model states the population variance, and proves that the spread is zero exactly when all repetition means agree.
- Unicode: `str.isdigit`, `str.strip` and `re.IGNORECASE` are modelled on ASCII. Unicode digits, case folding and whitespace are left out.
- Byte offsets: the trace text stands for its bytes, one character per byte. `decode(errors="ignore")` is not modelled.
- Parallelism: the `multiprocessing.Pool` and the thread pools run in the model as a sequential loop in chunk order. `pool.starmap` preserves that order.
- I/O as parameters: file reads, `os.listdir`, `os.path.getsize` and JSON loading become values passed in. JSON writing becomes the values written.
- Plotting and output: matplotlib, pandas, console output, units and colours are not modelled.
- The simulator run, the menus and the result manager are not modelled. This covers `run_simulation`, `run_simulations.py`, `main.py` and `results_manager.py`. Only the text a run leaves behind is modelled.
- `SimTrace.GenerateIni` uses the undefined `TEMP_RESULTS_DIR`. When the name is unbound the model fails with `NameError`; otherwise the directory is a parameter.
- `SensorApp.WlamSensorApp.VisitSensor`: the `int` counter is unbounded in the model. C++ signed-overflow behaviour at 2^31 is not modelled.
- `SensorApp.PayloadBytes`: a negative `basePayloadBytes` would wrap when converted to the packet's unsigned chunk length. The model keeps the signed sum.
- SensorApp: the sensor bitmap is a set of flags, not the `SB_*` bit values. OMNeT++ `simtime_t` is a real, and `SIMTIME_MAX` is the distinct value `Never`.
- SensorApp: `uniform()` draws and the generated sample values are parameters. `genTemperature`, `genHumidity` and `genNO2` are not modelled.
- SensorApp: these are not modelled:
  - the packet's node id, from `getFullPath`;
  - `attachLoRaTag`, `applyInitialLoRaParams` and `finish`;
  - the socket send itself, which is modelled as appending to `sent`.
- SensorApp: the application-layer initialisation stage is `applyInitialLoRaParams` followed by `ScheduleNext`. Only `ScheduleNext` is modelled; its `now` is the initialisation time.
- SensorApp: the "cannot schedule message to the past" error of `scheduleAt` is the `false` result of `ScheduleNext` and `HandleMessage`. The simulation stopping on it is not modelled.
- SensorApp: stage 0 also reads the environment-model and initial LoRa radio parameters and looks up the radio. Only what the generators and radio code need comes from them, so they are not modelled.
- `SensorApp.WlamSensorApp.Initialize` stores `counterPayloadBytes` once. The source reads that parameter at every send. OMNeT++ parameters are fixed during a run, so the value is the same.
- SensorApp: `lastValue = NAN` is `None`.
- `_load_configuration_data`: only the raw `.vec`/`.sca` branch is modelled. The branches that read already processed JSON, and the directory scan, are file management.
- The `packet_size` defect of `_process_result` (line 461 reads a name bound only at line 432) is modelled as written, as the `UnboundLocalError` path of `SimResult.SimulateResult`. No corrected variant is given: with at least one node, the spread always succeeds (`SimResult.SpreadSucceeds`).
- `CrossRep.AggregateSetup` and `CrossRep.ReadRepetitions` read each repetition with the corrected chunk start (`VectorTrace.RepetitionOf`, first Findings row). A sample on a line that begins exactly at a non-zero chunk boundary is therefore in the model's summary, although the script as written loses it (`VectorTrace.BoundaryLineLost`).
- `CrossRep.AggregateSetup` takes the listing of the directory that holds the repetitions, which is the setup's own directory as intended. The script lists `RESULTS_DIR` itself. That as-written behaviour is stated separately by `CrossRep.GeneratedRootFails` (third Findings row), not by the method.
- `Text.ParseReal` reads finite decimal literals only. Python's `float()` also accepts `inf`, `infinity` and `nan` in any case and with a sign, and digits separated by underscores (`1_0.5`). `Text.ParseInt` likewise rejects `1_0`. The lines below therefore skip a line whose value is such a literal, where the source records it.
- `VectorTrace.SampleOf`: a `.vec` sample whose value is non-finite or underscored is skipped, so it is not counted.
- `SimTrace.ReadingOf`: a `.vec` sample whose value is non-finite or underscored is skipped, so it is not counted.
- `SimTrace.ScalarOf`: a `nan` or `inf` scalar is skipped. OMNeT++ writes `nan` for the scalars of an empty statistic. In the source such a scalar replaces the earlier value, while in `SimTrace.ProcessScalars` and `SimTrace.ScalarsLastWins` the earlier value stays.
- `AnalyzerLoad.SampleOf`: a raw `.vec` sample whose value is non-finite or underscored is skipped, so it is not counted.
- `AnalyzerLoad.ScalarOf`: a `nan` or `inf` scalar is skipped. In the source it replaces the earlier value, while in `AnalyzerLoad.ProcessScalarFile` and `AnalyzerLoad.ScalarFileLastWins` the earlier value stays.
- `DataAnalyzer.Find` returns the first entry with the key, whereas `json.load` keeps the last of duplicate keys. Objects written by `json.dump` from a dict never repeat a key, so the two agree on the files the tools write. The model does not state distinct keys as a predicate.
- `DataAnalyzer.CalculatePdr` takes node entries whose fields are numbers (`LoRa_AppPacketSent:count`, `udp.packetReceived:count`). In the statistics files the processors write, a node's entry maps signals to dicts, which would make `total_tx += tx_count` raise `TypeError`. `_calculate_pdr` is never called in the analyzer, so that error path is not modelled.
- `src/LoRaPhy` (the Weissberger path-loss model) is not part of this model.
- The other visualisation scripts under `simulations/` are not modelled. They plot the same statistics.

## Findings

| source | as written | input that shows it | evidently intended | confidence | as-written member | corrected member |
|---|---|---|---|---|---|---|
| simulations/run_and_analyze.py:110-114 | a chunk with `start != 0` always discards the line holding `start`, even when a line begins exactly at `start`; the previous chunk stops before that offset | a trace whose byte `chunk_size - 1` is a newline (a line starts at offset `chunk_size`): that line's sample is read by no chunk | each line is read by exactly one chunk: the one in which it begins | not executed | VectorTrace.BoundaryLineLost | VectorTrace.FixedChunkInvariance |
| app/data_analyzer.py:188 | `_process_vector_file` and `_process_scalar_file` (line 242) call `re.compile`, but the module never imports `re` (imports at lines 8-15) | any configuration with one raw `.vec` or `.sca` file, e.g. one empty `.vec` file | the raw files are parsed into node statistics | not executed | AnalyzerLoad.LoadRawAsWritten | AnalyzerLoad.LoadConfiguration |
| simulations/run_and_analyze.py:165-166 | `aggregate_setup` lists `os.path.join(FLORA_ROOT, RESULTS_DIR)` and reads `<that>/<rep>/vectors.vec`, but `generate_ini` (lines 48-56) writes each repetition under `RESULTS_DIR/<sim_name>/${repetition}` | any run of `main()`: the results directory holds only `SF…_GW1` setup directories, so `repetitions == []` and line 175 raises `IndexError` | the repetitions are listed and read in `RESULTS_DIR/<setup_name>` | not executed | CrossRep.GeneratedRootFails | CrossRep.SetupDirectoryAggregates |
