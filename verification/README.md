# Verified model of the GNU Radio 4 runtime core

A Dafny model of the parts of GNU Radio 4 that rewrite, merge, schedule and configure signal-processing
graphs, and of the shared data structures below them, with proofs of what they keep. `dafny verify
dfyconfig.toml` checks all of it.

| files | what they model |
|---|---|
| `Options`, `Arithmetic` | the option type; minimum, maximum and powers of two |
| `PortNames`, `GraphModel`, `GraphRegrouping` | ports, edges and export tables; moving blocks into a sub-graph and back, in place |
| `GraphMeaning`, `GroupingProof`, `UngroupingProof`, `RegroupingRuns`, `ExactRuns` | the meaning of a graph (its leaf blocks and its resolved connections) and what regrouping keeps of it, step by step and over whole runs |
| `RegroupingOutcomes` | when a grouping and an ungrouping succeed, their errors, the exported names, and ports by index, by name and by exported name |
| `PortLookups` | which of these connections are made when the edges are applied, as ports are looked up by name, and when regrouping keeps that |
| `BlockMerging`, `MergedGraphs`, `MergedGraphFacts` | merged blocks: the fused per-sample function, the flattened graph with its port maps, and that they agree |
| `IirFilters` | the low-pass filter as a scalar recurrence and as two merged nestings |
| `CooleyTukey` | the recursive Fourier transform over exact complex numbers |
| `WorkSizing` | chunk sizes, soft requests, stride, tag and end-of-stream limits of a work call |
| `TagForwarding`, `SimdLoop` | the tags a block forwards; the vectorised sample loop |
| `WordBits`, `AtomicBits`, `BitsetInterleaving` | a bitset in words with masks, alone and under any interleaving of threads |
| `TimedSettings`, `SettingsContexts` | timed settings: lookup, insertion, unused times, cleaning up, and the store of all contexts |
| `HistoryLogger` | the overwriting log with a try-lock, as a state machine over atomic steps |
| `ValueRecords`, `ValueOwnership` | owning and viewing handles to records on several memory resources |
| `RegistrationParser`, `Expansions` | the registration macro's arguments and the combinations generated from them |

A graph is a list of blocks and a list of edges; a block is a leaf with port lists, or a sub-graph with
blocks, edges and an export table. `Meaning` follows every edge end through export tables down to a leaf
port, as `ungroupBlocks` does; `Connections` holds the part of it that is made when the edges are applied,
which looks each port up on its block. Code that updates objects in place is modelled by classes and loops
(`Graph`, `StridedBlock`, `AtomicBitset`, `SettingsStore`, `Memory`, `Value`, `IirReference`,
`FeedbackMerge`, `ComputeFft`), each method proved equal to a function of its inputs and old state, and the
properties are proved of those functions. Concurrent code is a machine whose steps are single atomic
accesses, run under every schedule.

## Findings

Properties that the code does not have as one might expect, each with its exact condition or an example:

- Grouping drops an internal edge that repeats another one's end points, and gives an undefined buffer
  size of a crossing edge a value; the meaning is kept exactly when neither happens
  (`GroupKeepsMeaning`), and over a run exactly when it happens at no step (`RunKeepsMeaningExactly`). The
  former comes from `addEdge` (`core/include/gnuradio-4.0/Graph.hpp:436-443`), the latter from `connect`
  (`core/include/gnuradio-4.0/Graph.hpp:550-564`).
- A grouping exports a port under a name made of the names of block and port. When an edge is applied, a '#'
  in a port name stands for an index into a collection of ports, and a sub-graph has none
  (`core/include/gnuradio-4.0/BlockModel.hpp:241-281`), so a crossing edge at a port of a collection is lost by
  every grouping that succeeds (`CollectionPortIsLost`, `GroupLosesCollectionPort`), although its meaning is
  kept. Every end that was found is found again exactly if no crossing edge whose inner end was found has a
  '#' in the name of its inner block or port (`GroupKeepsLookups`). A graph whose edges can all be applied
  makes the same connections all through a run exactly if every step is exact and no grouping has such a name
  at its border (`RunKeepsConnections`). Ungrouping brings the lost edges back (`UngroupHealsGroup`).
- A grouping that fails because a port cannot be exported has already taken the blocks out of the graph
  and put them nowhere (`GroupRefusedTooLate`, `GroupLosesBlocks`). Every other failure leaves the graph
  unchanged (`GroupFailureIsCleanUnlessRefused`), such as the unknown sub-graph type that
  `core/test/qa_Graph.cpp:990` covers.
- A feedback merge with a tap inherits the graph builder of one without. In a nesting of any depth the
  output port map covers the declared outputs exactly when there is no tap anywhere; with one, the map is
  too short or a builder further out reads past its end (`OutputMapMissesTap`, `OutputsMatchWithoutTap`).
- A tag in a stride gap ends the skip there, and a chunk that can run at the tag does so off the stride.
  A call and a run keep the stride exactly when no tag splits the gap in this way (`WorkKeepsStride`,
  `RunKeepsStride`). The next tag a port reports is at least one sample away
  (`core/include/gnuradio-4.0/Block.hpp:1525-1527`), so all runs keep the stride exactly when it is at most one
  sample longer than the chunk (`ShortGapNeverSplit`); `TagInGap` is a run that leaves any longer one.
- With both chunk sizes 1 an active stride does not cut windows of one sample (`WindowsAreChunks`).
- Storing parameters again for a context and a past time that is the newest stored one makes the cleaning
  at the end of the same call keep the older set (`RepeatedTimeIsLost`). Cleaning keeps the lookups from
  now on exactly when the newest past time was stored once, or the set first stored for it is the one last
  stored, or there is a set for the present (`TrimKeepsLookups`).
- A log record's `droppedBefore` counts overwritten records even if they had been drained, so where losses
  are read as records no reader has seen it is a lower bound exactly if none of them had been drained or
  the publisher's own count is as large (`LossCountIsLowerBound`, `LossCountCanOverstate`);
  `core/include/gnuradio-4.0/Logger.hpp:54-63` counts every overwritten record.
- Copying the monostate sentinel into a handle with a resource allocates a record, because the sentinel's
  own header says the minimum size (`SentinelIsCopied`); the branch meant for it (`core/src/Value.cpp:24-28`)
  is taken exactly for records below the minimum size (`CopyOwnsWholeRecords`).

## Model

| member | source | states |
|---|---|---|
| PortNames.ParseDecimal | core/include/gnuradio-4.0/BlockModel.hpp:241-281 | reading a written index gives the index back |
| PortNames.CandidatesDiffer | core/src/Graph.cpp:99-103 | suffixed export names with different suffixes differ |
| PortNames.CandidateNames | core/src/Graph.cpp:99-103 | the names tried are the plain one, then with "_1", "_2" and so on |
| PortNames.TakenCandidates | core/src/Graph.cpp:99-103 | k taken candidates need at least k taken names, so the search for a free one ends |
| PortNames.FreeCandidate | core/src/Graph.cpp:99-105 | the name search ends with a name that is not taken |
| GraphRegrouping.Graph.AddEdge | core/include/gnuradio-4.0/Graph.hpp:436-443 | adds the edge unless one with the same end points is there, and reports which |
| GraphRegrouping.Graph.Connect | core/include/gnuradio-4.0/Graph.hpp:550-564 | one edge more, with the same ends, weight and name; its buffer size is always defined, and the given one if that was |
| GraphRegrouping.Graph.GroupBlocks | core/src/Graph.cpp:76-172 | the in-place regrouping equals the specified transformation, for every outcome |
| GraphRegrouping.Graph.PlanGroup | core/src/Graph.cpp:113-130 | one pass sorts the edges into internal, crossing and untouched and plans the exports |
| GraphRegrouping.Graph.PlanExport | core/src/Graph.cpp:93-106 | a port already planned keeps its exported name, another gets an unused one |
| GraphRegrouping.Graph.ExportPlanned | core/src/Graph.cpp:153-157 | the export table is that of all planned exports, or none if one is refused |
| GraphRegrouping.Graph.EraseGrouped | core/src/Graph.cpp:142-144 | exactly the grouped blocks and the edges touching them go |
| GraphRegrouping.Graph.Reconnect | core/src/Graph.cpp:160-169 | every crossing edge is connected again through its exported port |
| GraphRegrouping.Graph.UngroupBlocks | core/src/Graph.cpp:174-282 | the in-place dissolution equals the specified transformation, for every outcome |
| GraphRegrouping.Graph.MapExternalNames | core/src/Graph.cpp:189-215 | the name map answers as a search of the export table, or some block is missing |
| GraphRegrouping.Graph.CollectAttached | core/src/Graph.cpp:226-254 | the recorded ends, or the error of the first edge end that leads nowhere |
| GraphRegrouping.Graph.AttachEnds | core/src/Graph.cpp:264-277 | the recorded ends overwritten one by one |
| GraphRegrouping.AttachedEndsRewire | core/src/Graph.cpp:233-277 | overwriting the recorded ends one by one rewires every outer edge and leaves the others alone |
| GraphMeaning.AddEdgesExact | core/include/gnuradio-4.0/Graph.hpp:436-443 | adding edges one by one keeps them all if and only if none repeats another |
| GraphMeaning.FindUnique | core/src/Graph.cpp:197-200 | with distinct names a block is found by its name |
| GroupingProof.PlanSound | core/src/Graph.cpp:91-130 | the plan is a bijection between inner ports and exported names, and holds every crossing edge's inner end |
| GroupingProof.PlanMinimal | core/src/Graph.cpp:91-130 | every planned export belongs to some crossing edge |
| GroupingProof.PlanSplits | core/src/Graph.cpp:113-130 | internal, crossing and untouched edges together are all edges, none lost or doubled |
| GroupingProof.PlanListsAll | core/src/Graph.cpp:113-130 | exactly the internal and exactly the crossing edges are listed as such |
| GroupingProof.ExportAllSound | core/src/Graph.cpp:153-157 | exporting the plan succeeds if and only if every planned port exists, and stores what was planned |
| GroupingProof.ExportedNameResolves | core/src/Graph.cpp:93-106 | every exported name leads back to the one inner port it was planned for |
| GroupingProof.GroupKeepsLeaves | core/src/Graph.cpp:142-148 | grouping neither loses nor invents a leaf block |
| GroupingProof.GroupKeepsMeaning | core/src/Graph.cpp:76-172 | grouping keeps every connection, resolved through export tables, if and only if no internal edge repeats another and every crossing edge has a buffer size |
| GroupingProof.GroupKeepsWellFormed | core/src/Graph.cpp:76-172 | distinct names and edges between blocks of the graph stay so, at every level |
| GroupingProof.GroupRefusedTooLate | core/src/Graph.cpp:143-157 | an export is refused if and only if some crossing edge names an inner port that does not exist |
| GroupingProof.GroupFailureIsCleanUnlessRefused | core/src/Graph.cpp:76-157 | a failed grouping of members leaves the graph unchanged if and only if it was not a refused export |
| GroupingProof.GroupLosesBlocks | core/src/Graph.cpp:143-157 | an example of a failed grouping that loses a block |
| GroupingProof.GroupDropsRepeatedEdge | core/src/Graph.cpp:149-151 | an example of a grouping that drops an edge |
| GroupingProof.GroupChoosesBufferSize | core/src/Graph.cpp:160-165 | an example of a grouping that changes a buffer size |
| GroupingProof.UndefinedBufferChanges | core/src/Graph.cpp:160-165 | any crossing edge without a buffer size makes a successful grouping change the meaning |
| UngroupingProof.RewiredEndResolves | core/src/Graph.cpp:233-277 | a rewired edge end leads to the leaf port the end at the sub-graph led to |
| UngroupingProof.UngroupedLookups | core/src/Graph.cpp:256-262 | after ungrouping every block is found as before, outside or inside |
| UngroupingProof.UngroupKeepsLeaves | core/src/Graph.cpp:256-280 | ungrouping neither loses nor invents a leaf block |
| UngroupingProof.UngroupKeepsMeaning | core/src/Graph.cpp:174-282 | ungrouping keeps every resolved connection if and only if no inner edge repeats another |
| UngroupingProof.UngroupKeepsWellFormed | core/src/Graph.cpp:174-282 | a well-formed graph stays well formed |
| UngroupingProof.UngroupFailureIsClean | core/src/Graph.cpp:217-254 | an ungrouping that returns an error has changed nothing |
| RegroupingOutcomes.UngroupSucceeds | core/src/Graph.cpp:174-254 | ungrouping a sub-graph succeeds if and only if every exported block is inside and every edge end at the sub-graph, by index or by name, is that of an exported port |
| RegroupingOutcomes.UngroupErrors | core/src/Graph.cpp:174-254 | each error and when it is given: no graph, then a missing block, then the first edge with a bad end, its source end first |
| RegroupingOutcomes.EndAnswers | core/src/Graph.cpp:64-71 | an end is refused for its index if and only if that is past the port list, and for not being exported if and only if no export has its name |
| RegroupingOutcomes.IndexedEndLeadsInside | core/src/Graph.cpp:226-254 | an end given by the index k leads to what the k-th exported port of its direction stands for |
| RegroupingOutcomes.SlotsAreExports | core/include/gnuradio-4.0/Graph.hpp:254-272 | the ports a sub-graph shows are its exports of that direction, in table order |
| RegroupingOutcomes.GroupOutcomes | core/src/Graph.cpp:76-157 | each outcome of a grouping, in the order in which the errors are looked for |
| RegroupingOutcomes.NewSubGraphComesLast | core/src/Graph.cpp:132-159 | after a successful grouping the new sub-graph comes last, with its names, the grouped blocks and every connection between them |
| RegroupingOutcomes.PlannedNames | core/src/Graph.cpp:93-106 | every export is named block.port, or with the first suffix whose predecessors are all taken |
| RegroupingOutcomes.IndexAndNameAgree | core/include/gnuradio-4.0/BlockModel.hpp:241-281 | in a list of plain distinct names a port is found by index if and only if it is found by the name that stands for it, as the same kind of port |
| RegroupingOutcomes.ExportsDescribePorts | core/include/gnuradio-4.0/Graph.hpp:254-272 | an exported port is found inside and is of the kind recorded for it |
| RegroupingOutcomes.SameConnectionMeans | core/include/gnuradio-4.0/Graph.hpp:436-443 | two edges are duplicates if and only if they differ in buffer size, weight and name at most |
| RegroupingOutcomes.ChosenBufferSize | core/include/gnuradio-4.0/Graph.hpp:550-564 | an undefined buffer size becomes 64 if the source port is found and not arithmetic, and 65536 else |
| RegroupingRuns.UngroupUndoesGroup | core/src/Graph.cpp:76-282 | ungrouping the new sub-graph always succeeds and restores the blocks; it restores all edges, up to order and to ports being named, if and only if the grouping was exact |
| RegroupingRuns.StepKeepsMeaning | core/src/Graph.cpp:76-282 | one successful step on a graph without doubled connections or undefined buffer sizes keeps leaves, connections resolved through export tables, and well-formedness |
| RegroupingRuns.RunKeepsMeaning | core/src/Graph.cpp:76-282 | any run of successful groupings and ungroupings from a graph without doubled connections or undefined buffer sizes keeps every connection, resolved through export tables, with its buffer size, weight and name |
| ExactRuns.StepShrinks | core/src/Graph.cpp:76-282 | any successful step on any well-formed graph keeps the leaf blocks, adds no connection resolved through export tables, and keeps them all if and only if its own condition holds |
| ExactRuns.RunKeepsLeaves | core/src/Graph.cpp:76-282 | any run of successful steps from any well-formed graph keeps the leaf blocks and well-formedness |
| ExactRuns.RunKeepsMeaningExactly | core/src/Graph.cpp:76-282 | a run keeps every connection resolved through export tables if and only if each of its steps meets its own condition; nothing lost from the meaning comes back |
| PortLookups.ExportedPortFound | core/include/gnuradio-4.0/BlockModel.hpp:241-281 | an exported name is found on the sub-graph if and only if it has no '#' |
| PortLookups.PlannedHashes | core/src/Graph.cpp:93-106 | an exported name has a '#' if and only if the name of the block or of the port has one |
| PortLookups.GroupKeepsLookups | core/include/gnuradio-4.0/Graph.hpp:684-692 | of any successful grouping: every edge end that could be looked up still can be, if and only if no crossing edge whose inner end could be has a '#' in the name of the inner block or port |
| PortLookups.GroupKeepsConnectable | core/include/gnuradio-4.0/Graph.hpp:684-692 | if every edge of the hierarchy could be applied, all still can be if and only if no crossing edge has a '#' inside; else only ends at the new sub-graph are lost |
| PortLookups.CollectionPortIsLost | core/include/gnuradio-4.0/BlockModel.hpp:241-281 | a crossing edge at a port of a collection is lost by every successful grouping |
| PortLookups.GroupLosesCollectionPort | core/include/gnuradio-4.0/BlockModel.hpp:241-281 | an example: the grouping succeeds and keeps the meaning, and the joined edge finds no port |
| PortLookups.UngroupMakesConnectable | core/src/Graph.cpp:174-282 | if at most ends at the sub-graph could not be looked up, after ungrouping every edge can be applied |
| PortLookups.UngroupHealsGroup | core/src/Graph.cpp:76-282 | ungrouping the new sub-graph makes every edge applicable again |
| PortLookups.StepKeepsConnections | core/include/gnuradio-4.0/Graph.hpp:684-692 | from a graph whose edges can all be applied, a successful step makes the same connections if and only if it is exact and, grouping, has no '#' at the border |
| PortLookups.RunKeepsConnections | core/include/gnuradio-4.0/Graph.hpp:684-692 | such a graph makes the same connections after every step of a run if and only if every step is exact and none has a '#' at its border |
| BlockMerging.MergedOutput | core/include/gnuradio-4.0/BlockMerging.hpp:258-284 | in every case of the left output count the result is the other left outputs, then the right ones |
| MergedGraphs.JoinSolves | core/include/gnuradio-4.0/BlockMerging.hpp:286-316 | the joined graph admits exactly the signals its parts admit, the right part fed with the left one's sample |
| MergedGraphs.LoopSolves | core/include/gnuradio-4.0/BlockMerging.hpp:675-709 | the same for a feedback loop, which hands its sample on one step late |
| MergedGraphs.MonitoredLoopSolves | core/include/gnuradio-4.0/BlockMerging.hpp:675-709 | the same with a monitor in the loop |
| MergedGraphs.GraphComputesFused | core/include/gnuradio-4.0/BlockMerging.hpp:189-316 | for every nesting of merges and feedback merges over stateful blocks, tapped or not, whatever signals the flattened graph with all declared outputs admits give the outputs and next state of the fused function, in the same port order |
| MergedGraphs.TapShowsNextSample | core/include/gnuradio-4.0/BlockMerging.hpp:839-846 | a tapped feedback merge gives what it gives without the tap, and after that the sample now on its way back |
| MergedGraphFacts.GraphHasSolution | core/include/gnuradio-4.0/BlockMerging.hpp:286-316 | the flattened graph always admits signals, so the agreement is never empty |
| MergedGraphFacts.EveryInputFedOnce | core/include/gnuradio-4.0/BlockMerging.hpp:41-66 | outer inputs and wire targets are together every input port of every leaf, each once |
| MergedGraphFacts.OutputMapMissesTap | core/include/gnuradio-4.0/BlockMerging.hpp:796-848 | for every nesting the output map exists and covers the declared outputs if and only if no feedback merge in it has a tap; then the graph is the flattened one |
| MergedGraphFacts.OutputsMatchWithoutTap | core/include/gnuradio-4.0/BlockMerging.hpp:796-848 | the graph has one output for each of the fused function if and only if there is no tap |
| MergedGraphFacts.AddSubGraph | core/include/gnuradio-4.0/BlockMerging.hpp:41-66 | a merged block's blocks and wires join those already there |
| MergedGraphFacts.GraphWithPortMaps | core/include/gnuradio-4.0/BlockMerging.hpp:286-316 | the builder's loops give the specified graph and port maps for every nesting, tapped or not, and the flattened graph if there is no tap; nothing if a port map is read past its end |
| MergedGraphFacts.FeedbackGraph | core/include/gnuradio-4.0/BlockMerging.hpp:675-709 | the same for a feedback merge |
| IirFilters.SplitScalesAddUp | core/include/gnuradio-4.0/BlockMerging.hpp:558-570 | any number of scaling paths with any signs amount to one scaling by the signed sum |
| IirFilters.EveryPathRuns | core/include/gnuradio-4.0/BlockMerging.hpp:558-570 | every path takes its own step on its own state, and the output is the sum of the outputs, each with its sign, a missing one being 1 |
| IirFilters.ChainIsRecurrence | core/benchmarks/bm_MergeApi.cpp:593-606 | a feedback merge whose feedback block damps by 1 - a computes the recurrence from any held sample |
| IirFilters.MergedFiltersEqualReference | core/benchmarks/bm_MergeApi.cpp:60-78 | for every input stream both merged filters produce y[n] = a*x[n] + (1-a)*y[n-1] from zero state |
| IirFilters.IirReference.ProcessAll | core/benchmarks/bm_MergeApi.cpp:60-78 | a stream through the scalar filter is the recurrence |
| IirFilters.FeedbackMerge.ProcessOne | core/include/gnuradio-4.0/BlockMerging.hpp:656-673 | one sample through the stateful object is the fused function |
| CooleyTukey.SumSplits | blocks/fourier/benchmarks/bm_fft_block.cpp:29-35 | the defining sum splits into those of the even and the odd samples |
| CooleyTukey.Butterfly | blocks/fourier/benchmarks/bm_fft_block.cpp:37-42 | both halves of the transform from the transforms of evens and odds, for every w with w^(N/2) = -1 |
| CooleyTukey.RecursiveIsDft | blocks/fourier/benchmarks/bm_fft_block.cpp:18-43 | for every power-of-two length and every such w the recursion gives the sum over j of x[j]*w^(jk) at k |
| CooleyTukey.RootsFit | blocks/fourier/benchmarks/bm_fft_block.cpp:37-39 | the root for half the length is the square, and its half power is -1 |
| CooleyTukey.ComputeFft | blocks/fourier/benchmarks/bm_fft_block.cpp:18-43 | the in-place transform leaves the defining sum at every position |
| WorkSizing.ResamplingIsLargestFit | core/include/gnuradio-4.0/Block.hpp:1581-1641 | without active stride, work is refused if and only if no chunk count fits all four bounds; else it is the largest fitting count within the request, or the largest at all if none is within it |
| WorkSizing.OneChunkUnderStride | core/include/gnuradio-4.0/Block.hpp:1617-1626 | under active stride a call takes none or one chunk, if and only if the chunk sizes are not both 1 |
| WorkSizing.ShortageReported | core/include/gnuradio-4.0/Block.hpp:1581-1641 | input is reported short if and only if no allowed number of chunks holds the input minimum, output if and only if one does and none holds the output minimum |
| WorkSizing.ProcessableIsMost | core/include/gnuradio-4.0/Block.hpp:1971-1977 | the processable input is the most that the port and block limits, what has arrived, the end of the stream and the next tag allow |
| WorkSizing.ChunkWithinLimits | core/include/gnuradio-4.0/Block.hpp:1959-1985 | skip and chunk never pass what is available, the end of the stream, the port limits or the room for output |
| WorkSizing.TagEndsChunk | core/include/gnuradio-4.0/Block.hpp:1974-1981 | a chunk ends at the next tag if and only if the tag is at least the minimum and one input chunk away, or no number of chunks (under stride, one) can hold the minimum within 64 bits on both sides; over all port states the code can report |
| WorkSizing.EndingMeans | core/include/gnuradio-4.0/Block.hpp:1983 | the stream is taken as ended if and only if what is left holds no whole number of chunks that satisfies the minima, as long as the product does not wrap |
| WorkSizing.EndingWraps | core/include/gnuradio-4.0/Block.hpp:1983 | where the product wraps around to 0 the stream is taken as ended |
| WorkSizing.WorkWithoutStride | core/include/gnuradio-4.0/Block.hpp:2018-2030 | without active stride a call processes from the read position and consumes exactly that |
| WorkSizing.WorkTakesBest | core/include/gnuradio-4.0/Block.hpp:1959-1985 | without active stride a call takes something if and only if the stream goes on and some number of chunks fits, and then the best answer to the request |
| WorkSizing.RunTiles | core/include/gnuradio-4.0/Block.hpp:2018-2030 | without active stride the windows of any run tile the stream from 0 to the read position |
| WorkSizing.TilesHoldOnce | core/include/gnuradio-4.0/Block.hpp:2018-2030 | in such a tiling every sample before the position is in exactly one window |
| WorkSizing.DefaultStride | core/include/gnuradio-4.0/Block.hpp:1568-1579 | with a stride of 0 or of one chunk every run is that of a block without stride |
| WorkSizing.WorkKeepsStride | core/include/gnuradio-4.0/Block.hpp:1974 | a work call, with any tags and any end of stream, keeps windows on multiples of the stride if and only if no tag splits the stride gap with a chunk that runs right at it; else a window is off the stride |
| WorkSizing.RunKeepsStride | core/include/gnuradio-4.0/Block.hpp:1551-1579 | for every schedule of arrivals, tags, room and end of stream every window starts at its multiple of the stride if and only if no call meets a tag that splits the gap; windows are one input chunk long unless both chunk sizes are 1 |
| WorkSizing.ShortGapNeverSplit | core/include/gnuradio-4.0/Block.hpp:1525-1527 | over all port states the code can report, every schedule keeps the stride if and only if it is at most one sample longer than the input chunk |
| WorkSizing.WindowsAreChunks | core/include/gnuradio-4.0/Block.hpp:1600-1626 | windows are one input chunk long in all schedules the ports can report if and only if the chunk sizes are not both 1 |
| WorkSizing.WindowCompletes | core/include/gnuradio-4.0/Block.hpp:1959-1985 | a call completes a window exactly when, after a skip that stops at a tag, at the end of the stream or of what has arrived, a chunk is ready and fits; else it only skips, and what is left of the stride is exact either way |
| WorkSizing.TagInGap | core/include/gnuradio-4.0/Block.hpp:1974 | for every longer stride, a schedule with a tag on the second sample of the gap that leaves it |
| WorkSizing.StridedBlock.InputSamplesToSkipBeforeNextChunk | core/include/gnuradio-4.0/Block.hpp:1551-1562 | what is skipped comes off the counter and is available; under stride the counter is used up or all that is available is skipped, else nothing is |
| WorkSizing.StridedBlock.InputSamplesToConsume | core/include/gnuradio-4.0/Block.hpp:1568-1579 | at the start of a stride what is consumed and what is left to skip make up the stride, and something is left only if all was consumed; otherwise nothing changes |
| WorkSizing.StridedBlock.DoWork | core/include/gnuradio-4.0/Block.hpp:2000-2059 | a work call on the block's own fields is the specified step, stopping at the end of the stream included |
| TagForwarding.PublishFiltered | core/include/gnuradio-4.0/Block.hpp:1129-1182 | verbatim or rebuilt, what is published is the tag by the simple rule, and nothing without forwarded keys |
| TagForwarding.Rebuilt | core/include/gnuradio-4.0/Block.hpp:1166-1181 | the rebuild path gives the tag by the simple rule, substituting or not |
| TagForwarding.ByRuleKeys | core/include/gnuradio-4.0/Block.hpp:1129-1182 | a key is published if and only if it is forwarded, with the block's setting or else the tag's value, sample rate rescaled |
| TagForwarding.PublishedValue | core/include/gnuradio-4.0/Block.hpp:1089-1182 | a key about a field, prefixed or asked for, is published with the block's own setting of the field if there is one and the tag's value else, a single-precision sample rate rescaled |
| TagForwarding.OnlyForwardedKeys | core/include/gnuradio-4.0/Block.hpp:1120-1182 | no key is published that is neither prefixed nor asked for, or that the tag does not have |
| TagForwarding.RescaledRateKeepsDuration | core/include/gnuradio-4.0/Block.hpp:1089-1100 | with the rescaled sample rate an output chunk lasts as long as the input chunk |
| TagForwarding.HandleOnce | core/include/gnuradio-4.0/Block.hpp:1231-1262 | the loop with its array of eight handles what the specification says |
| TagForwarding.HandledHowOften | core/include/gnuradio-4.0/Block.hpp:1231-1262 | each of the first eight different tags is handled once, any other as often as it occurs, so none is lost |
| TagForwarding.HandledOnce | core/include/gnuradio-4.0/Block.hpp:1231-1262 | every tag is handled once if and only if none beyond the first eight is repeated |
| TagForwarding.SeenAreFirstEight | core/include/gnuradio-4.0/Block.hpp:1231-1262 | the remembered tags are the first eight different ones |
| SimdLoop.SamplesOnceInOrder | core/include/gnuradio-4.0/Block.hpp:1704-1718 | main loop and epilogue process consecutive chunks from 0, up to n for a power-of-two width |
| SimdLoop.AlwaysFinishes | core/include/gnuradio-4.0/Block.hpp:37-46 | all samples are processed for every n if and only if the width is a power of two |
| SimdLoop.InvokeProcessOneSimd | core/include/gnuradio-4.0/Block.hpp:1704-1718 | for a lane-wise block the output is that of the sample-by-sample loop, and nothing beyond n changes |
| SimdLoop.InvokeProcessOnePure | core/include/gnuradio-4.0/Block.hpp:1720-1726 | the sample-by-sample loop maps every sample |
| WordBits.SameBits | core/include/gnuradio-4.0/AtomicBitset.hpp:121-129 | words with the same bits are equal |
| AtomicBits.ApplyBit | core/include/gnuradio-4.0/AtomicBitset.hpp:60-66 | a masked or whole-word operation sets exactly the bits it touches and stays a word |
| AtomicBits.RangeMaskBits | core/include/gnuradio-4.0/AtomicBitset.hpp:121-124 | the mask holds exactly the bits from begin to before end, at the word's end too |
| AtomicBits.CallExact | core/include/gnuradio-4.0/AtomicBitset.hpp:52-95 | for every alignment the word operations of a call cover exactly its bits, with its value |
| AtomicBits.WordsCover | core/include/gnuradio-4.0/AtomicBitset.hpp:13-40 | the words are as many 64-bit words as the bits need |
| AtomicBits.ReplayBit | core/include/gnuradio-4.0/AtomicBitset.hpp:52-95 | after any operations a bit is as the last one covering it says, or as before |
| AtomicBits.AtomicBitset.SetBit | core/include/gnuradio-4.0/AtomicBitset.hpp:52-67 | exactly one bit changes |
| AtomicBits.AtomicBitset.SetRange | core/include/gnuradio-4.0/AtomicBitset.hpp:69-101 | exactly the bits of [begin, end) change, for every alignment |
| AtomicBits.AtomicBitset.Test | core/include/gnuradio-4.0/AtomicBitset.hpp:103-113 | tells the bit |
| AtomicBits.MaskedBit | core/include/gnuradio-4.0/AtomicBitset.hpp:103-113 | a word masked with a bit is not 0 if and only if the bit is set |
| BitsetInterleaving.NextSound | core/include/gnuradio-4.0/AtomicBitset.hpp:60-66 | every atomic step keeps the words equal to the replayed log and every thread's operations complete and in order |
| BitsetInterleaving.BitsFollowLog | core/include/gnuradio-4.0/AtomicBitset.hpp:52-132 | under every interleaving each word is its committed operations applied in commit order |
| BitsetInterleaving.FailedExchangeWasOvertaken | core/include/gnuradio-4.0/AtomicBitset.hpp:60-66 | a failed exchange means that another thread changed that word after the load |
| BitsetInterleaving.RetriesArePaidFor | core/include/gnuradio-4.0/AtomicBitset.hpp:60-66 | a thread never retries more often than the other threads change the bitset |
| BitsetInterleaving.IdleBitsShowSomeLastCall | core/include/gnuradio-4.0/AtomicBitset.hpp:52-132 | when all threads are idle each bit shows the last call some thread made for it, or is clear |
| BitsetInterleaving.OnlyWriterWins | core/include/gnuradio-4.0/AtomicBitset.hpp:52-132 | a bit only one thread writes shows that thread's last call, whatever others do to the word |
| BitsetInterleaving.CompletesAlone | core/include/gnuradio-4.0/AtomicBitset.hpp:52-101 | a thread that runs alone, from any reachable state, completes its operations, each in two steps at most but for one exchange that may fail first |
| BitsetInterleaving.CallAlone | core/include/gnuradio-4.0/AtomicBitset.hpp:52-101 | a call that nobody disturbs sets exactly its bits, in at most two steps per word |
| TimedSettings.FindLowerBound | core/src/Settings.cpp:274 | the binary search finds the first entry not before a time |
| TimedSettings.LookupIsBest | core/src/Settings.cpp:261-302 | on a sorted history the lookup finds the settings of the greatest time not after the query |
| TimedSettings.InsertKeepsSorted | core/src/Settings.cpp:343-347 | insertion keeps the order, and strictly if and only if the time is new |
| TimedSettings.InsertChangesOnly | core/src/Settings.cpp:343-347 | insertion changes only the lookups from the new time to the next stored one |
| TimedSettings.ResolvedTime | core/src/Settings.cpp:315-328 | with nothing stored in [t, t+1000] the time stays, else it is one after the last time stored there; it is unused if and only if not both t+1000 and t+1001 are stored |
| TimedSettings.ExpiryFilters | core/src/Settings.cpp:363-367 | expiry removes an answer if and only if its entry has expired, and uncovers no older one |
| TimedSettings.ExpiresOnTime | core/src/Settings.cpp:363-367 | an entry stays up to its time plus the expiry time, that moment excluded |
| TimedSettings.TrimKeepsLookups | core/src/Settings.cpp:369-384 | dropping superseded entries changes no lookup from now on if and only if there are fewer than two past entries, or one for the present, or the newest past time is stored once, or its first and last stored parameters are equal |
| TimedSettings.CleanupKeepsLookups | core/src/Settings.cpp:350-386 | with distinct times a lookup from now on gives after cleaning what it gave before, or nothing if that has expired |
| TimedSettings.CleanedIsMinimal | core/src/Settings.cpp:350-386 | cleaning is idempotent, keeps the order, and leaves at most one entry at or before now |
| TimedSettings.HistoryAnswersLikeLog | core/src/Settings.cpp:237-386 | through any orderly run of storing and cleaning with any expiry, lookups from the last cleaning on answer as a log that forgets only what has expired |
| TimedSettings.CleaningAnswers | core/src/Settings.cpp:350-386 | one cleaning of a history whose newest past entry stands changes a later answer only by expiry |
| TimedSettings.DistinctTimesOrderly | core/src/Settings.cpp:315-386 | storing every time once with a clock that does not run back makes a run orderly |
| TimedSettings.RepeatedTimeIsLost | core/src/Settings.cpp:343-386 | storing again for the newest past time, each store followed by its cleaning, wins at first and is undone by its own cleaning, unless it has expired by then |
| SettingsContexts.RemoveUndoesInsert | core/src/Settings.cpp:184-190 | removing what was just stored gives the history back |
| SettingsContexts.RemovalTakesOne | core/src/Settings.cpp:184-196 | removal takes the first entry of the time from the one context, and the context with its last entry |
| SettingsContexts.EveryContextCleaned | core/src/Settings.cpp:350-386 | every context is cleaned by itself, and one whose entries have all expired stays without any |
| SettingsContexts.SettingsStore.FindBestMatchCtx | core/src/Settings.cpp:237-259 | an exact match wins; else the first answer of the predicate other than "no", by attempt and order, decides |
| SettingsContexts.SettingsStore.GetStoredParameters | core/src/Settings.cpp:261-302 | returns the settings of the greatest time not after the query |
| SettingsContexts.SettingsStore.ResolveDuplicateTimestamp | core/src/Settings.cpp:315-328 | the two searches give the specified time |
| SettingsContexts.SettingsStore.AddStoredParameters | core/src/Settings.cpp:341-347 | inserts into the one context, leaves the others, keeps all sorted |
| SettingsContexts.SettingsStore.RemoveExpiredStoredParameters | core/src/Settings.cpp:350-386 | cleans every history and keeps all sorted |
| SettingsContexts.SettingsStore.RemoveContext | core/src/Settings.cpp:169-203 | removes one entry of a stored time, the present for time 0, and the context with its last one; never the default context |
| HistoryLogger.NextSound | core/src/Logger.cpp:50-112 | every atomic step keeps the lock exclusive, the ring filled with the latest records and the drain complete and in order |
| HistoryLogger.Stamped | core/src/Logger.cpp:58-63 | the stored record keeps its message and carries the larger of its own and the known loss count |
| HistoryLogger.PublishAlone | core/src/Logger.cpp:50-68 | a publish that finds the lock free and is not disturbed appends its stamped record to the log, frees the lock and changes nothing else, whatever the state and the other threads |
| HistoryLogger.ClearAlone | core/src/Logger.cpp:74-83 | an undisturbed clear blanks every record, sets every counter to 0, frees the lock and changes nothing else |
| HistoryLogger.SnapshotAlone | core/src/Logger.cpp:89-112 | an undisturbed snapshot hands out the retained records and changes nothing |
| HistoryLogger.DrainAlone | core/src/Logger.cpp:89-112 | an undisturbed drain hands out the retained records from the cursor on and moves the cursor to the end |
| HistoryLogger.BusyCallsGiveUp | core/src/Logger.cpp:50-112 | a call that finds the lock taken gives up: a publish is counted as refused, a read or clear leaves no trace |
| HistoryLogger.OverwrittenAreNotRetained | core/src/Logger.cpp:58-63 | what counts as overwritten are the stored records but the last 20 |
| HistoryLogger.SnapshotIsLatest | core/src/Logger.cpp:89-112 | a snapshot that gets the lock is exactly the last min(20, published) records in order |
| HistoryLogger.DrainReachesEnd | core/src/Logger.cpp:89-112 | a drain that gets the lock delivers the log from some point to its end |
| HistoryLogger.DrainedInOrder | core/src/Logger.cpp:89-112 | drained records come in strictly increasing order, none twice |
| HistoryLogger.NothingUnaccountedFor | core/src/Logger.cpp:50-112 | at any reachable moment outside a clear, drained, overwritten undrained and pending records together are all published ones, and publishes are published or counted as refused |
| HistoryLogger.LossCountCoversOverwritten | core/src/Logger.cpp:58-63 | a stored record's loss count covers all records overwritten by then |
| HistoryLogger.LossCountIsLowerBound | core/src/Logger.cpp:58-63 | whatever count a record brings, the stored one claims no more than that or what readers lost if and only if no overwritten record had been drained or its own count is as large |
| HistoryLogger.LossCountCanOverstate | core/src/Logger.cpp:58-63 | a run that loses nothing and still stores a count of at least 1 |
| ValueRecords.Value.CopyFrom | core/src/Value.cpp:15-31 | without a resource the source is aliased and the heap untouched; with one a whole record is owned under a new address, reads the same, and no other live block changes |
| ValueRecords.CopyOwnsWholeRecords | core/src/Value.cpp:15-31 | a copy for a resource owns if and only if the copied record has at least the minimum size; else it is the sentinel and nothing is allocated |
| ValueRecords.SentinelIsCopied | core/src/Value.cpp:24-28 | copying the sentinel for a resource allocates |
| ValueRecords.Value.Destroy | core/src/Value.cpp:33-49 | afterwards nothing is owned and the resource is kept; exactly the record that was owned is no longer live |
| ValueRecords.DestroyedHoldsSentinel | core/src/Value.cpp:33-49 | a destroyed value holds the sentinel and keeps its resource |
| ValueRecords.Value.Move | core/src/Value.cpp:106 | the new value takes over, the old one is an empty view |
| ValueRecords.Value.Assign | core/src/Value.cpp:110-117 | copy, swap and release; self-assignment changes nothing |
| ValueRecords.Value.MoveAssign | core/src/Value.cpp:119-138 | within one resource the record changes hands, across resources it is copied and both old ones are released |
| ValueOwnership.StepSound | core/src/Value.cpp:15-138 | every operation keeps live allocations and owning values in one-to-one correspondence |
| ValueOwnership.StepEffect | core/src/Value.cpp:15-138 | what each operation does to the values it names: what is owned, read, moved, exchanged, emptied or released |
| ValueOwnership.LiveBlocksHaveOneOwner | core/src/Value.cpp:15-138 | after any program each live block has exactly one owner, of its resource and size |
| ValueOwnership.NothingLeaks | core/src/Value.cpp:33-49 | after any program that destructs all values each allocation was released once, to its resource and with its size |
| ValueOwnership.AssignGivesRecord | core/src/Value.cpp:110-138 | assigning gives the target the source's record, aliasing or not; a moved-from source is empty |
| ValueOwnership.OthersKeepRecords | core/src/Value.cpp:15-138 | an owner not named in an operation keeps its record |
| ValueOwnership.ProgramsNeverStick | core/src/Value.cpp:15-138 | from no values at all, any admissible operation can follow any program, with sound owners throughout |
| RegistrationParser.SplitTopLevelCommaSeparatedValues | blocklib_generator/tools/parse_registrations.cpp:51-78 | the loop with its bracket stack gives the specified split |
| RegistrationParser.SplitMeaning | blocklib_generator/tools/parse_registrations.cpp:51-78 | splitting fails exactly on unbalanced input; else there is one token more than top-level commas, each trimmed, balanced and free of them |
| RegistrationParser.TokensArePieces | blocklib_generator/tools/parse_registrations.cpp:51-78 | joining the untrimmed pieces with commas gives the trimmed input: nothing is lost, doubled or moved |
| RegistrationParser.TrimTakesSpaces | blocklib_generator/tools/parse_registrations.cpp:39-49 | trimming takes all white space off both ends and nothing else |
| RegistrationParser.BalancedInBrackets | blocklib_generator/tools/parse_registrations.cpp:51-78 | balanced text in matching brackets is balanced and hides its commas; in brackets of two kinds, or with one of them missing, it is not balanced |
| RegistrationParser.SplitUndoesJoin | blocklib_generator/tools/parse_registrations.cpp:39-78 | splitting the comma-joined list of such tokens gives the list back |
| RegistrationParser.SplitIsStable | blocklib_generator/tools/parse_registrations.cpp:39-78 | joining and splitting again changes nothing |
| Expansions.CartesianProduct | blocklib_generator/tools/parse_registrations.cpp:249-266 | as many rows as the product of the group sizes, row r holding the mixed-radix digits of r, last group fastest |
| Expansions.PositionsDiffer | blocklib_generator/tools/parse_registrations.cpp:249-266 | no combination of positions comes twice |
| Expansions.EveryChoiceHasRow | blocklib_generator/tools/parse_registrations.cpp:249-266 | every combination of positions comes |
| Expansions.Batches | blocklib_generator/tools/parse_registrations.cpp:441-465 | the batches concatenate to all combinations, each but the last full |

## Left out

- WorkSizing.StridedBlock.DoWork: does not model the epilogue call at the end of a stream, asynchronous ports, or a block that consumes less than it is given.
- SimdLoop.InvokeProcessOneSimd: takes one input and one output range where the original takes tuples of both, each handled alike.
- SettingsContexts.SettingsStore.AddStoredParameters: does not model the auto-update set that is created for the context.
- SettingsContexts.SettingsStore.RemoveExpiredStoredParameters: does not model the removal of auto-update sets; which of them remain is not claimed.
- SettingsContexts.SettingsStore.RemoveContext: does not model that the default context is activated again when the active one is removed.
- MergedGraphs.GraphComputesFused: is about the graph with an output for every declared one; the builder leaves taps out (`OutputsMatchWithoutTap`), and the graph of `SplitMergeCombine`, which carries no signs, is not modelled.
- MergedGraphFacts.GraphWithPortMaps: returns values instead of filling a `Graph` object, and nothing where the original reads past the end of a port map; block names and shared ownership are not modelled.
- CooleyTukey.ComputeFft: takes cosine and sine as functions with the addition theorems, over reals; lengths that are not powers of two are not claimed, and length 0 makes the original recurse without end.
- HistoryLogger.NothingUnaccountedFor: counts since the last clear, and says nothing in the middle of one.
- Regrouping: crossing and rewired edges lose their domain, user-interface constraints, data and tag resources and connection state in the original; edges carry only ends, buffer size, weight and name here. The order of the export table stands for the iteration order of the property maps.
- Regrouping: block initialisation, the scheduler's life cycle and inner graphs that are themselves already exported are not modelled; an edge may name a block outside the graph, as the original allows.
- Applying an edge: only the lookup of its two ports is modelled, not the type check, the choice of buffers and the compute domain.
- The other graph operations (`replaceBlock`, removal, messages and property callbacks) are settled by reading one branch each.
- The last case of `MergeByIndex::processOne` is modelled as the concatenation the other cases follow.
- Floating-point rounding, infinities and NaN: samples are reals.
- 64-bit wrap-around of sequence numbers, times plus expiry, and counters; where the work sizing multiplies for the end-of-stream test the wrap is modelled.
- Memory-order weakness: atomic steps are sequentially consistent.
- Asynchronous ports, blocks that consume less than they are given, the epilogue call at the end of a stream, and the life cycle of a block.
- Merging tags of all ports into one (`mergeTagPropagation`) and the automatic update of settings from tags.
- Auto-update parameter sets, staging and the active context of the settings store: the active context may no longer be stored after a cleaning, and which auto-update sets remain after expiry is not claimed.
- The fixed-record and asynchronous log backends, whose ring buffer is not part of this model.
- The bytes of records beyond a size and a payload, tensors and maps inside values, comparison and hashing, and how long the bytes behind a view live.
- Placeholder replacement, file output and the command line of the registration tool.
