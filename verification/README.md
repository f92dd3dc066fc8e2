# SurgeFuzz verification

This project models the parts of SurgeFuzz that decide what the fuzzer looks at and what it keeps, and
proves what they promise.

* **Netlist searches of the Yosys passes.** A netlist is a finite set of named cells with typed
  ports, each port a sequence of signal bits, together with the alias table behind `SigMap`
  (`Netlist.dfy`). `DependentSearch.dfy` is the backward, bit-slicing search of the SurgeFuzz pass
  as a class with its queue, visited set, dependent record and circuit graph. `SliceSoundness.dfy`
  gives the combinational cells a meaning and shows what a completed search is worth;
  `SearchProgress.dfy` shows when nothing cuts it short, `SearchDepth.dfy` what the depth limit
  leaves of it, and `SliceSearch.dfy` puts the two together. `SliceExample.dfy` runs the search on a
  netlist that meets all assumptions, and `SliceLimits.dfy` shows why each is needed.
  `InstanceGraph.dfy` is the instance graph of the DirectFuzz pass and its breadth-first distances,
  `ControlRegister.dfy` and `OrFolding.dfy` are the register search and the coverage circuit of the
  DifuzzRTL pass. The two forward searches share `ForwardSearch.dfy`.
* **From simulated cycles to the corpus.** `SurgeRecorder.dfy` (driver) and `Surge.dfy` (fuzzer)
  compute and read back surge scores over the functions in `SurgeScore.dfy`; `ToggleDriver.dfy` and
  `Coverage.dfy` are the drivers and coverage bitmaps; `Campaign.dfy` is the campaign as a state
  machine over `fuzz_one`, and `Fuzzer.dfy` the fuzzing loop whose every step is a step of that
  machine. `Monitors.dfy` shows the same of an execution under the other three coverage methods.
* **Signal selection.** `Selector.dfy` is the selection by mutual information, with `nmi` an
  arbitrary real-valued function of two names; `Analyze.dfy` is the selection by distance.
* **Programs.** `Instruction.dfy`, `Programs.dfy` and `Printing.dfy` are the RISC-V program
  generator, its mutators and its printer, and `Reading.dfy` reads assembly text back;
  `DistanceList.dfy` is the distance list in the environment.

Objects that the source updates in place are classes whose methods are proved against functions of
their fields; lemmas then speak about those functions. Bytes and words are bit vectors, the 32-bit
counters of the surge score and the 64-bit distances are written out. The random number generator is
an arbitrary value in range, and the order in which pointer-keyed sets are visited is arbitrary too,
in `ControlRegister` as an order of readers that stays the same throughout.

## Where the code differs from what one would expect

* `search_dependents` computes the offset of a signal in the whole port and applies it to each
  chunk, follows a signal only into a cell that drives all of it, compares against the output under
  its own name instead of the canonical one, and does not collect a register chunk wider than 32
  bits. Each of these leaves a register out of the search on the netlists of `SliceLimits`, whatever
  the budgets.
* A slice is not visited when the whole chunk it is taken from has been visited before, so a signal
  on a short backward path need not be expanded itself; `SearchDepth.PathFollowed` names this
  exception.
* `get_distance` answers 256 both for an unreachable instance and for one at distance 256
  (`InstanceGraph.DummyIsAmbiguous`). `execute` declares `target_instance_name` a second time in an
  inner block, so the graph is built for the empty name; the model takes any target.
* For COUNT annotations the score read back from the bitmap can be wrong
  (`SurgeScore.CountMayReadBackWrong`); `SurgeScore.ReadBackIsRight` says exactly when it is right.
* `DirectFuzz::reset` runs its inner loop over bytes where a row has words, and so clears words
  behind the shared ones (`Coverage.DirectFuzzResetOverruns`).
* The selection by mutual information never compares a column whose name contains the name of the
  last pick, so two fully redundant signals can both be picked, and when nothing is left to compare
  before the budget is filled the loop does not end, which the model returns as the outcome
  `Diverges` (`Selector.HiddenPairIsSelected`). When no name hides another, the loop ends exactly if
  the single-pass greedy selection fills the budget. When the start signal alone is wider than the
  budget, the total is its width, not the budget.
* An empty distance list is read back as one zero, and a distance of more than 64 bits as the
  largest 64-bit number (`DistanceList.ReadsList`).

## Model

| member | source | states |
|---|---|---|
| DriverTable.SetupDrivers | pass/method/surgefuzz.cc:482-508 | looking any signal up in the table gives exactly the cells with an input or output port on one of its wire bits |
| DriverTable.SetupReaders | pass/method/directfuzz.cc:384-403 | looking any signal up in the table gives exactly the pairs of a cell and an input port on one of its wire bits (the same loop as pass/method/difuzzrtl.cc, setup_drivers) |
| Circuit.CircuitGraph.AddNode | pass/method/surgefuzz.cc:138-147 | names and ids stay in one-to-one correspondence with 0..n-1; a new name gets the next id, existing nodes and edges stay |
| Circuit.CircuitGraph.AddEdge | pass/method/surgefuzz.cc:123-155 | between known cells one edge is filed under the key the edge order compares, unless that key exists; endpoints are nodes |
| Circuit.DependentManager.Add | pass/method/surgefuzz.cc:49-56 | the table by bit stays faithful to the list of all recorded entries although the set behind each bit keeps one entry a depth |
| Circuit.DependentManager.GetDependentInfo | pass/method/surgefuzz.cc:27-71 | the result is an entry recorded for some overlapping signal, of least depth among all of those |
| Dataflow.GetExtractOffset | pass/method/surgefuzz.cc:294-306 | the loop finds the least offset at which the signal stands in the wider one, and fails exactly when there is none or an assertion fails |
| Dataflow.SliceIsPlain | pass/method/surgefuzz.cc:385-445 | a slice of a non-constant chunk is canonical, made of wire bits in a row, and one of finitely many |
| Dataflow.SpanIsOneChunk | pass/method/surgefuzz.cc:345-349 | wire bits in a row form a single chunk, so the assertion on a dequeued signal holds of every signal the search has reached |
| Netlist.ChunksAreMaximal | pass/method/surgefuzz.cc:345-386 | no two neighbouring chunks of a signal could be one chunk |
| Dataflow.SliceIsCanonical | pass/method/surgefuzz.cc:421-434 | the slice taken at a bit-level port is never constant, so the assertion on it holds |
| Dataflow.BitStepInLine | pass/method/surgefuzz.cc:420-434 | a step through a bit-level port reaches at most as many bits as the signal has: those of one chunk at the positions at which the signal stands in the output, up to the end of the chunk |
| Dataflow.ArithmeticIsFollowed | pass/method/surgefuzz.cc:200-282 | the inputs of arithmetic and shift cells are followed to the bits in line with the signal |
| Dataflow.PathCounts | pass/method/surgefuzz.cc:401-409 | the counters of a state are, over the backward path, the number of cells, the number of flip-flops among them, and whether a multiplexer is entered by its select |
| DependentSearch.LevelsExtend | pass/method/surgefuzz.cc:339-416 | queueing states one step deeper keeps the queue in order of depth and over at most two consecutive depths |
| DependentSearch.ClosingExpand | pass/method/surgefuzz.cc:357-472 | expanding one state keeps: what was reached is expanded or queued, what was expanded is covered, only expanded signals are collected |
| DependentSearch.DependentSearch.constructor | pass/method/surgefuzz.cc:328-337 | the search starts with the canonical start signal at depth 0 alone in the queue |
| DependentSearch.DependentSearch.Push | pass/method/surgefuzz.cc:399-416 | the queued state is witnessed by a backward path with its depth, its register count and its control flag; the edge of the step is in the graph afterwards and no other edge is added |
| DependentSearch.DependentSearch.StepTrue | pass/method/surgefuzz.cc:401-409 | one step lengthens the witness path by one, counts a register exactly at a flip-flop, and sets the control flag exactly at a multiplexer select |
| DependentSearch.DependentSearch.NoteStep | pass/method/surgefuzz.cc:411-416 | the graph has the driving cell as a node and, except in the first step, the edge from it to the cell the signal came from; no other edge is added |
| DependentSearch.DependentSearch.NewEdge | pass/method/surgefuzz.cc:411-416 | an edge x to y stands for a signal that x drives and that is connected to the named port of y |
| DependentSearch.DependentSearch.VisitChunk | pass/method/surgefuzz.cc:385-419 | afterwards nothing is owed to the chunk, unless an assertion of the pass fails there |
| DependentSearch.DependentSearch.VisitSlice | pass/method/surgefuzz.cc:420-463 | at a bit-level port the slice in line with the signal is visited, unless the chunk ends before it |
| DependentSearch.DependentSearch.VisitCell | pass/method/surgefuzz.cc:374-471 | all input ports are followed, and the signal is collected exactly if the cell is a flip-flop and the signal has at most 32 bits |
| DependentSearch.DependentSearch.Expand | pass/method/surgefuzz.cc:351-472 | every driver of the signal is covered, unless some cell on it is a memory read or an assertion fails at a cell that drives it or lacks an output; the order of the cells is arbitrary |
| DependentSearch.DependentSearch.Dequeue | pass/method/surgefuzz.cc:340-349 | the state that leaves the queue is witnessed by a backward path, and its signal is canonical |
| DependentSearch.DependentSearch.VisitTarget | pass/method/surgefuzz.cc:358-471 | one cell on the signal: covered if it drives the signal and no assertion fails, passed over if it does not |
| DependentSearch.DependentSearch.Round | pass/method/surgefuzz.cc:339-472 | a round visits a new signal or shortens the queue, adds at most 32 bits, leaves a state at the depth limit unexpanded and collects at smaller depths only, and is cut short only at a state that is too deep, reads memory or fails an assertion at a driver |
| DependentSearch.SpreadExpand | pass/method/surgefuzz.cc:343-472 | expanding one state keeps: every state expanded above the depth limit has what it needs among the signals visited at most one step deeper |
| DependentSearch.HistoryExtend | pass/method/surgefuzz.cc:339-416 | queueing keeps the levels, the witnesses of what left the queue, and that no state is deeper than there are visited signals |
| DependentSearch.DependentSearch.Run | pass/method/surgefuzz.cc:308-480 | the search ends on every netlist, cyclic ones included, with at most max_bit + 31 bits; no state ever queued is deeper than max_depth and every record is of a smaller depth; depths leave the queue in order, every state that left had a witness path; it is complete and closed unless the bit budget is used up or a state stopped it |
| SearchProgress.OffsetFound | pass/method/surgefuzz.cc:294-306 | a run of wire bits that is part of a cell output that is itself such a run is found at some offset |
| SearchProgress.ReachedIsFollowed | pass/method/surgefuzz.cc:345-440 | on a well-sized netlist no assertion fails at any signal on a backward path, and no memory read is met |
| SearchProgress.StoppedIsTooDeep | pass/method/surgefuzz.cc:339-472 | there, a search that was stopped met a state at the depth limit |
| SearchProgress.CollectedAreRegisters | pass/method/surgefuzz.cc:375-383 | only bits that some flip-flop drives are collected, so a bit budget above their number is never used up |
| SearchProgress.NeverHalted | pass/method/surgefuzz.cc:345-440 | on a well-sized netlist no state that left the queue fails an assertion or reads memory |
| SearchDepth.RecordsAbove | pass/method/surgefuzz.cc:343-383 | every collected bit lies on a backward path of fewer than max_depth steps to a signal of at most 32 bits that a flip-flop drives |
| SearchDepth.PathFollowed | pass/method/surgefuzz.cc:339-472 | the end of every backward path within the depth limit has left the queue, after no more steps than the path has, unless at some step of the path the whole chunk had been visited and its slice was passed over |
| SearchDepth.CollectedExactly | pass/method/surgefuzz.cc:339-472 | where no path is passed over, the collected bits of a search that only the depth limit cut short are exactly those of the flip-flop signals of at most 32 bits on paths of fewer than max_depth steps |
| SliceSoundness.CombAgrees | pass/method/surgefuzz.cc:200-282 | the ports followed at their levels determine the output bits the search stands on, for bitwise, multiplexer, reduction and comparison cells |
| SliceSoundness.DriverAgrees | pass/method/surgefuzz.cc:351-472 | the driver of a covered signal gives it equal bits under two valuations that agree on what was followed and collected |
| SliceSoundness.SliceDeterminesSignal | pass/method/surgefuzz.cc:339-473 | after a completed search, two valuations of the netlist that agree on the collected bits and on the undriven signals give the annotated signal the same value |
| SliceSoundness.NextBitAgrees | pass/method/surgefuzz.cc:240-282 | a clock edge keeps the agreement on collected bits, whatever function of data, enable and reset the flip-flops compute |
| SliceSoundness.SliceDeterminesRun | pass/method/surgefuzz.cc:339-473 | after a completed search, two runs that start with equal collected bits and see the same undriven signals and resets show the same annotated signal in every cycle |
| SliceSearch.RecordsFromFFs | pass/method/surgefuzz.cc:377-383 | every collected bit belongs to a recorded signal that a flip-flop drives |
| SliceSearch.CompletedDetermines | pass/method/surgefuzz.cc:339-473 | a completed search determines the annotated signal in one cycle and over whole runs |
| SliceSearch.SearchDependents | pass/method/surgefuzz.cc:308-480 | end to end: every collected bit lies on a path of fewer than max_depth steps to a signal of at most 32 bits that a flip-flop drives; a search that neither used up its bits nor met a memory read or a failing assertion has expanded the end of every shorter path on which no whole chunk had been visited before its slice; a complete search has collected registers that determine the annotated signal, in one cycle and over runs; an incomplete one used up its bits or met a state too deep, a memory read or a failing assertion; on a well-sized netlist only the budgets remain, and with budgets above the number of signals and register bits it is complete |
| SliceExample.ToggleSearch | pass/method/surgefuzz.cc:308-480 | on a register that toggles through an inverter, a search of three rounds and two bits is complete and has collected exactly the register |
| SliceExample.ToggleDetermined | pass/method/surgefuzz.cc:339-473 | the conditions of the slice theorems can be met: by the theorem, every run of this netlist whose register starts at 0 shows the same signal in every cycle |
| SliceLimits.TwoChunkPortIsMissed | pass/method/surgefuzz.cc:431-440 | an inverter on two one-bit signals: the port offset skips both chunks, and no search from there, whatever its budgets, collects the register the signal depends on |
| SliceLimits.SplitDriverIsMissed | pass/method/surgefuzz.cc:368-373 | a signal that two registers drive in parts: no search from there collects either |
| SliceLimits.AliasedOutputIsMissed | pass/method/surgefuzz.cc:364-373 | a register whose output is connected under an alias: no search from its signal collects it |
| SliceLimits.WideRegisterIsMissed | pass/method/surgefuzz.cc:375-383 | a register of 33 bits drives the signal, and no search from there collects it |
| ForwardSearch.ReachedIsDone | pass/method/directfuzz.cc:237-280 | no path inside the region leaves the expanded signals once all their successors are visited |
| ForwardSearch.FrontierClosed | pass/method/directfuzz.cc:237-280 | when the queue is empty, the expanded signals are exactly those some path inside the region reaches |
| ForwardSearch.VisitOutput | pass/method/directfuzz.cc:263-278 | the unvisited chunks of a cell output are queued, and every reached signal stays expanded or queued |
| ForwardSearch.NearerIsDone | pass/method/difuzzrtl.cc:105-167 | first in, first out: every signal on a shorter path than the front of the queue is expanded already |
| ForwardSearch.LeveledRound | pass/method/difuzzrtl.cc:105-167 | one round keeps the queue in order of level, over at most two levels, with a path of that length to every queued signal |
| InstanceGraph.AnalyzeAdjacentInstanceNames | pass/method/directfuzz.cc:226-282 | the result is exactly the set of instances that own the first foreign signal on some path through supported cells that otherwise stays in the start instance |
| InstanceGraph.InstanceConnectivityGraph.Add | pass/method/directfuzz.cc:194-201 | exactly one edge is added, and every edge endpoint is a node |
| InstanceGraph.InstanceConnectivityGraph.AddCell | pass/method/directfuzz.cc:177-190 | adds exactly the connections that start at one of the bits of a cell output |
| InstanceGraph.InstanceConnectivityGraph.Construct | pass/method/directfuzz.cc:165-192 | the edges are exactly the connections of the netlist, and every node is an endpoint |
| InstanceGraph.InstanceConnectivityGraph.Relax | pass/method/directfuzz.cc:217-222 | the edges of the dequeued node are relaxed, distances stay lengths of walks, the queue stays in order over two levels, and the 64-bit sum does not wrap |
| InstanceGraph.WalkBound | pass/method/directfuzz.cc:203-224 | when the queue is empty, no walk from the target is shorter than the distance of its end |
| InstanceGraph.RelaxedIsRight | pass/method/directfuzz.cc:203-224 | a node has the length of a shortest walk from the target, or the 64-bit maximum if and only if there is none |
| InstanceGraph.InstanceConnectivityGraph.CalcDistance | pass/method/directfuzz.cc:203-224 | ends on every graph with the right distance for every node, for any target |
| InstanceGraph.InstanceConnectivityGraph.constructor | pass/method/directfuzz.cc:91-93 | the graph has exactly the connections of the netlist as edges and shortest distances from the target |
| InstanceGraph.InstanceConnectivityGraph.GetDistance | pass/method/directfuzz.cc:95-110 | a reachable instance gets its shortest distance, any other the default of 256; with at most 256 nodes the default is larger than every true distance |
| InstanceGraph.DummyIsAmbiguous | pass/method/directfuzz.cc:95-110 | the answer 256 means unreachable or truly at distance 256, and nothing else |
| ControlRegister.VisitReaders | pass/method/difuzzrtl.cc:123-166 | the readers of one signal: a verdict other than to go on is that of some reader; to go on means no reader ends the search and all their outputs are visited |
| ControlRegister.EndsHere | pass/method/difuzzrtl.cc:105-146 | a verdict comes from one of the nearest readers that end the search |
| ControlRegister.IsControlRegister | pass/method/difuzzrtl.cc:95-169 | true if a nearest reader that ends the search is a multiplexer select, false if it is a flip-flop or there is none, an exception if it lacks the output; paths run through combinational cells over signals of the module or of no module, the worklist always ends, and for a given order of readers the verdict is fixed |
| ControlRegister.VerdictMeaning | pass/method/difuzzrtl.cc:95-169 | true implies such a path to a select; false implies there is none or one to a flip-flop; where neither a flip-flop nor a reader without output is reachable, the result is true exactly when a path to a select exists |
| ControlRegister.NearestDecides | pass/method/difuzzrtl.cc:95-169 | if all nearest readers that end the search are of one kind, that kind is the result |
| ControlRegister.FindsOne | pass/method/difuzzrtl.cc:95-169 | for a given order of readers the search from a signal has one answer only |
| ControlRegister.SearchControlRegisters | pass/method/difuzzrtl.cc:231-258 | registers listed under a module are register chunks of it of which the search says they steer a multiplexer, all others are those of which it says they do not; each is listed exactly as often as it occurs in the output of its flip-flop; it fails only where a flip-flop or a nearest reader lacks its output |
| ControlRegister.ListStep | pass/method/difuzzrtl.cc:192-256 | one more examined chunk keeps the list right, listed or not |
| ControlRegister.CountStep | pass/method/difuzzrtl.cc:192-256 | one more chunk examined is listed once if the search says that it steers a multiplexer, and no other count changes |
| ControlRegister.ListedWidth | pass/method/difuzzrtl.cc:200-221 | the bits listed under a module are those of its register chunks that steer a multiplexer, each counted as often as it occurs |
| OrFolding.FoldsGroup | pass/method/difuzzrtl.cc:303-311 | one more group of at most W bits extends the fold to those bits |
| OrFolding.ExtendedBit | pass/method/difuzzrtl.cc:294-300 | when the registers fit, the zero-extended bit k is the OR of the one register bit at index k modulo W, or of none |
| OrFolding.Fold | pass/method/difuzzrtl.cc:302-311 | the emitted $or cells fold all register bits |
| OrFolding.Instrument | pass/method/difuzzrtl.cc:285-318 | for every list of registers and every width W > 0, output bit k evaluates to the OR of the register bits whose index is k modulo W |
| SurgeScore.CounterWraps | driver/include/surge/surge.hpp:46-54 | the history cell survives the wrap of the 32-bit cycle counter, because 256 divides 2^32 |
| SurgeScore.WindowSlides | driver/include/surge/surge.hpp:50-52 | one more cycle changes the number of ones in the window by the new signal less the one that leaves, and never below zero |
| SurgeScore.WindowBound | driver/include/surge/surge.hpp:55 | the window of 256 cycles holds at most 256 ones, so the assertion holds |
| SurgeScore.RingDrops | driver/include/surge/surge.hpp:44-52 | the ring cell about to be overwritten holds the signal that leaves the window |
| SurgeScore.ScoresClimb | driver/include/surge/surge.hpp:41-64 | FREQ and CONSEC scores start at 0 or 1 and never climb by more than one a cycle |
| SurgeScore.ClimbHits | driver/include/surge/surge.hpp:15-18 | a climbing sequence takes every value from 1 up to any value it takes |
| SurgeScore.ReadBackIsRight | fuzzer/include/surge/surge.hpp:36-62 | the score read from the bitmap is min(largest score, 255) if and only if no score passed 255 or some score was 255 modulo 256 |
| SurgeScore.FreqAndConsecReadBack | fuzzer/include/surge/surge.hpp:36-62 | after any FREQ or CONSEC run of at least one cycle the score read back is min(largest score, 255) |
| SurgeScore.FreqCounts | driver/include/surge/surge.hpp:41-57 | the FREQ score is the number of the last 256 cycles in which the signal was 1 |
| SurgeScore.ConsecCounts | driver/include/surge/surge.hpp:59-64 | below 2^32 cycles the CONSEC score is the number of ones the history ends with: the last so many signals are 1 and the one before is not |
| SurgeScore.ConsecOfRun | driver/include/surge/surge.hpp:59-64 | the largest CONSEC score of a run is the length of its longest block of ones, as far as 32 bits can count |
| SurgeScore.ReadBackMeans | fuzzer/include/surge/surge.hpp:36-62 | the score read back for a run is, up to 255, the most ones in 256 consecutive cycles for FREQ and the longest block of ones for CONSEC, for runs of any length, and for COUNT the largest signal modulo 256 |
| SurgeScore.CountMayReadBackWrong | driver/include/surge/surge.hpp:66-68 | a COUNT signal of 256 reads back as 0 |
| SurgeRecorder.SurgeRecorder.CalcFreqSurgeScore | driver/include/surge/surge.hpp:41-57 | for every 0/1 history the 32-bit counters and the ring give the number of the last 256 cycles with a signal of 1, at most 256, without underflow |
| SurgeRecorder.SurgeRecorder.CalcConsecSurgeScore | driver/include/surge/surge.hpp:59-64 | the score counts the ones the history ends with: up to 2^32 - 1 cycles the last so many signals are 1 and the one before is not; beyond, it wraps at 2^32 |
| SurgeRecorder.SurgeRecorder.Update | driver/include/surge/surge.hpp:15-18 | a signal is accepted exactly if it passes the assertion of its annotation; then the bitmap is the one marked with the scores of the whole history |
| SurgeRecorder.SurgeRecorder.Drive | driver/include/surge/surge.hpp:15-39 | a simulation of any length leaves the bitmap marked with all its scores |
| Surge.Surge.Reset | fuzzer/include/surge/surge.hpp:30-34 | all 256 entries of the local bitmap are zero |
| Surge.Surge.Apply | fuzzer/include/surge/surge.hpp:40-46 | an entry of the global bitmap is set exactly if it was set in some merged run |
| Surge.Surge.GetMaxValue | fuzzer/include/surge/surge.hpp:53-62 | the largest index set, 0 if there is none |
| Surge.Surge.BestScore | fuzzer/include/surge/surge.hpp:38 | the best score is the largest score of any merged run, 0 before the first |
| Surge.Surge.CoverageCount | fuzzer/include/surge/surge.hpp:20-28 | the number of entries set |
| Surge.Surge.Simulate | fuzzer/include/surge/surge.hpp:30-46 | reset, drive, read and merge: the score is, up to 255, the most ones in 256 consecutive cycles for FREQ and the longest block of ones for CONSEC, and for COUNT the largest signal modulo 256 |
| ToggleDriver.ToggledFromFirst | driver/include/method/rfuzz.hpp:25-28 | a bit is set exactly if it was set before or differs from the first cycle in some cycle |
| ToggleDriver.ToggledBits | driver/include/method/rfuzz.hpp:18-41 | from a cleared bitmap exactly the bits that took both values during the run are set |
| ToggleDriver.RFuzz.Update | driver/include/method/rfuzz.hpp:18-29 | after each cycle the bitmap holds the toggles of all cycles so far against the first |
| ToggleDriver.RFuzz.Initialize | driver/include/method/rfuzz.hpp:37-41 | the first cycle is kept as the reference |
| ToggleDriver.DirectFuzz.Update | driver/include/method/directfuzz.hpp:21-37 | the same over the rows of all instances laid out one after the other |
| ToggleDriver.DirectFuzz.Initialize | driver/include/method/directfuzz.hpp:46-55 | the first cycle of all instances is kept in row order |
| ToggleDriver.FlatRow | driver/include/method/directfuzz.hpp:32-34 | row i of the flattened words starts at i times the words of an instance |
| Words.OrGains | fuzzer/include/coverage/rfuzz.hpp:41 | OR changes a word exactly if the other word has a bit it lacks |
| Coverage.ByteGain | fuzzer/include/coverage/surgefuzz.hpp:39-48 | some byte would change exactly if the run covers a new point |
| Coverage.WordGain | fuzzer/include/coverage/rfuzz.hpp:38-47 | some word would change exactly if the run covers a new bit |
| Coverage.SurgeFuzz.Reset | fuzzer/include/coverage/surgefuzz.hpp:33-37 | the local bitmap covers nothing |
| Coverage.SurgeFuzz.NewCoverage | fuzzer/include/coverage/surgefuzz.hpp:39-48 | true exactly if apply would change the bitmap, that is, if the run covers a new point |
| Coverage.SurgeFuzz.Apply | fuzzer/include/coverage/surgefuzz.hpp:50-56 | the points become the union of the points; a byte keeps the first count it got |
| Coverage.RFuzz.Reset | fuzzer/include/coverage/rfuzz.hpp:32-36 | the local bitmap covers nothing |
| Coverage.RFuzz.NewCoverage | fuzzer/include/coverage/rfuzz.hpp:38-47 | true exactly if apply would change the bitmap, that is, if the run covers a new bit |
| Coverage.RFuzz.Apply | fuzzer/include/coverage/rfuzz.hpp:49-53 | the covered bits become the union of the covered bits |
| Coverage.DifuzzRTL.Reset | fuzzer/include/coverage/difuzzrtl.hpp:39-45 | all rows of the local bitmap are zero |
| Coverage.DifuzzRTL.NewCoverage | fuzzer/include/coverage/difuzzrtl.hpp:47-58 | true exactly if apply would change the bitmap, that is, if the run covers a new point of some row |
| Coverage.DifuzzRTL.Apply | fuzzer/include/coverage/difuzzrtl.hpp:60-68 | the points of all rows become the union of the points |
| Coverage.DirectFuzz.Reset | fuzzer/include/coverage/directfuzz.hpp:42-48 | clears all shared words, and the words behind them up to a stated end, and nothing else |
| Coverage.DirectFuzz.NewCoverage | fuzzer/include/coverage/directfuzz.hpp:50-61 | true exactly if apply would change the bitmap, that is, if the run covers a new bit of some row |
| Coverage.DirectFuzz.Apply | fuzzer/include/coverage/directfuzz.hpp:63-69 | the covered bits of all rows become the union of the covered bits |
| Coverage.DirectFuzzResetOverruns | fuzzer/include/coverage/directfuzz.hpp:42-48 | reset stays inside the shared words if and only if there are no instances or no bytes |
| Campaign.AfterIsNext | fuzzer/src/fuzzer.cpp:104-127 | an execution judged new exactly if it covers a new point, kept accordingly and merged, is a step of the campaign |
| Monitors.ToggledPoints | driver/include/method/rfuzz.hpp:25-28 | from a cleared bitmap a run covers exactly the bits that took both values |
| Monitors.RunRFuzz | fuzzer/src/executor.cpp:28-108 | an execution under RFuzz, from reset to merge, is a step of the campaign with the toggled bits as its points |
| Monitors.RunDirectFuzz | fuzzer/src/executor.cpp:28-108 | the same under DirectFuzz, with the bits toggled in each instance as points |
| Monitors.DifuzzDriver.Update | driver/include/method/difuzzrtl.hpp:18-24 | each instance marks the byte its coverage signal names, and nothing else changes |
| Monitors.RunDifuzzRTL | fuzzer/src/executor.cpp:28-108 | the same under DifuzzRTL, with the marked bytes of each instance as points |
| Campaign.NextKeepsLineage | fuzzer/src/corpus.cpp:30-43 | one fuzz_one keeps: initial seeds have id 0, any other id is the corpus index, its parent id is smaller and names a member |
| Campaign.NextKeepsInvariant | fuzzer/src/fuzzer.cpp:61-132 | one fuzz_one keeps the coverage, lineage and size invariant |
| Campaign.ReachableInvariant | fuzzer/src/fuzzer.cpp:36-132 | in every reachable state the global coverage is the union of all executed runs and also of the corpus members alone, lineage is sound, and the corpus exceeds the initial seeds by at most the covered points |
| Campaign.NextSeedExists | fuzzer/src/corpus.cpp:15-28 | the assertion that the corpus is not empty holds whenever a seed is drawn if and only if the initial seed count is positive |
| Campaign.EveryMemberDescends | fuzzer/src/corpus.cpp:30-43 | in every reachable state each ancestry chain runs along strictly smaller ids of members and ends at id 0 |
| Fuzzer.Corpus.GetNextSeed | fuzzer/src/corpus.cpp:15-28 | some member of a non-empty corpus |
| Fuzzer.Corpus.AddNewInput | fuzzer/src/corpus.cpp:30-43 | appends one seed whose id and parent are set as stated; the assertion on initial seeds is a precondition that the loop meets |
| Fuzzer.Corpus.Keep | fuzzer/src/fuzzer.cpp:119-127 | exactly new inputs and initial seeds join the corpus, at most one a call, with their program, score, cycle and points and the id of the seed drawn as parent |
| Fuzzer.SamePoint | driver/include/method/surgefuzz.hpp:16-42 | two cycles mark one point exactly if their coverage signals and, except for COUNT, the low four bits of their scores agree |
| Fuzzer.DriveCoverage | driver/include/method/surgefuzz.hpp:16-42 | a run marks exactly the points given by its coverage signal and, except for COUNT, the low four bits of the score |
| Fuzzer.Fuzzer.NextInput | fuzzer/src/fuzzer.cpp:67-84 | a new well-formed program while initial seeds are due, else a mutation of the program of some seed, whose use count alone grows by one |
| Fuzzer.Fuzzer.Execute | fuzzer/src/executor.cpp:28-108 | new coverage is judged against the bitmap before the merge; the merge adds exactly the points of the run |
| Fuzzer.Fuzzer.FuzzOne | fuzzer/src/fuzzer.cpp:61-132 | whatever the simulator does, one call is one step of the campaign machine; the input returned is well-formed and, when a seed is drawn, a mutation of the program of that seed, whose use count alone grows; a seed that joins holds this input, its score and its cycle |
| Fuzzer.Fuzzer.FuzzLoop | fuzzer/src/fuzzer.cpp:36-58 | after any number of cycles the campaign invariant holds, every member holds an input that was executed with the points of that execution, and every member after the initial seeds holds a mutation of the program of an earlier member whose id it keeps |
| Fuzzer.MutantsOfTheirParents | fuzzer/src/fuzzer.cpp:67-127 | in every reachable state a member after the initial seeds holds a mutation of the program of the member its parent id names, and for parent id 0 of some initial seed |
| Fuzzer.ProgramsDescend | fuzzer/src/fuzzer.cpp:67-127 | every program of the corpus comes from an initial seed by calls of Program::mutate alone |
| Fuzzer.CorpusBound | fuzzer/src/fuzzer.cpp:119-127 | the corpus holds at most the initial seeds plus as many inputs as the bitmap has bytes |
| Selector.SortSorts | script/profile/selector.py:26-29 | sorting gives a permutation in order of register depth and then depth |
| Selector.StepShrinks | script/profile/selector.py:60-91 | an iteration with a comparable candidate strictly shrinks the pool of undecided names |
| Selector.FilterIndex | script/profile/selector.py:63-65 | where a candidate stands among all rows, and that no row before it could have been accepted |
| Selector.Reject | script/profile/selector.py:69-72 | rejects exactly the candidates redundant with the last pick |
| Selector.FirstAccepted | script/profile/selector.py:74-76 | finds the first candidate that is not rejected |
| Selector.Iterate | script/profile/selector.py:60-91 | an iteration keeps the invariant, stays within the budget and shrinks the pool |
| Selector.PickKeeps | script/profile/selector.py:74-90 | a candidate that passed the comparison with every pick joins without redundancy |
| Selector.TrackPick | script/profile/selector.py:60-91 | when no name hides another, the reference pass over the sorted rows reaches the same pick |
| Selector.LoopWithinReserve | script/profile/selector.py:60-91 | whatever the names, the loop can only end if the start signal and the sampled rows together are as wide as the budget |
| Selector.SelectUsingMi | script/profile/selector.py:56-94 | it fails exactly if the start signal has no row, or is needed and has no samples; a later pick is redundant with an earlier one only if its name contains it; the total is exactly the budget, or the start width if that is larger, or the loop does not end; when no name hides another the result is the single-pass greedy selection and the loop ends exactly if that selection fills the budget |
| Selector.GreedyTrace | script/profile/selector.py:60-91 | the greedy pass takes rows at ascending positions, none redundant with an earlier pick, and every row passed over is picked already, not sampled or redundant with an earlier pick |
| Selector.GreedyInOrder | script/profile/selector.py:56-94 | the picks follow register depth and then depth |
| Selector.HiddenPairIsSelected | script/profile/selector.py:14-16 | a table on which the script picks two fully redundant signals, and on which one more bit of budget keeps it from ending |
| Analyze.ColumnSum | script/profile/analyze.py:50-76 | a column of n whole rows and one share adds up to their widths and the share |
| Analyze.PartOfSignal | script/profile/analyze.py:50-76 | a signal used in part is named by its bits h down to 0, where h reads back as one less than the width used |
| Analyze.SelectSigs | script/profile/analyze.py:50-76 | the selected signals are a prefix of the rows, all whole but the last; for a positive budget their widths total exactly min(sum of widths, budget); for another budget one row gets it all |
| Instruction.RandomRegister | fuzzer/src/program.cpp:303-317 | a register that is neither x1 nor x2 |
| Decimal.DigitsAre | fuzzer/src/program.cpp:303-322 | the decimal texts use the ten digit characters, each with its value |
| Instruction.RandomOperand | fuzzer/src/program.cpp:185-301 | an operand of the kind and range its position calls for |
| Instruction.RandomOperands | fuzzer/src/program.cpp:151-183 | as many operands as the type takes, each of its kind and range |
| Instruction.RandomInstruction | fuzzer/src/program.cpp:8-45 | a well-formed instruction of an enabled type |
| Programs.StepKeeps | fuzzer/src/program.cpp:472-538 | every mutator keeps a block non-empty and its instructions well-formed, removes at most one and adds at most two |
| Programs.StepsKeep | fuzzer/src/program.cpp:372-470 | so does any sequence of mutators |
| Programs.Block.constructor | fuzzer/src/program.cpp:353-358 | a block of the given number of well-formed instructions |
| Programs.Block.SwapInst | fuzzer/src/program.cpp:472-476 | two instructions change places and nothing else |
| Programs.Block.MutateOpcode | fuzzer/src/program.cpp:478-482 | one instruction gets an opcode of its own type |
| Programs.Block.MutateOperands | fuzzer/src/program.cpp:484-488 | one instruction gets new operands for its type |
| Programs.Block.MutateOperand | fuzzer/src/program.cpp:490-502 | one operand is replaced by one of its kind and range; without operands nothing changes |
| Programs.Block.MutateInst | fuzzer/src/program.cpp:504-508 | one instruction is replaced |
| Programs.Block.InsertInst | fuzzer/src/program.cpp:510-514 | one instruction is inserted |
| Programs.Block.RemoveInst | fuzzer/src/program.cpp:516-521 | one instruction is removed unless it is the last |
| Programs.Block.InsertMemoryAccessSequence | fuzzer/src/program.cpp:523-538 | an address load and an access through the loaded register are inserted together |
| Programs.Block.Mutate | fuzzer/src/program.cpp:372-470 | the block is what some sequence of one to max_operation_count enabled mutators makes of it |
| Programs.MutationsKeepGood | fuzzer/src/program.cpp:558-562 | any number of block mutations keeps the program good, its size within stated bounds |
| Programs.MutateKeepsGood | fuzzer/src/program.cpp:558-562 | one Program::mutate keeps the program good and adds at most 4 times max_operation_count instructions |
| Programs.BranchTargetUnique | fuzzer/src/program.cpp:319-322 | in a good program every branch names exactly one block |
| Programs.Program.constructor | fuzzer/src/program.cpp:542-547 | a good program of the configured size |
| Programs.Program.Mutate | fuzzer/src/program.cpp:558-562 | one or two block mutations in place, so the program stays good |
| Printing.GenerateBlock | fuzzer/src/program.cpp:362-370 | the loop appends the text of the block, which an assembler reads back as the block |
| Printing.GenerateProgram | fuzzer/src/program.cpp:549-556 | the loop appends the text of the program, which an assembler reads back as the program |
| Printing.OpcodeFixesKind | fuzzer/src/program.cpp:63-149 | the opcode alone tells the instruction type |
| Printing.OperandClean | fuzzer/src/program.cpp:185-322 | operand texts contain no comma, parenthesis or line end |
| Printing.InstReadBack | fuzzer/src/program.cpp:324-341 | reading the printed line gives the instruction: opcode up to the blank, operands between commas, base in the parentheses, offset in front of them |
| Printing.AddressShapes | fuzzer/src/program.cpp:326-331 | memory and atomic accesses have their assembly shape, with the parentheses around the address register |
| Printing.BlockReadBack | fuzzer/src/program.cpp:362-370 | reading the printed block up to the empty line gives its label and its instructions |
| Printing.ProgramReadBack | fuzzer/src/program.cpp:549-556 | reading the printed program gives the program |
| Printing.InstTextInjective | fuzzer/src/program.cpp:324-341 | well-formed instructions with equal text are equal |
| Printing.BlockTextInjective | fuzzer/src/program.cpp:362-370 | blocks with equal text are equal |
| Printing.ProgramTextInjective | fuzzer/src/program.cpp:549-556 | programs with equal text are equal |
| Printing.GoodIsPrintable | fuzzer/src/program.cpp:540-562 | this covers every program that the generator or a mutation makes |
| DistanceList.GetVector | fuzzer/src/util.cpp:23-44 | the loop reads each comma-separated token as strtoull does |
| DistanceList.TokensOfJoin | script/prepare/method/directfuzz.py:60-61 | splitting a joined list of comma-free tokens gives the tokens back |
| DistanceList.ReadsNumber | fuzzer/src/util.cpp:33-41 | decimal text is read back, saturated to 64 bits |
| DistanceList.ReadsList | fuzzer/src/util.cpp:23-44 | every list is read back with its numbers saturated, the empty list as one zero |
| DistanceList.RoundTrip | script/prepare/method/directfuzz.py:60-63 | the list is recovered if and only if it is not empty and its numbers fit 64 bits |

## Left out

- SliceSoundness.SliceDeterminesSignal: assumes that the cells driving signals on backward paths are `Sliceable` (supported kinds, canonical output names, registers of at most 32 bits, one signal chunk at a bit-level port, every chunk followed part of one cell output or undriven), an aligned start signal and acyclic logic among these cells; cells elsewhere may be anything. The converse is not stated, because a netlist outside these conditions may be determined by luck. `SliceLimits` has a counterexample for each condition on registers, names, ports and chunks.
- SliceSoundness.SliceDeterminesRun: resets of these registers are taken as equal in both runs, because the search does not follow reset ports, and latches are excluded.
- SliceSoundness.CombAgrees: signed operands, arithmetic, shift and `$pmux` cells have no meaning here, so the theorems do not cover netlists with them; the search itself is modelled on all cells. Bits have the two values 0 and 1; x and z are not modelled.
- ControlRegister.IsControlRegister: where nearest readers of different kinds end the search, the verdict depends on the order of readers, which is a parameter because they are kept in pointer order.
- InstanceGraph.AnalyzeAdjacentInstanceNames: assumes that every supported cell has the output the pass asks for. `construct` asks each of them, so a netlist without it stops the pass.
- Netlists are `Valid`: aliases lead to representatives, cell names are unique, and a known cell has only ports of its kind. Ports the passes do not name are carried by `OtherPort`; of a cell with several outputs only Q or Y counts as driven, as in the passes.
- InstanceGraph.InstanceConnectivityGraph.constructor: assumes fewer than 2^64 - 2 instance names, the size a `std::set` in memory cannot pass.
- Coverage.DirectFuzz.Reset: what the words behind the shared ones belong to is not modelled; the memory that reset touches is assumed to be mapped.
- Fuzzer.Fuzzer.FuzzLoop: the loop is instantiated with the SurgeFuzz coverage method; for the others `Monitors` shows one execution. The time limit is a bound on the number of cycles, and a failing build ends the program and is not a step.
- Fuzzer.Corpus.GetNextSeed: energies and the power schedule only weight the draw and are left out; any member may be drawn.
- Instruction.RandomRegister: the rejection loop is one draw among the numbers it can end with; that it ends with probability one is not stated.
- Selector.HiddenPairIsSelected: that hiding never happens is sufficient for redundancy-free picks, not necessary; whether a hidden pair is picked depends on the samples.
- Yosys internals (`SigMap`, `SigSet`, `CellTypes`, wire creation, pass registration, logging) are a finite abstract netlist with a table of aliases; the parsing of instance and module names is an arbitrary function.
- Drawing attributes of graph nodes and edges, CSV and dot output, JSON state files and counters.
- Shared memory set-up, fork, exec, pipes, the build command, clocks and files; what a simulation does is an arbitrary sequence of cycles.
- Entropy and mutual information themselves; the selection without mutual information, whose partial branch does not update its sum; regular-expression rewriting of Verilog.
- The Blackbox method, coverage rates and energies in floating point.
