# TAPA: verified models of its runtime queue, its task-graph passes and its source rewriting

A Dafny 4.11 model of the parts of TAPA whose correctness rests on state, graphs or text rather than on Clang, the
operating system or the vendor tools. `dafny verify dfyconfig.toml` checks the whole project.

| area | files | main results |
|---|---|---|
| Shared-memory stream queue | `QueueLayout`, `QueueProtocol`, `QueueCalls`, `SharedMemoryQueue` | A producer, a consumer and an observer, interleaved at every atomic access and every copied byte, refine a bounded FIFO; the slot written is never the slot read; a not-full answer to the producer stays true, and a push begun with room is accepted whatever the others do meanwhile. |
| DPI stream steps | `DpiStream`, `PortProtocol` | Over every run with the other side moving at any point, down to the atomic steps of the shared queue, input cycles deliver each token once, in order and unchanged until taken; output cycles lose nothing if the driver writes only after a true answer, and can lose a token otherwise. |
| Multi-unit merge | `Graphs`, `ProgramBuilder`, `ClosedPorts` | Discovery finds exactly the reachable tasks; the three-colour search rejects exactly the cyclic programs; the worklist without a visited set ends because of that, and marks exactly the tasks under an AI Engine upper task; the memoised port analysis is exact. |
| AI Engine partition | `AieModel`, `AieFlatten`, `AieCycles`, `AieDerive`, `AieWiring`, `AieWiringCases`, `AieProjection` | Flattening succeeds for exactly the graphs described, gives one kernel per leaf instance and preserves connectivity in both directions; a kernel is ordered exactly when it lies on a cycle of FIFOs if every stream is plain, a condition that is exact for each stream; the PL projection is closed and treats every FIFO as its ends demand. |
| Invoke parsing | `Names`, `InvokeParser` | Whatever mix of vector invokes and array arguments, errors are reported exactly when the wiring is unsound, and otherwise every FIFO has exactly the instances that are passed it as its ends. |
| Line markers | `LineReader`, `LineMarkers`, `LineEdits`, `LineFidelity`, `LineHeads`, `LineExact`, `LineAnchors`, `LineHeadEdits`, `LineCases` | After replacements and insertions before or after what stands at an offset, a reader that honours `#line` (clause 19 and section 19.4 of ISO/IEC 14882:2017) gives every surviving character its original file and line if the edits are tidy; for any edits, a character is read right exactly under the condition given. |
| Macro splices | `MacroSplice`, `MacroRuns` | Over every sequence of edits, which ones are accepted, which tokens are dropped and what each slot holds follow from the edits alone; rendering shows every kept token verbatim and in order, with the accepted texts at their anchors. |
| Tree writer | `ByteOrder`, `Manifests`, `FileTrees`, `TreePruning`, `TreeWriter` | With any file operation failing at any time, a file that the previous manifest does not name is never touched; on success the tree is exactly the mirror and the manifest reads back as its keys; after a failure it is stated exactly when the same run is accepted. |
| Floorplan sweep and tags | `Sweep`, `RegionTags`, `XdcGroups`, `XdcPatterns` | The sweep's attempts are few, strictly falling and recorded at the loosest cap, for every planner; printing then parsing a tag is the identity; cells share a constraint group exactly when their tags denote one rectangle; no two cells have the same pattern exactly when the names they are made from are apart, and two patterns match one component exactly when their names are equal or a FIFO suffix apart. |

Conventions. Maps and sets that the sources iterate in key order are iterated in that order where the outcome depends
on it, and otherwise in an arbitrary order, so that the results hold for every order. `Wrappers` has the option and
result types. Loops that the sources write over mutable state are methods proved against functions or
predicates of the old state; those predicates are stated without reference to the loops.

Where the sources and their own comments differ, the model follows the code:

- The comment in `tapacc/codegen/tree_writer.cpp:328` says that a re-snap marker always starts its own line. The code
  leaves out the leading newline for an edit at offset 0, so the marker can be glued to text in front of it and is then
  no directive. `LineCases.GluedMarkerIsMissed` is a concrete case with two edits, each allowed by itself, and
  `LineCases.AheadOfMarkerIsMissed` one where the second is an insertion made before the marker.
  `LineHeads.TidyEditsKeepLines` gives a condition on the edits under which all lines are kept,
  `LineExact.SurvivorIsReadRightIff` says exactly when a character is read right after any edits, and
  `LineHeadEdits.OneEditIsExact` gives, for one edit of a file, the exact condition on the edit.
- The code does not check that the character which a marker is anchored at is still there. If an earlier replacement
  took it, the marker comes to lie in the replacing text, and a character can be read on a wrong line although every
  marker has a line of its own: `LineCases.SwallowedAnchorMisleads` is a concrete case, and
  `LineAnchors.SwallowedAnchorIff` says exactly when lines are kept all the same. An offset inside replaced text is as
  far before the end of that text as it was before the end of the range, which is where the rewrite buffer of Clang
  puts it by adding up the changes recorded before it.
- The comment in `tapa-core/tapa-ir/src/aie.rs:285` says that the kernels marked are those that a stream cycle runs
  through. The code keeps one kernel per end of a stream, and takes the top FIFO of the same name where a nested net has
  no end. `AieWiringCases.MarkedInVain` is a graph with a kernel marked that no cycle runs through,
  `AieWiringCases.MissedCycle` one with a kernel not marked that a cycle runs through, and
  `AieWiring.ArcsAreWiredIffPlain` says exactly for which streams the code and the wiring agree.

Premises that the sources guarantee elsewhere are written as `requires`: task hierarchies are acyclic where a pass
runs after the cycle check, token locations are distinct and in order, tree keys come from canonical paths, cap units
are at least one, and the ends recorded for FIFOs are those that `InvokeParser.ParseUpperTask` leaves.

## Model

| member | source | states |
|---|---|---|
| QueueLayout.New | fpga-runtime/frt-shm/src/queue.rs:33-55 | a layout exists if and only if the shape is non-empty and its byte length fits the largest slice; it then has that shape |
| QueueLayout.SlotInBounds | fpga-runtime/frt-shm/src/queue.rs:57-60 | every slot lies after the header and inside the mapping |
| QueueLayout.SlotsDisjoint | fpga-runtime/frt-shm/src/queue.rs:57-60 | counters less than the depth apart name slots that share no byte |
| QueueProtocol.StepRefines | fpga-runtime/frt-shm/src/queue.rs:99-168 | every atomic step of any thread keeps the invariant and is a step of a bounded FIFO, pushes taking effect at the tail store and pops at the head store |
| QueueProtocol.RunIsFifo | fpga-runtime/frt-shm/src/queue.rs:125-168 | in every interleaving the popped tokens are a byte-exact prefix of the accepted ones and occupancy is within the depth |
| QueueProtocol.EveryEventAllowed | fpga-runtime/frt-shm/src/queue.rs:99-168 | every answer of every run is one the FIFO allows at that instant; a snapshot that reads head before tail never has head past tail |
| QueueProtocol.NoSlotRace | fpga-runtime/frt-shm/src/queue.rs:135-168 | in every reachable state the slot being written and the slot being read share no byte |
| QueueProtocol.NotFullIsStable | fpga-runtime/frt-shm/src/queue.rs:114-117 | a not-full answer given to the producer stays true until its own next push, however often it probes and whatever the others do |
| QueueProtocol.RoomStays | fpga-runtime/frt-shm/src/queue.rs:114-139 | no step but the start of a push can end a state with room |
| QueueCalls.PushIsAccepted | fpga-runtime/frt-shm/src/queue.rs:125-139 | from every reachable state with room, a push of a token of the right width is accepted after its own steps, whatever the other threads do in between, and the token is the next one of the queue |
| QueueCalls.PushIsDecided | fpga-runtime/frt-shm/src/queue.rs:125-134 | in every interleaving a push is turned away as full if and only if the queue is full when the head is loaded, for its size if and only if there is room and the width is another, and otherwise not |
| QueueCalls.ProbeIsExact | fpga-runtime/frt-shm/src/queue.rs:114-117 | in every interleaving the full probe answers true if and only if the queue is full when the head is loaded |
| QueueProtocol.CopyBytePreserves | fpga-runtime/frt-shm/src/queue.rs:135 | a half-written token disturbs no live slot |
| QueueProtocol.PublishPreserves | fpga-runtime/frt-shm/src/queue.rs:136-138 | the tail store appends exactly the token that was copied |
| QueueProtocol.TakePreserves | fpga-runtime/frt-shm/src/queue.rs:144-168 | what was copied out is the front token, and the head store removes it |
| SharedMemoryQueues.SharedMemoryQueue.constructor | fpga-runtime/frt-shm/src/queue.rs:64-82 | a new queue is empty |
| SharedMemoryQueues.SharedMemoryQueue.IsFull | fpga-runtime/frt-shm/src/queue.rs:114-117 | true if and only if the contents have the queue's depth |
| SharedMemoryQueues.SharedMemoryQueue.IsEmpty | fpga-runtime/frt-shm/src/queue.rs:109-112 | true if and only if there are no contents |
| SharedMemoryQueues.SharedMemoryQueue.TryPushCheckFull | fpga-runtime/frt-shm/src/queue.rs:125-139 | appends the token or refuses without change, full before wrong size, and reports whether the queue is full now |
| SharedMemoryQueues.SharedMemoryQueue.ReadFront | fpga-runtime/frt-shm/src/queue.rs:159-168 | copies the front token into the start of the buffer, or leaves the buffer alone; which, if and only if there is a token and the buffer is long enough |
| SharedMemoryQueues.SharedMemoryQueue.PopInto | fpga-runtime/frt-shm/src/queue.rs:144-150 | removes the front token and copies it, or changes nothing |
| SharedMemoryQueues.SharedMemoryQueue.PeekInto | fpga-runtime/frt-shm/src/queue.rs:155-157 | copies the front token and leaves the queue as it is |
| SharedMemoryQueues.WindowGrows | fpga-runtime/frt-shm/src/queue.rs:57-60 | writing the slot behind the live ones appends to the contents and changes none of them |
| DpiStreams.CarriedIntact | fpga-runtime/frt-dpi/src/stream.rs:13-34 | DPI bytes survive a host token if and only if only zeros are cut |
| DpiStreams.DpiStream.CopyToDpi | fpga-runtime/frt-dpi/src/stream.rs:13-18 | the buffer holds the token, cut or padded with zeros |
| DpiStreams.DpiStream.PushFromDpi | fpga-runtime/frt-dpi/src/stream.rs:20-34 | pushes the data fitted to the token width, and fails only on a full queue |
| DpiStreams.DpiStream.IstreamStep | fpga-runtime/frt-dpi/src/stream.rs:150-176 | pops only what was presented and consumed, then presents the front if there is one |
| DpiStreams.DpiStream.OstreamStep | fpga-runtime/frt-dpi/src/stream.rs:195-230 | pushes on a write if there is room and answers whether there is room afterwards |
| IstreamRuns.PopFindsPresented | fpga-runtime/frt-dpi/src/stream.rs:155-160 | a cycle's pop always finds the token that the previous cycle presented |
| IstreamRuns.IstreamDelivers | fpga-runtime/frt-dpi/src/stream.rs:150-176 | in every run with concurrent pushes the tokens taken are exactly those popped, a prefix of the arrivals, and the next one is presented |
| IstreamRuns.EveryCyclePresents | fpga-runtime/frt-dpi/src/stream.rs:150-176 | every cycle that presents a token presents the first arrival not yet taken |
| OstreamRuns.ReadyWriteAccepted | fpga-runtime/frt-dpi/src/stream.rs:114-122 | a write after a true answer is accepted, whatever was popped in between |
| OstreamRuns.DisciplinedWritesAreLossless | fpga-runtime/frt-dpi/src/stream.rs:195-230 | if the driver writes only after a true answer, no write meets a full queue and every token enters once, in order |
| OstreamRuns.UndisciplinedWriteIsLost | fpga-runtime/frt-dpi/src/stream.rs:219-226 | without that discipline a token can be lost |
| IstreamPorts.NextKeepsInv | fpga-runtime/frt-dpi/src/stream.rs:150-176 | every atomic step of the driver or of another thread keeps the log of cycles a legal run that ends in the queue as it is |
| IstreamPorts.ReadStep | fpga-runtime/frt-shm/src/queue.rs:144-168 | a step of a read goes on reading, finds the queue empty, or delivers; a full-width buffer is never too short |
| IstreamPorts.InputPortDelivers | fpga-runtime/frt-dpi/src/stream.rs:150-176 | in every interleaving with the shared queue's atomic steps, the tokens the cycles take are the first tokens pushed, in order, and every cycle presents the first one not yet taken |
| OstreamPorts.NextKeepsInv | fpga-runtime/frt-dpi/src/stream.rs:195-230 | the same for output cycles |
| OstreamPorts.ObedientIsDisciplined | fpga-runtime/frt-dpi/src/stream.rs:195-230 | a driver that begins a write only after a true answer has a disciplined log, whatever moves in between |
| OstreamPorts.OutputPortLosesNothing | fpga-runtime/frt-dpi/src/stream.rs:195-230 | in every interleaving, if the driver writes only when told it may, no write is turned away and the tokens pushed are exactly those written, in order |
| ProgramBuilders.ProgramBuilder.Discover | tapacc/frontend/program_builder.cpp:635-696 | succeeds if and only if every invoke of a reached upper task resolves to an external definition, and then finds exactly the reachable tasks with their recorded facts |
| ProgramBuilders.ProgramBuilder.DiscoverCallee | tapacc/frontend/program_builder.cpp:661-695 | one invoke resolves or shows the program unresolvable, and queues a callee only when it is new |
| ProgramBuilders.CycleSearch.HasCycle | tapacc/frontend/program_builder.cpp:471-481 | finds a cycle only if one is reachable, and otherwise leaves the key and all it reaches finished and clean |
| ProgramBuilders.CycleSearch.FindCycle | tapacc/frontend/program_builder.cpp:482-487 | finds a root if and only if some root reaches a cycle |
| ProgramBuilders.GrayChildClosesCycle | tapacc/frontend/program_builder.cpp:476 | an edge back into the calls in progress closes a cycle |
| ProgramBuilders.FinishedIsClean | tapacc/frontend/program_builder.cpp:479 | a task whose callees are all finished lies on no cycle |
| ProgramBuilders.ProgramBuilder.PropagateAie | tapacc/frontend/program_builder.cpp:467-517 | rejects exactly the cyclic programs and, of the others, exactly those with a contradicting descendant; otherwise retargets exactly the tasks under an AI Engine upper task and nothing else |
| ProgramBuilders.ProgramBuilder.Drag | tapacc/frontend/program_builder.cpp:491-515 | the worklist without a visited set ends and marks exactly the descendants |
| ProgramBuilders.ProgramBuilder.UpperOnesCost | tapacc/frontend/program_builder.cpp:498-514 | queueing the upper callees of a task costs less, in paths of the call graph, than queueing that one did |
| ProgramBuilders.ProgramBuilder.MarkCallee | tapacc/frontend/program_builder.cpp:501-513 | one callee is retargeted, and queued again if it is an upper task, unless it contradicts |
| ProgramBuilders.ProgramBuilder.MarkedIsDragged | tapacc/frontend/program_builder.cpp:491-515 | with the queue empty, marked means reachable from an AI Engine upper task, both ways |
| ProgramBuilders.ProgramBuilder.MergeAndDiscover | tapacc/frontend/program_builder.cpp:635-697 | the two phases together: each error if and only if the definitions call for it, and otherwise each task's final target in terms of the definitions alone |
| ClosedPorts.ClosedUnfolds | tapacc/frontend/program_builder.cpp:879-892 | a closed port is closed by its own task or through one instance binding |
| ClosedPorts.ChainExtends | tapacc/frontend/program_builder.cpp:885-890 | a binding to a closed port closes the port it comes from |
| ClosedPorts.EotCheck.ClosedPortsOf | tapacc/frontend/program_builder.cpp:873-894 | the memoised recursion ends and returns exactly the ports from which a chain of bindings leads to a task that closes its end |
| ClosedPorts.EotCheck.CloseThrough | tapacc/frontend/program_builder.cpp:885-890 | one instance passes on exactly the closed ports of its child that are bound to ports of the upper task |
| ClosedPorts.EotCheck.ClosedByChild | tapacc/frontend/program_builder.cpp:880-892 | the ports closed through all instances of one child |
| ClosedPorts.EotCheck.CheckStream | tapacc/frontend/program_builder.cpp:897-922 | a stream is refused if and only if a task that closes it feeds an AI Engine task |
| ClosedPorts.EotCheck.CheckAieEot | tapacc/frontend/program_builder.cpp:866-925 | the program passes if and only if no stream is refused |
| Names.ValueOfDigits | tapacc/codegen/conventions.h:28-30 | reading a printed number gives it back |
| Names.BaseOfElement | tapacc/frontend/program.h:145-147 | the base name of an array element is the array |
| Names.ElementsDiffer | tapacc/codegen/conventions.h:28-30 | different elements have different names |
| AieModel.ChildPortFor | tapa-core/tapa-ir/src/aie.rs:663-672 | the least port of an instance that is passed the FIFO, or the empty name |
| AieFlatten.FirstIffNew | tapa-core/tapa-ir/src/aie.rs:400-402 | a FIFO of the top has no number yet if and only if this is its first use in the order of task, instance and port |
| AieFlatten.Builder.TopBinding | tapa-core/tapa-ir/src/aie.rs:387-447 | an argument of a top instance is bound if and only if its name resolves and, where it is the first to use a FIFO, the port exists and its element fits; the binding denotes what the name resolves to |
| AieFlatten.Builder.TopScope | tapa-core/tapa-ir/src/aie.rs:180-183 | all arguments of a top instance are bound if and only if all resolve and all first uses fit |
| AieFlatten.Builder.PushNets | tapa-core/tapa-ir/src/aie.rs:485-504 | each used FIFO of an AI Engine upper task gets one new stream, if and only if for each the measured end is a port of an existing task |
| AieFlatten.Builder.ChildScope | tapa-core/tapa-ir/src/aie.rs:505-527 | an inner instance sees the nets of its parent first and then its parent's ports, as name resolution has it |
| AieFlatten.KernelPortOf | tapa-core/tapa-ir/src/aie.rs:544-595 | a port gets its streams or its scalar if and only if each of its names resolves to one |
| AieFlatten.KernelOf | tapa-core/tapa-ir/src/aie.rs:536-612 | a leaf has a kernel if and only if all its ports can be bound, with every port bound to what its name resolves to |
| AieFlatten.Builder.Visit | tapa-core/tapa-ir/src/aie.rs:468-534 | flattening a subtree succeeds if and only if every instance below is acceptable, adds streams and kernels of that subtree only, and covers all its leaves |
| AieCycles.ReachesItself | tapa-core/tapa-ir/src/aie.rs:330-342 | the stack search ends and says whether a non-empty path leads back to the start |
| AieCycles.KernelEnds | tapa-core/tapa-ir/src/aie.rs:297-307 | each stream's ends are the last kernels with a port on it |
| AieCycles.StreamGraph | tapa-core/tapa-ir/src/aie.rs:308-323 | the edges are exactly the arcs that the code's table of ends has and the PL-to-PL FIFOs of the top |
| AieCycles.CycleIsWalk | tapa-core/tapa-ir/src/aie.rs:287-328 | a cycle of the built graph is a walk along those arcs back to the kernel, both ways |
| AieCycles.MarkCycles | tapa-core/tapa-ir/src/aie.rs:287-328 | a kernel comes out ordered if and only if such a walk exists; nothing else about it changes |
| AieWiring.CodeEndIs | tapa-core/tapa-ir/src/aie.rs:297-312 | the end the code records is a real end of the FIFO wherever there is one, and otherwise the PL end of the top FIFO of that name |
| AieWiring.ArcsAreWiredIffPlain | tapa-core/tapa-ir/src/aie.rs:297-316 | the code's arcs of a stream are the arcs of its FIFO, kernel ports and PL instances as wired, if and only if the stream is plain |
| AieWiring.FeedsIffWire | tapa-core/tapa-ir/src/aie.rs:308-323 | with all streams plain, the code's edges are exactly the wires |
| AieWiring.OrderedIffOnWireCycle | tapa-core/tapa-ir/src/aie.rs:285-328 | with all streams plain, a kernel of a derived partition is ordered if and only if a cycle of FIFOs runs through it |
| AieWiringCases.MarkedInVain | tapa-core/tapa-ir/src/aie.rs:308-316 | a partition with an ordered kernel that no cycle of FIFOs runs through |
| AieWiringCases.MissedCycle | tapa-core/tapa-ir/src/aie.rs:297-307 | a partition with a kernel not ordered that a cycle of FIFOs runs through |
| AieDerive.CheckPlTasks | tapa-core/tapa-ir/src/aie.rs:148-163 | passes if and only if no PL task other than the top invokes an AI Engine task |
| AieDerive.FlattenTop | tapa-core/tapa-ir/src/aie.rs:173-186 | flattens all AI Engine instances of the top if and only if all children exist, every instance is acceptable and every first use of a top FIFO fits |
| AieDerive.Derive | tapa-core/tapa-ir/src/aie.rs:139-190 | nothing, an error or a partition, each if and only if the graph calls for it, missing ports, wide elements and sequential invokes included |
| AieDerive.OneKernelPerLeaf | tapa-core/tapa-ir/src/aie.rs:468-534 | each AI Engine leaf instance path has exactly one kernel and every kernel is one |
| AieDerive.SameStreamIffSameFifo | tapa-core/tapa-ir/src/aie.rs:387-612 | two stream ports have the same stream if and only if their names lead to the same FIFO of the same instance path |
| AieDerive.PinDenotes | tapa-core/tapa-ir/src/aie.rs:536-612 | the stream of a port denotes the FIFO its name resolves to |
| AieProjection.ProjectStep | tapa-core/tapa-ir/src/aie.rs:210-266 | one stream's step fails if and only if the PL end of its FIFO is missing or is no port, and otherwise keeps the top as projected so far |
| AieProjection.PlProjection | tapa-core/tapa-ir/src/aie.rs:200-283 | succeeds if and only if the top is a PL task, every PLIO ends at a PL port and a control argument is left; the result is the projection, each new port as wide as that PL port |
| AieProjection.FifoFate | tapa-core/tapa-ir/src/aie.rs:211-240 | a top FIFO with two AI Engine ends is gone, with one keeps only its PL end, with none is unchanged, also when a nested net has its name |
| AieProjection.ProjectionIsClosed | tapa-core/tapa-ir/src/aie.rs:200-283 | no child and no FIFO end of the projection names a removed task |
| AieProjection.OnePortPerPlio | tapa-core/tapa-ir/src/aie.rs:250-266 | the top gains exactly one port per FIFO with one AI Engine end, named after it |
| AieProjection.AieEndIsListed | tapa-core/tapa-ir/src/aie.rs:400-445 | a top FIFO with an AI Engine end is a stream of the partition |
| AieProjection.ListedHasAieEnd | tapa-core/tapa-ir/src/aie.rs:400-445 | a top stream of the partition has an AI Engine end |
| AieProjection.HasPlioIsOneAieEnd | tapa-core/tapa-ir/src/aie.rs:412-440 | a top FIFO is a PLIO of a direction if and only if exactly that end is on the AI Engine |
| AieProjection.TopClosedIffListed | tapa-core/tapa-ir/src/aie.rs:200-283 | without the wiring premise: the projected top is closed if and only if the partition lists every top FIFO with an AI Engine end |
| InvokeParser.UpperTask.Record | tapacc/frontend/invoke_parser.cpp:192-218 | records the instance on one side of the FIFO, adding an external one at first use, with one error if that side was taken |
| InvokeParser.UpperTask.BindStream | tapacc/frontend/invoke_parser.cpp:420-429 | marking then binding keeps ends and errors in step with the arguments |
| InvokeParser.UpperTask.BindElements | tapacc/frontend/invoke_parser.cpp:430-445 | an array port takes consecutive elements of its actual, wrapping at its length |
| InvokeParser.UpperTask.Deal | tapacc/frontend/invoke_parser.cpp:416-445 | elements are dealt in order of appearance, per array and kind of port |
| InvokeParser.UpperTask.BindFormal | tapacc/frontend/invoke_parser.cpp:416-488 | the instance gains exactly the arguments that the actual gives the formal |
| InvokeParser.UpperTask.ParseLane | tapacc/frontend/invoke_parser.cpp:318-488 | one lane adds one instance with exactly its arguments |
| InvokeParser.UpperTask.ParseInvocations | tapacc/frontend/invoke_parser.cpp:312-488 | all invokes add one instance per lane, each lane taking up where the one before left off |
| InvokeParser.LanesDealEvenly | tapacc/frontend/invoke_parser.cpp:318-437 | for input streams, output streams and memories alike, lane j starts j times as far into an array as one lane reaches |
| InvokeParser.MarkKeepsOneSite | tapacc/frontend/invoke_parser.cpp:192-218 | a FIFO is taken twice on a side from then on if and only if that side was recorded before |
| InvokeParser.UpperTask.ValidateStreams | tapacc/frontend/invoke_parser.cpp:517-548 | drops exactly the declared FIFOs without ends and reports exactly those with one |
| InvokeParser.ErrorsAreSound | tapacc/frontend/invoke_parser.cpp:192-218 | the recorded ends tell exactly which FIFOs are used twice or on one side only |
| InvokeParser.ParseUpperTask | tapacc/frontend/invoke_parser.cpp:552-565 | no error if and only if no scalar is rejected, no side is taken twice and declared FIFOs have both ends or none; then every FIFO in use, and no other, is left with exactly its binding instances as ends |
| LineMarkers.TreeFileBuffer.Rewrite | tapacc/codegen/edit_sink.cpp:147-200 | the text of an edit: a replacement, or an insertion, with a synthetic lead if it has several lines, before or after all that stands at its offset |
| LineMarkers.TreeFileBuffer.ResnapAfterEdit | tapacc/codegen/tree_writer.cpp:298-341 | a marker at the right place, behind what stands there, if and only if the line count changed and something follows |
| LineMarkers.TreeFileBuffer.ApplyEdit | tapacc/codegen/tree_writer.cpp:284-297 | one edit is its text and then its marker |
| LineMarkers.TreeFileBuffer.Render | tapacc/codegen/tree_writer.cpp:343-355 | an untouched file is its original; an edited one opens with its identity and shows all edits in place |
| LineMarkers.ReadsJoined | tapacc/codegen/tree_writer.cpp:343-355 | reading piece by piece is reading the rendered file |
| LineEdits.EditsKeepInv | tapacc/codegen/tree_writer.cpp:284-341 | any admissible edits, insertions before and after included, leave every offset quiet, pinned or followed by a pin |
| LineEdits.EditKeepsRest | tapacc/codegen/tree_writer.cpp:298-341 | so does an edit whose marker comes to lie in replaced text, but for the count of that text |
| LineFidelity.GoodOrExcused | tapacc/codegen/tree_writer.cpp:298-341 | a reader that meets every marker at a line start is right at every offset that matters |
| LineFidelity.SurvivorsKeepTheirLines | tapacc/codegen/tree_writer.cpp:269-355 | after any admissible edits whose markers have only blanks before them on their lines, every surviving character that is no newline has its original file and line |
| LineHeads.OwnLinesIffPiecesMet | tapacc/codegen/tree_writer.cpp:343-355 | markers of a rendered file have only blanks before them on their lines if and only if those of each piece do, begun as the pieces before leave off |
| LineHeads.TidyEditsKeepLines | tapacc/codegen/edit_sink.cpp:125-200 | after any admissible edits that are tidy (an edit at offset 0 leaves a line start for its marker, and no edit takes the line start of such a marker, nor inserts before it text that ends inside a line), every surviving character has its original file and line |
| LineExact.SurvivorIsReadRightIff | tapacc/codegen/edit_sink.cpp:125-200 | after any admissible edits, a surviving character is read right if and only if the last marker before it has only blanks before it on its line, or is missed and the count comes out all the same |
| LineExact.OwnNewlineIsMet | tapacc/codegen/tree_writer.cpp:328-339 | the marker of an edit not at offset 0 is always met |
| LineExact.NextHeadIsMetIff | tapacc/codegen/tree_writer.cpp:328-339 | whatever was edited before, the marker of an edit at offset 0 is met if and only if what it will stand behind leaves off at the start of a line, blanks not counted |
| LineExact.NextHeadIsReadRightIff | tapacc/codegen/tree_writer.cpp:328-339 | after such an edit its anchor is read right if and only if the marker is met or the count comes out all the same |
| LineAnchors.SwallowedAnchorIff | tapacc/codegen/tree_writer.cpp:298-341 | if the marker of an edit comes to lie in replaced text, a survivor behind it is read right if and only if the rest of that text makes up the count, from the marker's line if it is met and from the line it ends if not |
| LineAnchors.SwallowedInsideIff | tapacc/codegen/tree_writer.cpp:298-341 | for an edit not at offset 0: if and only if the rest of the text has as many lines as what it replaced |
| LineAnchors.OthersAreUnharmed | tapacc/codegen/tree_writer.cpp:298-341 | all other survivors are read right exactly as after any edit |
| LineCases.GluedMarkerIsMissed | tapacc/codegen/tree_writer.cpp:328-339 | two admissible edits after which a surviving character is read on line 3 instead of line 1 |
| LineCases.AheadOfMarkerIsMissed | tapacc/codegen/edit_sink.cpp:177-186 | a replacement and an insertion made before its marker, both admissible, with the same misreading; the insertion is not tidy, and made after the marker it is |
| LineCases.BlanksAreNoObstacle | tapacc/codegen/tree_writer.cpp:328-339 | text that leaves blanks on the line of the marker keeps every line |
| LineCases.SwallowedAnchorMisleads | tapacc/codegen/tree_writer.cpp:298-341 | two edits, the marker of the second one lying in the text of the first, after which a surviving character is read on line 4 instead of line 3 |
| LineHeadEdits.OneEditIsExact | tapacc/codegen/tree_writer.cpp:269-355 | one edit keeps every survivor's line if and only if it is not one at offset 0 whose marker follows text that leaves off inside a line, or the missed marker's newline happens to make up the count |
| LineHeadEdits.HeadReplacement | tapacc/codegen/tree_writer.cpp:284-341 | exactly when the anchor of a replacement at offset 0 is read right |
| LineHeadEdits.HeadInsertion | tapacc/codegen/tree_writer.cpp:269-341 | exactly when the anchor of an insertion at offset 0 is read right |
| MacroSplice.IndexAtOrAfter | tapacc/codegen/macro_splice.cpp:65-80 | the binary search finds the first token at or after a location, if and only if the location is inside the invocation |
| MacroSplice.IndexAtOrBefore | tapacc/codegen/macro_splice.cpp:86-93 | the last token at or before a location, if and only if the location is inside |
| MacroSplice.ExpansionSplice.Insert | tapacc/codegen/macro_splice.cpp:99-119 | an insertion lands in the slot its anchor denotes, or is rejected without change |
| MacroSplice.ExpansionSplice.ReplaceRange | tapacc/codegen/macro_splice.cpp:121-131 | a replacement is accepted if and only if its range denotes tokens not dropped before, and changes nothing otherwise |
| MacroSplice.ExpansionSplice.Drop | tapacc/codegen/macro_splice.cpp:133-151 | drops the tokens and adds the text if and only if none was dropped before |
| MacroSplice.ExpansionSplice.Append | tapacc/codegen/macro_splice.cpp:153-158 | the slot keeps what it held and gains the text |
| MacroSplice.ExpansionSplice.Render | tapacc/codegen/macro_splice.cpp:160-176 | the text is the slots and kept tokens in order, without trailing spaces |
| MacroRuns.AcceptsIffAdmits | tapacc/codegen/macro_splice.cpp:99-151 | an edit is accepted if and only if its location or range lies inside and meets no range accepted before |
| MacroRuns.StepIs | tapacc/codegen/macro_splice.cpp:99-158 | an accepted edit drops exactly the tokens of its range and adds its text to one slot |
| MacroRuns.RunShowsItsLog | tapacc/codegen/macro_splice.cpp:99-158 | over any sequence of edits the ones accepted, the tokens dropped and the contents of every slot are those that follow from the edits alone |
| MacroRuns.RunRenders | tapacc/codegen/macro_splice.cpp:160-176 | the words rendered after any sequence of edits, from the edits alone |
| MacroSplice.WordsOfAppended | tapacc/codegen/macro_splice.cpp:153-158 | texts that share a slot keep their words in order of arrival |
| MacroSplice.RenderKeepsTokens | tapacc/codegen/macro_splice.cpp:160-176 | the words rendered are those of the slots and kept tokens, each once, in place and never run together |
| MacroSplice.TokenStandsVerbatim | tapacc/codegen/macro_splice.cpp:160-176 | a kept token stands in the rendered text as it is spelled, blanks inside it included |
| MacroSplice.TokensStandInOrder | tapacc/codegen/macro_splice.cpp:160-176 | kept tokens stand in their original order without overlap |
| Manifests.HasOwnedPrefix | tapacc/codegen/tree_writer.cpp:576-580 | one look at the lower bound says whether any owned key has the prefix |
| Manifests.BetweenHasPrefix | tapacc/codegen/tree_writer.cpp:576-580 | in byte order the keys with one prefix are neighbours |
| Manifests.ReadManifest | tapacc/codegen/tree_writer.cpp:559-573 | the reading loop agrees with the recursive reading of header and lines |
| Manifests.KeysOfLines | tapacc/codegen/tree_writer.cpp:564-572 | printing then reading gives the keys back |
| Manifests.KeysAreLines | tapacc/codegen/tree_writer.cpp:564-572 | whatever is accepted was printed from some non-empty keys |
| Manifests.PrintManifest | tapacc/codegen/tree_writer.cpp:710-714 | one line per key in strict byte order, reading back as the keys |
| TreePruning.ReadOwnershipManifest | tapacc/codegen/tree_writer.cpp:539-574 | an absent manifest owns nothing, a well-formed one its keys, anything else is refused |
| TreePruning.PruneDirectory | tapacc/codegen/tree_writer.cpp:586-620 | removes exactly the stale owned files below a directory, or stops on a failure having removed some of those and nothing else |
| TreePruning.PruneEntry | tapacc/codegen/tree_writer.cpp:597-614 | the same for one entry, descending only where an owned key lies below |
| TreePruning.EntryTowards | tapacc/codegen/tree_writer.cpp:597-608 | every path below a directory is one of its entries or below one |
| TreeWriters.TreeLayout.Register | tapacc/codegen/tree_writer.cpp:184-197 | refuses a path if and only if another one has its key |
| TreeWriters.RegisterAll | tapacc/codegen/tree_writer.cpp:625-631 | succeeds if and only if the keys are distinct, and then maps each key to its file's bytes |
| TreeWriters.CheckDestinations | tapacc/codegen/tree_writer.cpp:650-676 | passes if and only if, operations not failing, every destination is absent or an owned regular file |
| TreeWriters.WriteOne | tapacc/codegen/tree_writer.cpp:684-704 | writes one file, changing only it and missing directories above it; succeeds, operations not failing, if and only if nothing is in the way |
| TreeWriters.WriteAll | tapacc/codegen/tree_writer.cpp:684-704 | all files are written if and only if, operations not failing, no key lies below a file or another key; whatever happens, nothing else changes |
| TreeWriters.WriteManifest | tapacc/codegen/tree_writer.cpp:706-726 | the manifest then reads back as the keys, and nothing else but the root changes |
| TreeWriters.TreeWriter.Write | tapacc/codegen/tree_writer.cpp:624-727 | in every run, failed or crashed at any operation included, files not in the previous manifest and all directories are untouched, and what the checks refuse changes nothing; after success every path is exactly as the mirror has it; otherwise the manifest is as it was unless all files were written; operations not failing, it succeeds exactly when the checks pass and there is room |
| TreeWriters.RerunChangesNothing | tapacc/codegen/tree_writer.cpp:624-727 | after a successful run the same run is accepted and leaves every path as it is |
| TreeWriters.RerunAfterFailure | tapacc/codegen/tree_writer.cpp:624-727 | after a run that did not finish and left the manifest as it was, the same run is accepted if and only if it left no file that the manifest does not name, and has room if and only if it had |
| TreeWriters.RerunWithoutManifest | tapacc/codegen/tree_writer.cpp:624-727 | after one that lost a manifest naming itself, if and only if nothing stands at a destination |
| TreeWriters.RerunAfterLostManifest | tapacc/codegen/tree_writer.cpp:706-726 | after one that wrote all files and could not record them, if and only if the manifest reads and names them all |
| Sweep.SweepWith | tapa-core/tapa-floorplan/src/dse.rs:275-322 | for every planner the caps asked for follow from its answers until they cannot go on, the candidates are the records of exactly the rejections and first finds, and the planner's error is passed on |
| Sweep.FewStrictlyFallingCaps | tapa-core/tapa-floorplan/src/dse.rs:283-320 | at most (max - min) / step + 1 attempts, at strictly falling caps inside the range |
| Sweep.OnlyTheLastStops | tapa-core/tapa-floorplan/src/dse.rs:303-313 | nothing is asked after a terminal rejection or an error |
| Sweep.LoosestCapIsKept | tapa-core/tapa-floorplan/src/dse.rs:284-298 | each region map found is recorded exactly once, at the loosest cap where it was found |
| Sweep.RejectionIsKept | tapa-core/tapa-floorplan/src/dse.rs:303-309 | every rejection is recorded at its cap |
| RegionTags.RegionRoundTrip | tapa-core/tapa-ir/src/floorplan.rs:291-313 | printing then parsing is the identity on every ordered rectangle |
| RegionTags.RegionTextParses | tapa-core/tapa-ir/src/floorplan.rs:304-313 | any four 32-bit numerals make a tag, which denotes if and only if it is ordered |
| RegionTags.RegionNameIsText | tapa-core/tapa-ir/src/floorplan.rs:304-313 | nothing else is a region tag |
| RegionTags.SlotTagIsText | tapa-core/tapa-ir/src/floorplan.rs:342-346 | nothing but two numerals in the slot form is a slot tag |
| RegionTags.SamePblockIffSameRectangle | tapa-core/tapa-floorplan/src/xdc.rs:731-734 | two texts get one pblock name if and only if they are equal or denote the same rectangle |
| RegionTags.CanonicalKeepsMeaning | tapa-core/tapa-floorplan/src/xdc.rs:731-734 | the canonical name denotes what the tag denotes and is its own canonical name |
| RegionTags.AllSlotCoors | tapa-core/tapa-ir/src/floorplan.rs:278-286 | every cell of the rectangle once, row by row, and no other |
| XdcGroups.ValidateResult | tapa-core/tapa-floorplan/src/xdc.rs:181-242 | passes if and only if device, regions, routes and key suffixes are all in order |
| XdcGroups.ValidateRectangle | tapa-core/tapa-floorplan/src/xdc.rs:245-268 | a rectangle passes if and only if it lies in the grid and covers only existing slots, a single one where that is asked |
| XdcGroups.AddCell | tapa-core/tapa-floorplan/src/xdc.rs:89-98 | a new cell enters the group of its region once and disturbs no other |
| XdcGroups.GroupCells | tapa-core/tapa-floorplan/src/xdc.rs:72-154 | for exactly the valid results, each unrouted instance and each Head, Body and Tail stage is in exactly one group, once, and nothing else is in any |
| XdcGroups.SameGroupIffSameRectangle | tapa-core/tapa-floorplan/src/xdc.rs:87-154 | two cells share a group if and only if their tags denote the same rectangle |
| XdcPatterns.EscapeIsInjective | tapa-core/tapa-floorplan/src/xdc.rs:617-629 | different names escape differently |
| XdcPatterns.PatternTellsOwnerAndStage | tapa-core/tapa-floorplan/src/xdc.rs:580-613 | two cell patterns are equal if and only if they are the same stage of equally named instances |
| XdcPatterns.PatternsApartIffNamesApart | tapa-core/tapa-floorplan/src/xdc.rs:99-154 | distinct cells have distinct patterns if and only if no two routes share a pipeline name and no two whole instances share a cell name; two routes of one channel do |
| XdcPatterns.SharedComponentIff | tapa-core/tapa-floorplan/src/xdc.rs:221-238 | two whole-instance patterns match some path by one component if and only if their names are equal or differ by the suffix of a FIFO |
| XdcPatterns.NestedPathIsShared | tapa-core/tapa-floorplan/src/xdc.rs:580-585 | by different components any two of them have a path in common |
| XdcPatterns.ValidPatternsShareNothing | tapa-core/tapa-floorplan/src/xdc.rs:181-242 | in a valid result with cell names apart, no component of any path is matched by two of them |

## Left out

- The queue's header: version and shape encoding, `create` and `open` on files, and validation of a mapping made by another process.
- Memory ordering weaker than sequential consistency, and counters at 2^64.
- `is_empty` as seen by a third party: it reads tail before head and promises nothing there.
- SharedMemoryQueues.SharedMemoryQueue.IsEmpty: states the answer for a caller whose queue stands still during the call.
- Locks, debug counters and yields of the DPI layer, and its single-shot read and write calls, which are the queue operations.
- Merge rules on duplicate definitions, tops and attributes in the program builder, and the text of its diagnostics.
- Two tasks of one name in the end-of-transmission check: task names are keys in the model.
- Kernel locations, stack sizes, element word counts, frames and PLIO widths of the AI Engine partition, and whether it runs forever; sanitised instance names, for which paths stand; the C type copied onto a PLIO port.
- AieDerive.Derive: does not model the errors for kernel locations, which depend on fields left out.
- How a call expression becomes an invoke, instance names, arguments that are neither channel nor scalar, constants wider than 64 bits, lane numbers of `tapa::seq` arguments, and the checks on where streams are declared.
- User `#line` directives inside an edited file, comments before a marker on its line, and routing of edits to buffers. Clang's rewriter, for which a list of insertions and replacements per original offset stands; a directive is one symbol.
- A marker anchored in replaced text that has fewer characters than the rest of its range, which the rewriter puts ahead of that text; and edits that overlap earlier ones.
- LineFidelity.SurvivorsKeepTheirLines: asks that markers stand on lines of their own, because the code does not ensure it at offset 0; `LineExact.SurvivorIsReadRightIff` has the exact condition, on the buffer, and `LineHeadEdits.OneEditIsExact` has it on the edit for one edit.
- The map from invocations to splices, and how tokens are spelled.
- Symbolic links, directories above the output root, and the digest in external tree keys, whose assignment is a parameter.
- Cap units as fractions: the sweep runs on integers and the planner is any function of the caps asked for.
- Which netlist names the patterns of pipeline stages match, the Tcl text of the constraints, crossing-register flags, and the device tables; the sanitised names in patterns are parameters.
- Code generation, HLS and Vivado back ends, the command line, logging and serialisation.
