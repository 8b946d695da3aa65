# Verified model of the autofuse code generator

The code generator turns scheduled tensor graphs into device kernels, host tiling code and a small
support library. This project models what the generated text *does* - loops that run, queue operations
that are issued, statements that are executed, keys that are returned, bytes that are hashed - and
proves what that behaviour guarantees, for all inputs.

Verify it with `dafny verify dfyconfig.toml` (Dafny 4.11). Each file holds one module.

## What is modelled

**Axes** (`AxisCoverage`). An axis is an original axis, a split of another axis into outer and inner
half, or a merge of several. Sizes, tail sizes and recovered indices follow the emitted arithmetic. A
launch assigns outer iterations to blocks, with an early return or a rotation within a group of cores.
The main result is that every coordinate is computed by exactly one core in exactly one iteration if and
only if the launch asks for one block per outer iteration, for any nesting of splits and merges.

**Barriers** (`Barriers`, `CvFusion`). Cores run straight-line programs and meet at `SyncAll`; any
interleaving is a run. `CvFusion` emits the branches around the cube and the vector stage, runs them for
each core, and proves over all runs: they end, they never deadlock, and all members arrive equally often.
Joined with the kernel type and the launch size that the three kinds of host code choose: in no run of any
launch does a vector stage start before the cube stage is finished, and a finished run has served every
block below both limits exactly if the launch has a core for each.

**Loop nest and links** (`LoopPaths`, `TensorLinks`, `CallWiring`, `LoopNest`, `KernelLoop`,
`KernelGraph`). `ConstructFromNodes` is an imperative pass over heap objects: it moves the current loop,
appends loops and calls, connects inputs and threads the share and reuse links. A ghost snapshot of the heap
ties the finished tree to a walk defined on the node list alone, and its calls to the tensors they read and
write. `KernelGraph` reads the graph off the finished objects and shows that it is one on which the emitters
of queue operations may rely.

**Queues** (`ShareGroups`, `ShareOffsets`, `QueueOps`, `QueueLifecycle`, `ReuseChain`). `ShareGroups`
decides which tensors share a slot, which queue they get and in which order they fill it; `ShareOffsets` emits
and runs the statements that place them. Together: in every graph, the tensors of every share group lie
within their queue without overlap. `QueueOps` has the emitters for waiting, allocating,
enqueuing and freeing; `QueueLifecycle` runs their operations through the protocol of one queue;
`ReuseChain` counts allocations and frees along the tensors that hand a queue on.

**Support library** (`Text`, `Json`, `JsonParser`, `JsonRoundTrip`, `Sha1`). The JSON printer and the
recursive-descent parser (a class with a position, proved against functions on the remaining text), the
round trip for every value and indent, and the exact condition on keys. SHA-1 as a class with a 64-byte
buffer, proved equal to sections 4.1.1, 5.1.1, 5.3.1 and 6.1.2 of FIPS 180-4 for any cutting of the
message.

**Host tiling and text** (`TilingKeys`, `TopN`, `TilingFile`, `CubeTilingCache`, `Indentation`). The
three generators that number tiling keys and when they agree; selection of the best candidates; saving
and loading tiling data; the one-entry tiling cache; the brace scanner that re-indents generated code.

`Arithmetic` and `Options` are shared helpers.

Two promises are false of the code. The code is kept, and the exact condition is proved: printed keys that
need escaping (`JsonRoundTrip.KeyLiteral`, `JsonRoundTrip.OneMemberSurvives`), and reuse links whose two
sides disagree on who gives the queue back (`ReuseChain.LinkBalanced`, with a graph for each such link in
`ReuseChain.MismatchesOccur`).

Other promises rest on what a caller provides, again with the exact condition: one block per outer iteration
(`AxisCoverage.CoverageIsExact`), launch sizes that do not wrap around (`CvFusion.EnoughCoresIs`), groups with
an implementation (`TilingKeys.SidesAgree`).

## Model

| member | source | states |
|---|---|---|
| AxisCoverage.SplitIsExact | autofuse/codegen/codegen_kernel.cpp:953-1003 | outer and inner values of a split, with the tail rule for the last outer iteration, range over exactly the values of the split axis |
| AxisCoverage.LocateRuns | autofuse/codegen/codegen_kernel.cpp:1008-1031 | every coordinate of the box is reached by an iteration, through nested merges and splits |
| AxisCoverage.RunsLocate | autofuse/codegen/codegen_kernel.cpp:1008-1031 | an iteration computes a coordinate of the box, and only the iteration located for it does |
| AxisCoverage.RunsAllModulo | autofuse/codegen/codegen_kernel.cpp:1008-1031 | the digits recovered from a merged index do not see multiples of its volume |
| AxisCoverage.RotationIsExact | autofuse/codegen/codegen_kernel.cpp:1056-1069 | rotation and range test give the blocks of a parallel group the numbers below the block count, once each |
| AxisCoverage.CoverageIsExact | autofuse/codegen/codegen_kernel.cpp:953-1085 | each coordinate is computed exactly once if and only if the launch has one block per outer iteration |
| AxisCoverage.TooFewBlocks | autofuse/codegen/codegen_kernel.cpp:1033-1085 | with fewer blocks some coordinate is not computed |
| AxisCoverage.TooManyBlocks | autofuse/codegen/codegen_kernel.cpp:1033-1085 | with more blocks some coordinate is computed twice |
| Barriers.NoDeadlock | autofuse/codegen/codegen_kernel.cpp:2791-2921 | in every state of every run of balanced programs, some core can move while one is unfinished |
| Barriers.RunsEnd | autofuse/codegen/codegen_kernel.cpp:2791-2921 | no run is longer than twice the lengths of the programs together |
| Barriers.StuckMeansFinished | autofuse/codegen/codegen_kernel.cpp:2791-2921 | a run that cannot go on has finished every core, with equally many arrivals |
| Barriers.MembersFinish | autofuse/codegen/codegen_kernel.cpp:2791-2921 | from every reachable state the members can finish while the other cores stand still |
| Barriers.StagesSeparated | autofuse/codegen/codegen_kernel.cpp:2791-2921 | a member in the vector stage finds the cube stage of all members finished |
| CvFusion.GenCubeCommonFuncOfCVFusion | autofuse/codegen/codegen_kernel.cpp:2858-2921 | one program per group, those of the cube groups in front |
| CvFusion.OneGroupOfEach | autofuse/codegen/codegen_kernel.cpp:2858-2921 | with one group of each kind, in whichever order, running the emitted programs is running the cube program and then the vector program |
| CvFusion.ProgramIsExpected | autofuse/codegen/codegen_kernel.cpp:2791-2921 | running the emitted branches gives each core the program written down core by core, early returns included |
| CvFusion.EveryRunCompletes | autofuse/codegen/codegen_kernel.cpp:2791-2921 | for all core numbers, limits and modes every run is finite and ends with all cores finished and equal arrivals |
| CvFusion.SafetyIsExact | autofuse/codegen/codegen_kernel.cpp:3026-3115 | for any numbers of cores, launched or not: the vector stage waits for the whole cube stage, except where mode 2 meets cube cores |
| CvFusion.LaunchIsSafe | autofuse/codegen/codegen_kernel.cpp:297-304 | in no run of any launch does a vector stage start before the cube stage is finished: mode 2 comes only with the kernel type that has no cube cores |
| CvFusion.LaunchSuffices | autofuse/codegen/codegen_tiling.cpp:2945-2959 | a finished run has served every block below both limits, each on a core of its own, exactly if there is a core for each |
| CvFusion.EnoughCoresIs | autofuse/codegen/codegen_tiling.cpp:2948-2952 | the launch size provides a core for every block exactly as long as the 32-bit arithmetic does not wrap |
| LoopPaths.LoopAxisDistance | autofuse/codegen/codegen_kernel_loop.cpp:907-948 | fails exactly for a loop axis outside the schedule; zero means there, positive is the number of axes to enter and means a proper prefix, negative leaves at most all open loops |
| LoopPaths.MovesEnter | autofuse/codegen/codegen_kernel_loop.cpp:320-333 | entering the next axis is the first of the shortest moves when the current axes are a prefix |
| LoopPaths.MovesLeave | autofuse/codegen/codegen_kernel_loop.cpp:320-333 | leaving is the first of the shortest moves otherwise |
| LoopPaths.WalkVisits | autofuse/codegen/codegen_kernel_loop.cpp:296-347 | the walk over the paths visits the nodes in order |
| LoopPaths.WalkPaths | autofuse/codegen/codegen_kernel_loop.cpp:296-347 | after the walk exactly the loops of the last path are open |
| LoopPaths.WalkReaches | autofuse/codegen/codegen_kernel_loop.cpp:296-347 | when the walk visits node k, exactly the loops of path k are open |
| LoopNest.Loop.AddLoop | autofuse/codegen/codegen_kernel_loop.cpp:93-101 | appends a loop to the bodies, sets its parent and hands down the flags |
| LoopNest.Loop.AddCall | autofuse/codegen/codegen_kernel_loop.cpp:103-108 | appends a call to the bodies |
| LoopNest.EnterLoop | autofuse/codegen/codegen_kernel_loop.cpp:324-328 | the new innermost open loop spells one more axis, and the walk of the nest grows by entering it |
| LoopNest.LeaveLoop | autofuse/codegen/codegen_kernel_loop.cpp:329-332 | the parent is the open loop before, and the walk grows by leaving |
| LoopNest.EnterPath | autofuse/codegen/codegen_kernel_loop.cpp:317-338 | ends at the target path after exactly current plus target length minus twice the common prefix steps, with the current loop on the open spine |
| LoopNest.OpenWalkCloses | autofuse/codegen/codegen_kernel_loop.cpp:296-347 | leaving the open loops completes the depth-first walk of the tree |
| LoopNest.CallsVisited | autofuse/codegen/codegen_kernel_loop.cpp:296-347 | depth first, the calls below a loop are exactly those whose numbers the walk visits |
| CallWiring.ConnectInputs | autofuse/codegen/codegen_kernel_loop.cpp:354-367 | fails exactly on an input nobody produced; otherwise each input is its first producer's tensor, which lists the call once more per slot, and no link changes |
| CallWiring.AddOutputs | autofuse/codegen/codegen_kernel_loop.cpp:373-424 | fails exactly at a queue tensor without ids; otherwise the call's outputs are the new tensors with these attributes, linked and read by nobody |
| KernelLoop.AddNode | autofuse/codegen/codegen_kernel_loop.cpp:309-424 | succeeds exactly for an acceptable node, puts its call under its path, connects its inputs and makes its outputs |
| KernelLoop.BuildNode | autofuse/codegen/codegen_kernel_loop.cpp:309-424 | keeps tree, walk, calls, inputs, outputs, readers and links right for one more node, or the list is refused |
| KernelLoop.ConstructFromNodes | autofuse/codegen/codegen_kernel_loop.cpp:296-424 | succeeds exactly if all nodes are acceptable; then the tree reads as the walk over all paths, its calls read first producers and have written the outputs in order, tensors list their readers once per slot, and all outputs are linked |
| KernelLoop.CallsInNodeOrder | autofuse/codegen/codegen_kernel_loop.cpp:296-347 | depth first, the finished tree makes one call per node, in node order |
| KernelLoop.CallUnderItsPath | autofuse/codegen/codegen_kernel_loop.cpp:320-350 | in the finished tree the call of node k runs under exactly its path, and knows its length and its innermost axis |
| KernelGraph.InputKnown | autofuse/codegen/codegen_kernel_loop.cpp:354-367 | every input of a call in the finished tree is an output of an earlier call |
| KernelGraph.ReadersAre | autofuse/codegen/codegen_kernel_loop.cpp:354-367 | the readers of a tensor are exactly the calls that have it among their inputs, in node order |
| KernelGraph.GraphIsValid | autofuse/codegen/codegen_kernel_loop.cpp:296-424 | the graph read off the finished objects meets everything that the emitters of queue operations rely on |
| TensorLinks.LinkTable.Register | autofuse/codegen/codegen_kernel_loop.cpp:376-424 | a new output keeps the tables and every share and reuse link as the output list demands |
| TensorLinks.LinkTable.Predecessors | autofuse/codegen/codegen_kernel_loop.cpp:382-400 | the tables give the last output of the same queue and reuse id, and the last user of the queue or buffer |
| TensorLinks.LinkBoth | autofuse/codegen/codegen_kernel_loop.cpp:392-424 | setting two pointers on each side links the new output and changes no other link |
| TensorLinks.ExpectedAppend | autofuse/codegen/codegen_kernel_loop.cpp:373-424 | an appended output changes only the next links of its predecessors, which were not set before |
| TensorLinks.LinksAreInverse | autofuse/codegen/codegen_kernel_loop.cpp:373-424 | share and reuse links are mutually inverse and lead from earlier to later outputs |
| TensorLinks.ShareChainIsGroup | autofuse/codegen/codegen_kernel_loop.cpp:382-397 | a share chain is exactly the outputs with one queue id and reuse id, in node order |
| ShareOffsets.DefineShareOffsets | autofuse/codegen/codegen_kernel_loop.cpp:1158-1190 | fails exactly where a position below belongs to nobody; otherwise defines the positions not defined before |
| ShareOffsets.AllocShareOutputs | autofuse/codegen/codegen_kernel_loop.cpp:1192-1236 | the statements of one output: base variable, new positions, assigned offset; fails exactly where a position is left out |
| ShareOffsets.OrderedOffsets | autofuse/codegen/codegen_kernel_loop.cpp:1158-1236 | for any load order and any permutation, every variable is declared once and before use, and each tensor's offset is the byte sum of all lower orders |
| ShareOffsets.OrderedNeverFails | autofuse/codegen/codegen_kernel_loop.cpp:1158-1190 | a permutation leaves no position without a tensor |
| ShareOffsets.UnorderedOffsets | autofuse/codegen/codegen_kernel_loop.cpp:1212-1222 | without orders each offset is the byte sum of all tensors loaded before |
| ShareOffsets.SlotsDisjoint | autofuse/codegen/codegen_kernel_loop.cpp:1158-1236 | slots of different orders do not overlap and end within the bytes of the group |
| ShareOffsets.LocalTQueAlloc | autofuse/codegen/codegen_kernel.cpp:1591-1660 | the queue size is the greatest of its scopes, tensors and sums of groups |
| ShareOffsets.PackedWithoutOverlap | autofuse/codegen/codegen_kernel.cpp:1639-1660 | the emitted offsets place all tensors of a group inside the queue without overlap, with orders and without |
| ShareGroups.AllocateReuseId | autofuse/optimize/buffer_allocate/buf_que_allocator.cpp:594-625 | two tensors get one reuse id exactly if each is read once, by the same call, and may be reused |
| ShareGroups.MergeTensorByGroupId | autofuse/optimize/buffer_allocate/mem_reuse_manager.cpp:23-81 | a group is alive from the first write to the last read of its tensors |
| ShareGroups.SelectBestMemoryBlock | autofuse/optimize/buffer_allocate/mem_reuse_manager.cpp:167-211 | a block is taken only if its groups are reusable and not alive at the same time; the closest in size, the last one only as a last resort |
| ShareGroups.AllocForTQue | autofuse/optimize/buffer_allocate/mem_reuse_manager.cpp:213-236 | groups in one queue are never alive together |
| ShareGroups.AllocateWithinGroup | autofuse/optimize/buffer_allocate/buf_que_allocator.cpp:688-706 | tensors that share are in one queue, and no call reads two tensors of a queue that do not share |
| ShareGroups.RequireContiguousInputBufs | autofuse/codegen/codegen_kernel_loop.cpp:118-131 | numbers the inputs of a call in their order, exactly if they come from different nodes, from VecIn and from one queue |
| ShareGroups.OrderInputs | autofuse/codegen/codegen_kernel_loop.cpp:348-369 | after all calls, each tensor has the order that the last numbering call gave it |
| ShareGroups.GroupsAreUniform | autofuse/codegen/codegen_kernel_loop.cpp:1138-1145 | a share group is read by one call, and has all orders, once each, if that call numbers its inputs, and none otherwise |
| ShareGroups.SharedSlotsApart | autofuse/codegen/codegen_kernel_loop.cpp:1158-1236 | in every graph, the tensors of every share group lie within their queue without overlap |
| QueueOps.WaitInputs | autofuse/codegen/codegen_kernel_loop.cpp:1294-1319 | dequeues once per distinct input, for the reader that has to wait |
| QueueOps.HandleVecOutAlloc | autofuse/codegen/codegen_kernel_loop.cpp:1321-1359 | allocates unless written in place, without a predecessor or after one that gave the queue up |
| QueueOps.AllocOutputs | autofuse/codegen/codegen_kernel_loop.cpp:1361-1432 | which outputs allocate, by unit, position, sharing and reuse |
| QueueOps.SyncOutputs | autofuse/codegen/codegen_kernel_loop.cpp:1434-1450 | enqueues the last share of loads and results |
| QueueOps.FreeInputs | autofuse/codegen/codegen_kernel_loop.cpp:1473-1516 | frees each queue at most once, at the last read of the last share, unless the successor takes over |
| QueueOps.FreeUnusedOutputs | autofuse/codegen/codegen_kernel_loop.cpp:1518-1545 | frees outputs that nobody reads |
| QueueOps.GenerateBody | autofuse/codegen/codegen_kernel_loop.cpp:533-578 | the operations of all calls in order |
| QueueLifecycle.WhoWaits | autofuse/codegen/codegen_kernel_loop.cpp:1254-1319 | of all calls and tensors only the guard dequeues, for the head of the group |
| QueueLifecycle.WhoFrees | autofuse/codegen/codegen_kernel_loop.cpp:1473-1545 | only the last tensor is freed, by its last reader, and nothing as unread |
| QueueLifecycle.QueueLivesOnce | autofuse/codegen/codegen_kernel_loop.cpp:533-578 | over the whole body the queue passes through its protocol exactly once, even if a call reads a tensor through several inputs |
| QueueLifecycle.LifecycleInOrder | autofuse/codegen/codegen_kernel_loop.cpp:1254-1545 | one Alloc, EnQue, DeQue and Free in this order, writes between the first two, reads between the last two (vector reads of results after EnQue) |
| ReuseChain.CountByTensor | autofuse/codegen/codegen_kernel_loop.cpp:1361-1545 | counting a queue's operations is counting over its tensors |
| ReuseChain.TraceCount | autofuse/codegen/codegen_kernel_loop.cpp:1361-1545 | over the whole body a tensor is allocated and freed at most once, and exactly if its links say so |
| ReuseChain.LinkBalanced | autofuse/codegen/codegen_kernel_loop.cpp:1321-1513 | a predecessor is freed if and only if its successor allocates, exactly outside the named shapes |
| ReuseChain.MismatchesOccur | autofuse/codegen/codegen_kernel_loop.cpp:1321-1513 | for each mismatching shape, a valid graph in which the queue is not freed as often as it is allocated |
| ReuseChain.AllocsMinusFrees | autofuse/codegen/codegen_kernel_loop.cpp:1361-1545 | allocations minus frees of a queue are the sum of the imbalances of its links |
| ReuseChain.ChainConserves | autofuse/codegen/codegen_kernel_loop.cpp:1361-1545 | without mismatching links a queue is freed as often as it is allocated, for chains of any length |
| Text.Int64RoundTrip | autofuse/codegen/codegen_tiling_cube_wrapper.h:525-531 | a printed 64-bit integer is read back |
| Json.EscapeString | autofuse/codegen/codegen_tiling_cube_wrapper.h:405-428 | equals the escaping defined character by character |
| Json.Dump | autofuse/codegen/codegen_tiling_cube_wrapper.h:331-403 | the printed text for every value, indent and level |
| JsonParser.Parser.ParseNumber | autofuse/codegen/codegen_tiling_cube_wrapper.h:498-532 | reads the literal, fails on a lone sign and out of range |
| JsonParser.Parser.ParseString | autofuse/codegen/codegen_tiling_cube_wrapper.h:534-588 | reads up to the closing quote with all escapes, or fails |
| JsonParser.Parser.ParseArray | autofuse/codegen/codegen_tiling_cube_wrapper.h:590-618 | reads the items of an array, or fails |
| JsonParser.Parser.ParseObject | autofuse/codegen/codegen_tiling_cube_wrapper.h:620-655 | reads the members of an object into key order, the last value of a key winning |
| JsonParser.Parser.ParseValue | autofuse/codegen/codegen_tiling_cube_wrapper.h:464-476 | ends on every text, fails or advances, and never leaves the text |
| JsonParser.Parser.Parse | autofuse/codegen/codegen_tiling_cube_wrapper.h:430-441 | the value at the start of the text, or failure |
| JsonRoundTrip.EscapedText | autofuse/codegen/codegen_tiling_cube_wrapper.h:405-588 | every string is read back from its escaped form |
| JsonRoundTrip.RoundTrip | autofuse/codegen/codegen_tiling_cube_wrapper.h:331-657 | parsing a printed value followed by anything that cannot continue a number returns the value and stops at its end, for every layout |
| JsonRoundTrip.DumpThenParse | autofuse/codegen/codegen_tiling_cube_wrapper.h:331-657 | parse(dump(v, indent)) is v |
| JsonRoundTrip.KeyLiteral | autofuse/codegen/codegen_tiling_cube_wrapper.h:375-390 | a printed key is read back as itself if and only if it has no quote and no backslash |
| JsonRoundTrip.OneMemberSurvives | autofuse/codegen/codegen_tiling_cube_wrapper.h:375-390 | an object of one member whose value prints without quotes survives if and only if its key is plain |
| Sha1.ChForms | autofuse/codegen/codegen_tiling_cube_wrapper.h:763-765 | the or-form of Ch is the standard's xor form |
| Sha1.MajForms | autofuse/codegen/codegen_tiling_cube_wrapper.h:769-771 | the or-form of Maj is the standard's xor form |
| Sha1.RoundFunction | autofuse/codegen/codegen_tiling_cube_wrapper.h:760-774 | function and constant of each round are the standard's |
| Sha1.MakeSchedule | autofuse/codegen/codegen_tiling_cube_wrapper.h:740-750 | the eighty words are the standard's message schedule |
| Sha1.SHA1.ProcessBlock | autofuse/codegen/codegen_tiling_cube_wrapper.h:739-788 | the digest becomes the standard's compression of the buffered block |
| Sha1.SHA1.Update | autofuse/codegen/codegen_tiling_cube_wrapper.h:692-707 | takes in any number of bytes without leaving the buffer |
| Sha1.SHA1.PutPadding | autofuse/codegen/codegen_tiling_cube_wrapper.h:709-730 | the digest becomes the fold over the padded message |
| Sha1.SHA1.Final | autofuse/codegen/codegen_tiling_cube_wrapper.h:709-737 | returns the standard's hash of everything taken in |
| Sha1.ZerosNeeded | autofuse/codegen/codegen_tiling_cube_wrapper.h:712-722 | the zeros written are the fewest that leave room for the length |
| Sha1.LengthDigits | autofuse/codegen/codegen_tiling_cube_wrapper.h:710-726 | the 64-bit length field is right although byte counts wrap around |
| Sha1.HashPieces | autofuse/codegen/codegen_tiling_cube_wrapper.h:669-737 | any cutting of a message hashes like the whole |
| TilingKeys.Generator.Append | autofuse/codegen/codegen_kernel.cpp:3458-3482 | emits the depth-first product with consecutive keys and restores the current choice |
| TilingKeys.ProductAt | autofuse/codegen/codegen_tiling.cpp:364-387 | a choice stands at the mixed-radix number of its indices |
| TilingKeys.EmitKernelBranches | autofuse/codegen/codegen_kernel.cpp:2639-2707 | branch k calls the k-th choice, fallbacks and empty groups dropped |
| TilingKeys.GenKernelFuncByTilingKey | autofuse/codegen/codegen_kernel.cpp:3417-3427 | branches on keys are generated exactly without parallel groups, fallbacks and Inductor |
| TilingKeys.GenMulGroupFindBestTilingKey | autofuse/codegen/codegen_tiling.cpp:389-419 | the conditions of each result return consecutive keys from its base on |
| TilingKeys.CalcTilingKeyCount | autofuse/codegen/codegen_tiling.cpp:421-437 | equals the number of enumerated choices, or one if keys cannot be used |
| TilingKeys.EmitKernelTypes | autofuse/codegen/codegen_tiling.cpp:447-467 | entry k says whether the k-th choice has a workspace node |
| TilingKeys.SearchFinds | autofuse/codegen/codegen_tiling.cpp:4119-4137 | the generated search returns base plus mixed-radix number, and -1 exactly if the tiling names no choice |
| TilingKeys.NoRepeats | autofuse/codegen/codegen_tiling.cpp:364-387 | no two keys of the host stand for the same choice, over all results |
| TilingKeys.SidesAgree | autofuse/codegen/codegen_kernel.cpp:3421-3427 | whenever the kernel is generated with keys, kernel and host enumerate the same if and only if no group is empty |
| TilingKeys.HostFindsKernelBranch | autofuse/codegen/codegen_tiling.cpp:389-419 | in a kernel with keys, the key found on the host is the branch that calls exactly the chosen implementations |
| TopN.CollectCandidates | autofuse/codegen/codegen_tiling.cpp:4561-4588 | collects named candidates, adds a missing default, and fails exactly without one |
| TopN.DeduplicateCandidateSolutions | autofuse/codegen/codegen_tiling.cpp:4724-4751 | keeps the first candidate of each text, replaced only by a default of practically the same performance |
| TopN.DedupReprs | autofuse/codegen/codegen_tiling.cpp:4724-4751 | the texts that occur are kept, each exactly once |
| TopN.SelectTopnCandidateSolutions | autofuse/codegen/codegen_tiling.cpp:4766-4790 | an ordered arrangement of the candidates without repetition, cut to the wanted number |
| TopN.SelectionIsBest | autofuse/codegen/codegen_tiling.cpp:4753-4790 | distinct texts, at most topn, exactly one default and in front, the rest in order, nothing better left out |
| TopN.OrderDoesNotMatter | autofuse/codegen/codegen_tiling.cpp:4561-4790 | if equal texts have equal performance, the selection does not depend on the order of the input |
| TopN.OrderedUnique | autofuse/codegen/codegen_tiling.cpp:4755-4762 | a list in the order of the comparison is determined by its elements |
| TilingFile.Reader.PGOGetTilingKey | autofuse/codegen/codegen_tiling.cpp:3127-3170 | reads the file, and keeps the tiling after a read with flag 1 |
| TilingFile.PackRoundTrip | autofuse/codegen/codegen_tiling.cpp:726-729 | words in memory order give the bytes back, whatever their number |
| TilingFile.SaveThenLoad | autofuse/codegen/codegen_tiling.cpp:724-735 | loading a saved line restores the bytes |
| CubeTilingCache.CubeTiling.CallCubeTiling | autofuse/codegen/codegen_tiling.cpp:3040-3079 | returns what an uncached call returns, and the global bytes are those of the shape, on a hit as well |
| CubeTilingCache.CubeTiling.CallAll | autofuse/codegen/codegen_tiling.cpp:1916-1929 | the same over any sequence of calls |
| Indentation.ScanLine | autofuse/codegen/codegen.cpp:284-311 | counts and carried state of a line |
| Indentation.ScanIgnoresBlanks | autofuse/codegen/codegen.cpp:240-311 | counts and carried state do not depend on leading blanks |
| Indentation.FormatIndentation | autofuse/codegen/codegen.cpp:313-355 | the formatted text, line by line |
| Indentation.LayoutOnly | autofuse/codegen/codegen.cpp:313-355 | the lines stay the same up to leading blanks, which become an even number of spaces, never a negative one |
| Indentation.FormatTwice | autofuse/codegen/codegen.cpp:313-355 | formatting twice is formatting once |

## Left out

- The text of the generated C++: only what it denotes is modelled. Include lists, logging and status plumbing carry nothing else.
- Symbolic expressions are natural numbers; simplification and printing of expressions are not part of this model.
- Axes: an axis of size zero with a loop size of zero, reduced and broadcast strides, and the vectorised inner tile inside one call. Sizes are unbounded; the emitted 32-bit casts of sizes are not modelled.
- LoopPaths.LoopAxisDistance: does not model the 32-bit casts of list lengths.
- KernelLoop.ConstructFromNodes: nodes that skip emission, execution conditions and caching of broadcast branches are not part of this model. Numbering the inputs of a call is modelled apart, in `ShareGroups`, on the same calls and tensors by their index.
- KernelGraph.GraphIsValid: units and positions come with the nodes, and inputs are not absent, since the emitters would follow a null pointer.
- ShareGroups: tensors outside VecIn get no queue here, in-place results join no group, and control edges do not count as readers; a load has one output. Which calls prefer contiguous inputs is given, and contiguous buffers of intermediate results have no share order.
- `GenerateBody` hoists allocation and enqueuing of calls in inner loops (`used_calls`), and picks calls by stage in cube-vector fusion; `QueueOps` covers bodies of calls only, outside fusion.
- QueueOps.GenerateBody: pipe barriers, buffers of tensors outside queues and the define flag of a reused buffer are not queue operations and are not modelled; a queue that is missing in the table is an error of the program that does not occur here.
- ReuseChain.ChainConserves: counts over the whole body; that an in-place result over an intermediate allocates before it frees is visible only in the order of operations, which is not part of that statement.
- Barriers: one cube group and one vector group; the hardware barrier is assumed to release when all members have arrived, and a barrier of the vector cores does not hold up a cube core.
- CvFusion: fusion in unified buffer and generation of fused classes; convolutions, which are never launched in the safe mode modelled here.
- ShareOffsets.LocalTQueAlloc: buffer counts and the merging of scopes are given; the size is a number, not an expression.
- Json.Dump: floating-point numbers are kept as the text they were read from; printing them with stream precision, and range errors of `std::stod`, are not part of this model.
- JsonRoundTrip.OneMemberSurvives: for objects of several members and values with quotes only one direction is stated; the key literal itself is exact.
- Characters stand for bytes; surrogate pairs are combined nowhere in the program either. Text behind a parsed value is ignored, as in the program.
- Sha1: the hexadecimal form of the digest.
- TilingKeys: one asc graph; with several, the host search returns the first graph's match. Keys are unbounded, without the 32-bit wrap-around. The single-group search, which returns the implementation's own number, is a special case that is not spelled out. Cube results, whose branches carry no key test, are not modelled.
- TilingKeys.EmitKernelBranches: the barrier after a call with a workspace that is not the last of its branch.
- TilingKeys.SidesAgree: asks for at least one group per result, since the host would otherwise emit a condition without terms.
- TopN: performance is a real number, with a given value for what is not finite; the library sort is a sort written here.
- TilingFile: opening and closing of files, and the rest of the protocol around them.
- CubeTilingCache: the inner tiling is a function of the shape variables and cannot fail.
- Profiling, device queries, locks, dynamic loading, the operator registry, type inference, matmul dispatch tables and constant substitution: foreign calls, finite tables or text only.
