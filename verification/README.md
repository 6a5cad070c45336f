# Proofs about the stateful cores of whisper.cpp and ggml

This project models four parts of the repository in Dafny and proves what they are for.

**The graph memory planner** (`ggml/src/ggml-alloc.c`, `ggml/src/ggml-impl.h`). `FreeList`
is the sorted, coalescing free list of one chunk; `Arena` the choice among several chunks;
`ArenaInvariant` what every run of allocations and releases keeps; `BestFit` which block a
request gets, and when a high-water mark rises or a chunk is opened; `DynTallocr` the same
allocator on arrays shifted in place, proved equal to `Arena`. `Graph`, `Ownership` and
`Liveness` describe computation graphs, which tensor owns which region, and when the children
and view counters reach zero. `Placement` says, from the graph and the buffer ids alone, which
buffer a tensor belongs to and which operand a node takes over. `Planner` is the planner itself,
with in-place reuse, and `Reserve` the recording of a plan, the enlargement of the real buffers, and the replay of the
plan on a later graph. `HashSet` is the linear-probing hash set over a packed bitset, and
`NodeTable` shows that the planner's entries behind it behave as one entry per tensor.

**The decoding engine** (`src/whisper.cpp`). `KvCache` is the unified cache whose cells hold a
position and a set of sequences; `Beam` the two-loop update of a beam through shadow sequences;
`DecodeWindow` one decode window, in which every decoder must see exactly its own token
history; `Transcribe` the loops over tokens, temperatures and audio. `Grammar` is the set of
pushdown stacks that follows a grammar, `Utf8` the resumable decoder, `Rejector` the batched
test of candidate tokens, and `GrammarTokens` puts the three together.

**Signal processing in the same file.** `Fft` is the recursive transform over shared scratch
buffers, `Dtw` the dynamic program with its backtrace, `Vad` the speech segmenter, and `TimeMap`
the map from the speech-only audio back to the original times.

**Training** (`ggml/src/ggml-opt.cpp`). `Training` is gradient accumulation, validation and the
traversal of the dataset.

Code that changes things step by step is modelled by classes and methods with loops, proved
against functions on values; the promises are then proved about those functions. Integers are
unbounded except where a width matters (the signed 64-bit reuse factor of the allocator, the
32-bit words of the bitset). Floating-point numbers are reals. Whatever a model run, a clock, a
random number generator or a backend decides is a parameter.

## What turned out differently from what one would expect

- Training and validation batches advance the same counter, which decides when an optimizer step
  is due, and validation does not clear gradients that wait for a step. An epoch that starts in
  step leaves the next one in step exactly when both its training and its validation batches
  are multiples of the accumulation period (`Training.EpochStaysInStep`). Otherwise the first
  step afterwards comes when the counter says so and sees everything that waits
  (`Training.NextStepSees`): fewer gradients than a period, gradients of two epochs
  (`Training.StepAcrossEpochs`), or more than a period (`Training.ThreeGradientsInOneStep`).
  `ggml_opt_fit` always chooses such numbers, a caller of `ggml_opt_epoch` need not.
- The cheapest alignment is found when no cell ties its diagonal and upper predecessors strictly
  below the left one; every cell of the table is optimal exactly under that condition
  (`Dtw.OptimalIffNoTie`), and `Dtw.TieCanMissTheCheapest` is a 2 x 2 matrix that misses it.
- The test whether a recorded plan still does for a graph never looks at leafs that no node reads
  (`Reserve.LeafsAreNotChecked`). The replay is safe for those too as long as they were planned
  and have not grown (`Reserve.Covered`). One that has grown past the end of its real chunk makes
  the placement of the accepted graph abort (`Reserve.GrownLeafEscapes`), and so does one that had
  its own memory at reservation time and has none now; nothing else does
  (`Reserve.GraphAllocator.Replay`). One that has grown but still ends inside the chunk is placed
  silently, over whatever was planned behind it (`Reserve.GrownLeafOverlaps`).
- The merge of a freed region with the block before it cannot happen in the place where the code
  checks for it (`FreeList.PreviousMergeNeverApplies`), and the in-place branch for views cannot
  be reached (`Planner.ViewsNeverOwn`).
- Prompts fit the budget throughout a run exactly under a condition on what the run starts with
  (`Transcribe.CarriedPromptFits`). With nothing carried over from an earlier run the initial
  prompt is cut to `max(1, budget - 1)` tokens, which leaves room for the marker in front of it
  exactly when the budget is not a single token. Tokens carried over in the state are never cut:
  with a smaller budget than before, a negative number of tokens is taken off the rolling context.
- The list of temperatures is empty exactly when the increment is positive and the start is not
  below 1.000001 (`Transcribe.WhenTemperatures`). No decoder is then started, and every window is
  taken from what the first decoder was left with: the loop over the audio ends exactly when that
  moves on or there is nothing to do (`Transcribe.StaleSeekEnds`). `Transcribe.Full` is stated for
  all other parameters.
- For an inverse character class an unfinished character passes only when none of the characters
  it can become is listed, for a plain class when one of them is (`Rejector.PartialMeaning`).

## Model

| member | source | states |
|---|---|---|
| `FreeList.NormalFormIsUnique` | ggml/src/ggml-alloc.c:314-361 | Two sorted, separated, nonempty-block free lists that cover the same bytes are equal. |
| `FreeList.PreviousMergeNeverApplies` | ggml/src/ggml-alloc.c:324-355 | Where the scan stops at a block that begins at the end of the released region, and the block before it is examined, no block of the sorted list ends at the region's start; where one does, the scan stops there and merges on both sides. |
| `FreeList.ReleaseCovers` | ggml/src/ggml-alloc.c:324-361 | After a release exactly the old free bytes and the released ones are free. |
| `FreeList.ReleaseNormal` | ggml/src/ggml-alloc.c:324-361 | A release of bytes that were not free keeps the list sorted, separated and without empty blocks. |
| `FreeList.ReleaseAligned` | ggml/src/ggml-alloc.c:324-361 | Offsets of free blocks stay multiples of the alignment when the released region starts at one. |
| `FreeList.CarveCovers` | ggml/src/ggml-alloc.c:263-271 | Taking a region from a block frees exactly its bytes from the free set. |
| `FreeList.CarveNormal` | ggml/src/ggml-alloc.c:263-271 | Taking a region, and dropping a block that it exhausts, keeps the list normal. |
| `ArenaInvariant.PadRoundsUp` | ggml/src/ggml-alloc.c:55-59 | Padding gives the least multiple of the alignment that is not below the size. |
| `ArenaInvariant.AllocKeeps` | ggml/src/ggml-alloc.c:204-312 | An allocation returns a region that was not live, aligned and below the chunk's high-water mark, and free and live regions again partition every chunk. |
| `ArenaInvariant.FreeKeeps` | ggml/src/ggml-alloc.c:314-361 | Releasing a live region, or the tail of one, keeps the partition. |
| `ArenaInvariant.BestInnerIsTightest` | ggml/src/ggml-alloc.c:213-226 | The scan of one chunk finds its tightest block, the last of equals, or none fits. |
| `ArenaInvariant.InnerFitUsesLastChunk` | ggml/src/ggml-alloc.c:213-226 | Across chunks the last one with a fitting inner block is used; fits are not compared across chunks. |
| `ArenaInvariant.LastFitGrowsLeast` | ggml/src/ggml-alloc.c:228-249 | A last-block choice grows some chunk's high-water mark by the least amount on offer, and among those without growth wastes the least. |
| `ArenaInvariant.ReuseInRange` | ggml/src/ggml-alloc.c:236-241 | The reuse factor of a valid chunk fits a signed 64-bit word. |
| `ArenaInvariant.ChooseFailsOnlyWhenFull` | ggml/src/ggml-alloc.c:251-261 | A choice fails only with all chunks in use and every block too small. |
| `ArenaInvariant.RunKeepsPartition` | ggml/src/ggml-alloc.c:204-361 | Over every run of allocations and releases of live regions the partition, the alignment and the high-water marks hold. |
| `ArenaInvariant.FreeListDeterminedByLive` | ggml/src/ggml-alloc.c:314-361 | The live regions and the chunk size determine the free list. |
| `ArenaInvariant.RunOrderIrrelevant` | ggml/src/ggml-alloc.c:204-361 | Two runs that end with the same live regions and chunk sizes end with the same free lists. |
| `BestFit.InnerFirst` | ggml/src/ggml-alloc.c:204-278 | With an inner block large enough in some chunk, the region starts at the tightest one, the last of equals, of the last chunk that has one; no high-water mark, capacity or number of chunks changes. It fails only when the block fits exactly in a list of 256 blocks. |
| `BestFit.LastGrowsLeast` | ggml/src/ggml-alloc.c:228-278 | With room in last blocks only, the region is the front of the last block of a chunk that raises its high-water mark no more than any other would; the other chunks stay as they are and none is opened. |
| `BestFit.NewChunkLast` | ggml/src/ggml-alloc.c:162-181 | With no room anywhere a chunk is opened, of the size asked for or the usual one if that is larger, the sixteenth of half the address range, and the region starts it; it fails exactly when there are sixteen. |
| `DynTallocr.AsInt64Exact` | ggml/src/ggml-alloc.c:236-241 | The wrapped difference of two sizes, read as a signed word, is the true difference in the range that occurs. |
| `DynTallocr.ChunkBuffer.InsertBlock` | ggml/src/ggml-alloc.c:137-152 | Shifting the array up inserts the block in order, or fails on a full array. |
| `DynTallocr.ChunkBuffer.RemoveBlock` | ggml/src/ggml-alloc.c:154-160 | Shifting the array down removes exactly one block. |
| `DynTallocr.ChunkBuffer.Return` | ggml/src/ggml-alloc.c:324-361 | The in-place release computes the release of the free list, and fails only on a full array. |
| `DynTallocr.Allocator.FindInner` | ggml/src/ggml-alloc.c:209-226 | The array scan finds the inner block that the specification names. |
| `DynTallocr.Allocator.FindLast` | ggml/src/ggml-alloc.c:228-249 | The scan over last blocks with a signed reuse factor finds the chunk that the specification names. |
| `DynTallocr.Allocator.AllocTensor` | ggml/src/ggml-alloc.c:204-312 | The in-place allocation refines the allocation on values. |
| `DynTallocr.Allocator.FreeTensor` | ggml/src/ggml-alloc.c:314-361 | The in-place release refines the release on values. |
| `DynTallocr.Allocator.ResetAll` | ggml/src/ggml-alloc.c:363-375 | A reset empties all chunks. |
| `Graph.ReadIsNotReleased` | ggml/src/ggml-alloc.c:791-819 | A tensor that a later node still reads, directly or through a counted view, is not released. |
| `Graph.UnreadIsNotReleased` | ggml/src/ggml-alloc.c:721-726 | A planned tensor that no node reads, directly or through a view, is never released. |
| `Graph.LastUse` | ggml/src/ggml-alloc.c:661-662 | An operand with one use left and no views is read by the current node and by no later one. |
| `Graph.BirthNotReleased` | ggml/src/ggml-alloc.c:775-819 | A node is not released before its own turn. |
| `Graph.ViewCountDrops` | ggml/src/ggml-alloc.c:803-813 | The number of undead views drops by one exactly when a view loses its last use. |
| `Placement.ReleasedExactly` | ggml/src/ggml-alloc.c:791-819 | Given back before a node is exactly what is no output, was used or viewed, and has neither a use nor a live view left, in terms of the graph alone. |
| `Placement.OneLeft` | ggml/src/ggml-alloc.c:661-662 | One use left at a node that reads the operand means that this node names it exactly once and no later one does. |
| `Placement.NoneAlive` | ggml/src/ggml-alloc.c:661-662 | No views left means that every counted view has been read, and by no node from here on. |
| `Ownership.FreshOwned` | ggml/src/ggml-alloc.c:687-692 | A fresh allocation gives the tensor a region apart from all others and leaves no live region without an owner. |
| `Ownership.ShrinkKeeps` | ggml/src/ggml-alloc.c:609-626 | Giving back the surplus of a reused region keeps the allocator valid. |
| `Ownership.PassOwned` | ggml/src/ggml-alloc.c:676-683 | Handing a region from an operand to a node keeps owners apart and leaks nothing. |
| `Ownership.DropOwned` | ggml/src/ggml-alloc.c:696-710 | Releasing a tensor's region keeps owners apart and leaks nothing. |
| `Liveness.AfterUseKeeps` | ggml/src/ggml-alloc.c:791-819 | One source processed after a node keeps the counters equal to the uses ahead, and ownership equal to not yet released. |
| `Liveness.OwnAfterBirth` | ggml/src/ggml-alloc.c:628-694 | After a node is placed exactly the tensors in being and not released own regions. |
| `Liveness.OwnAfterReuse` | ggml/src/ggml-alloc.c:636-684 | The same after a node has taken over the region of an operand. |
| `Planner.FirstReusableIsReusable` | ggml/src/ggml-alloc.c:636-686 | The operand taken over is owned, no output, of equal layout, with one use left and no view, and no earlier operand is; none is taken only if none qualifies. |
| `Planner.ChoiceTakesOver` | ggml/src/ggml-alloc.c:636-686 | In every state of the plan the operand taken over is the first one that the graph alone determines: planned, no output, of equal layout, named once by this node and by no later one, with all its counted views read before; and none is taken over only when there is no such operand. |
| `Planner.ViewsNeverOwn` | ggml/src/ggml-alloc.c:632-675 | Views never own a region, so the branch that reuses a view's base is unreachable. |
| `Planner.SafeIsNoClobber` | ggml/src/ggml-alloc.c:716-821 | Regions of tensors not yet released being left alone means that nothing still to be read, no output, and nothing that was placed without any reader is overwritten. |
| `Planner.SafeStep` | ggml/src/ggml-alloc.c:761-820 | Planning one more node keeps the guarantee for all nodes planned so far. |
| `Planner.CountingDone` | ggml/src/ggml-alloc.c:728-759 | The counting pass leaves every counter equal to the uses and views in the graph. |
| `Planner.Gallocr.TryReuse` | ggml/src/ggml-alloc.c:636-686 | The loop over operands takes over exactly the first reusable one, or none. |
| `Planner.Gallocr.AllocateNode` | ggml/src/ggml-alloc.c:628-694 | A tensor gets a place at most once: by reuse of the chosen operand, else a fresh region in the given buffer. |
| `Planner.Gallocr.FreeNode` | ggml/src/ggml-alloc.c:696-710 | The region goes back to its allocator and the tensor owns nothing. |
| `Planner.Gallocr.UpdateParent` | ggml/src/ggml-alloc.c:791-819 | Counters drop, and the operand, or the base of a dead view, is released exactly when nothing needs it and it is no output. |
| `Planner.Gallocr.CountNode` | ggml/src/ggml-alloc.c:730-758 | The counting pass of one node counts its view and its sources, and places inputs, new ones in the given buffer. |
| `Planner.Gallocr.PlanNode` | ggml/src/ggml-alloc.c:762-820 | One step of the plan keeps counters exact, ownership exact and the regions of all planned tensors safe; a node that is no leaf or input gets the place of the first operand it can take over, or else one in the given buffer. |
| `Planner.Gallocr.AllocGraphImpl` | ggml/src/ggml-alloc.c:716-821 | For every graph and buffer assignment: when node i runs its region overlaps nothing that it or a later node still reads, no output and no tensor that no node reads, except an operand whose last reader it is; leafs and inputs overlap no other leaf or input; a leaf is in the buffer of its first listing, an input that is no leaf in that of the first node that is it or mentions it, and any other node in the buffer of its own number, unless it shares buffer and address with the operand it takes over; at the end counters are exact and exactly the unreleased tensors own regions. It fails only on an exhausted allocator, a full free list, or an operand smaller than the node of equal layout that takes it over. |
| `Reserve.GraphAllocator.EnlargeBuffers` | ggml/src/ggml-alloc.c:901-935 | Afterwards every buffer is at least as large as its allocator's high-water marks: one that was is kept, any other is replaced by one of exactly those sizes, and buffers of one allocator are one buffer. |
| `Reserve.GraphAllocator.ReserveN` | ggml/src/ggml-alloc.c:823-938 | When it succeeds the plan is safe, every tensor is in the buffer that its id says, the plan is fully recorded and fits the real buffers, and the allocator is ready for the next graph; it fails only when the planner is blocked or memory is refused for a buffer that is missing or too small. |
| `Reserve.GraphAllocator.NeedsRealloc` | ggml/src/ggml-alloc.c:971-1024 | It says no exactly when node and leaf counts match and every node and source fits its recorded place. |
| `Reserve.CheckedSuits` | ggml/src/ggml-alloc.c:971-1024 | An accepted node or source needs no more than the planned one, in the same buffer. |
| `Reserve.AcceptsExactly` | ggml/src/ggml-alloc.c:971-1024 | A graph of the same structure is accepted exactly when every node and source without memory of its own was planned and needs no more than it did then. |
| `Reserve.ReplayIsSafe` | ggml/src/ggml-alloc.c:1026-1072 | An accepted graph of the same structure is as safe in the recorded places as the planned one: nodes, sources, and all planned leafs that have not grown keep clear of what is written while they are needed, and leafs and inputs among them of one another. |
| `Reserve.OwnPlanSuits` | ggml/src/ggml-alloc.c:1027-1035 | A graph just reserved is accepted, all its leafs included, so the automatic reservation is followed by a placement. |
| `Reserve.FitsInside` | ggml/src/ggml-alloc.c:944-969 | A planned region lies inside the real chunk it is placed in. |
| `Reserve.LeafsAreNotChecked` | ggml/src/ggml-alloc.c:983-1024 | Graphs that agree on nodes and their sources are accepted or refused together, whatever other leafs do. |
| `Reserve.GrownLeafEscapes` | ggml/src/ggml-backend.cpp:1842-1849 | An accepted graph whose placement aborts: for all sizes, a planned leaf that no node reads and that outgrows its chunk. |
| `Reserve.GrownLeafOverlaps` | ggml/src/ggml-alloc.c:983-1024 | An accepted graph that is placed and goes wrong: for all sizes, a grown leaf that still ends inside its chunk overlaps the node planned behind it. |
| `Reserve.GraphAllocator.Replay` | ggml/src/ggml-alloc.c:1043-1072 | An accepted graph gets the recorded addresses, all inside their real chunks, and nothing that the plan covers is overwritten while needed. It fails exactly when a leaf had memory of its own at reservation time and has none now, or a planned leaf would reach past the end of its real chunk. |
| `Reserve.GraphAllocator.AllocGraph` | ggml/src/ggml-alloc.c:1026-1072 | An accepted graph is placed without touching plan or buffers, and aborts exactly as the replay does; another one is refused with several buffers, and with one buffer is reserved anew and then placed, leafs included, unless the reservation fails. |
| `HashSet.SetBit` | ggml/src/ggml-impl.h:211-213 | Setting a bit of a 32-bit word sets that bit and no other. |
| `HashSet.ClearBit` | ggml/src/ggml-impl.h:215-217 | Clearing a bit of a word clears that bit and no other. |
| `HashSet.Bitset.Set` | ggml/src/ggml-impl.h:211-213 | On the packed words one boolean becomes true, the others stay. |
| `HashSet.Bitset.Clear` | ggml/src/ggml-impl.h:215-217 | On the packed words one boolean becomes false, the others stay. |
| `HashSet.Table.FullIsCount` | ggml/src/ggml-impl.h:257-270 | Members sit in distinct slots, and the table is full exactly when it has as many members as slots. |
| `HashSet.Table.Find` | ggml/src/ggml-impl.h:257-270 | After at most one turn: the slot of a member, a free slot for another key, or nothing on a full table. |
| `HashSet.Table.Contains` | ggml/src/ggml-impl.h:272-275 | Agrees with membership. |
| `HashSet.Table.Insert` | ggml/src/ggml-impl.h:277-296 | A new key goes to a free slot and no other key moves; a member is reported; a full table aborts. |
| `HashSet.Table.FindOrInsert` | ggml/src/ggml-impl.h:298-317 | Returns the slot that holds the key; slots of other keys never move. |
| `HashSet.Table.Reset` | ggml/src/ggml.c:6035-6037 | A reset empties the set. |
| `NodeTable.Table.Get` | ggml/src/ggml-alloc.c:595-598 | Looking up an entry finds the slot of its tensor and changes no tensor's entry; only a full table without the tensor aborts. |
| `NodeTable.Table.Put` | ggml/src/ggml-alloc.c:595-598 | Writing through the slot changes the entry of that tensor and no other. |
| `NodeTable.Table.Clear` | ggml/src/ggml-alloc.c:717-719 | A new plan starts from blank entries for all tensors. |
| `NodeTable.HashSize` | ggml/src/ggml.c:6044-6068 | The binary search finds the least listed prime that is no smaller than the size, or the next odd number. |
| `NodeTable.TableFor` | ggml/src/ggml-alloc.c:824-837 | A table with fewer slots than nodes plus leafs plus a quarter is replaced by one with at least as many. |
| `NodeTable.Table.RoomForGraph` | ggml/src/ggml-alloc.c:824-837 | Such a table never turns away a tensor that the planner looks up, as long as those that are neither nodes nor leafs are no more than that quarter. |
| `NodeTable.Table.RoomForAll` | ggml/src/ggml-alloc.c:595-598 | A table with a slot for every tensor never turns one of them away. |
| `KvCache.Cache.FindSlot` | src/whisper.cpp:1019-1068 | True exactly when some run of free cells is long enough; then only such a run is written, the first from the head on, or the first from the front when there is none up to the end; else nothing is. |
| `KvCache.Cache.SearchSlot` | src/whisper.cpp:1030-1057 | The search ends for every head, despite wrapping and skipping, misses no run, and finds the first from the head on and round. |
| `KvCache.Cache.CellMax` | src/whisper.cpp:1071-1079 | No cell from the result on is in use, and the one before it is. |
| `KvCache.Cache.ClearAll` | src/whisper.cpp:1081-1089 | All cells become free and the search starts at the front. |
| `KvCache.Cache.SeqRm` | src/whisper.cpp:1091-1119 | Exactly the cells of the range lose the sequence, or all sequences; a cell no sequence holds becomes free, and the search starts at the first of these. |
| `KvCache.Cache.SeqCp` | src/whisper.cpp:1121-1137 | Exactly the source's cells of the range gain the other sequence. |
| `KvCache.EnterKeepsOk` | src/whisper.cpp:1059-1065 | Entering a batch keeps "has a position" equal to "is held by a sequence". |
| `Beam.Shuffle` | src/whisper.cpp:7279-7317 | The two loops are a simultaneous assignment: every cell is held afterwards by exactly the decoders whose chosen source held it before. |
| `Beam.ShuffleIsClean` | src/whisper.cpp:7279-7317 | No shadow sequence is left, finished decoders keep theirs, and a cell is freed exactly when no decoder holds it any more. |
| `DecodeWindow.OneAppends` | src/whisper.cpp:7429-7461 | A batch entry at the next position appends its token to that decoder's history. |
| `DecodeWindow.OthersKeep` | src/whisper.cpp:7429-7461 | A decoder the batch does not mention keeps its history. |
| `DecodeWindow.PromptEnters` | src/whisper.cpp:7142-7149 | After the prompt decoder 0 has exactly its tokens as history. |
| `DecodeWindow.CopyGivesHistory` | src/whisper.cpp:7170-7173 | Copying a sequence to an empty decoder gives it the same history. |
| `DecodeWindow.BeamMovesHistory` | src/whisper.cpp:7279-7317 | After the beam update a decoder has the history of the decoder it continues. |
| `DecodeWindow.WalkSkipsDuplicates` | src/whisper.cpp:7286-7294 | Until the walk starts over neighbouring decoders get different tokens, and only duplicates are passed over. |
| `DecodeWindow.TakeCandidates` | src/whisper.cpp:7277-7294 | The first active decoder gets the best candidate, each later one the next with other tokens, or the best again; before the first token has been sampled the m-th active decoder gets candidate m, round and round. |
| `DecodeWindow.Window.Decode` | src/whisper.cpp:2868-2937 | A found slot is written, no cell in use lies beyond `kv_self.n`, which is the least multiple of the padding for which that holds or the whole cache, and mask row q admits exactly the cells of q's sequence at no later position; rows are padded to a multiple of 64. |
| `DecodeWindow.Window.Begin` | src/whisper.cpp:7142-7182 | Every decoder starts with the prompt as its history; it succeeds exactly when the cache has a cell for every token of the prompt. |
| `DecodeWindow.Window.SampleGreedy` | src/whisper.cpp:7212-7222 | Every active decoder appends its token, the others nothing. |
| `DecodeWindow.Window.SampleBeam` | src/whisper.cpp:7265-7318 | Every active decoder takes the tokens of the candidate handed to it, in that order, and the history that goes with them. |
| `DecodeWindow.Window.NextBatch` | src/whisper.cpp:7429-7461 | After each batch every active decoder has exactly one cell per position, holding prompt and own tokens, and the mask row of its new token admits exactly those cells, all below `kv_self.n`. It succeeds exactly when some run of free cells is as long as there are active decoders; a single decoder always finds one in a cache larger than its history. |
| `Transcribe.PromptFits` | src/whisper.cpp:7086-7112 | A prompt is never empty and never longer than half the context plus four; it cannot be built exactly when the carried tokens leave no room for the marker at a temperature that uses them. |
| `Transcribe.PromptIsShaped` | src/whisper.cpp:7086-7112 | Below the cut-off temperature, with a budget and something to take, the prompt is the marker, all carried tokens, the end of the rolling context, and the task tokens; it holds all of the context, or fills the budget exactly. Otherwise it is the task tokens alone. |
| `Transcribe.LastPosition` | src/whisper.cpp:7184 | No position reaches `n_text_ctx`, and with a full prompt the last one is `n_text_ctx - 1`. |
| `Transcribe.CarriedPromptFits` | src/whisper.cpp:6900-6936 | Prompts can be built throughout a run exactly when nothing is carried over and there is no initial prompt or the budget is not 1, or what is carried over is shorter than the budget. |
| `Transcribe.StartsSo` | src/whisper.cpp:6900-6944 | A run starts from the initial prompt followed by the context of earlier runs, or, when the prompt is carried, from its last `max(1, budget - 1)` tokens unless carried tokens are there already. |
| `Transcribe.UpdateExactly` | src/whisper.cpp:7320-7403 | When a decoder fails, completes or goes on after a token, and what its seek delta, result length and timestamp flag are then, in terms of the token, its number and the audio left. |
| `Transcribe.UpdateKeepsOk` | src/whisper.cpp:7320-7403 | Every update of a decoder keeps `seek_delta >= 2` and its result a prefix of its tokens. |
| `Transcribe.CompletedHasResult` | src/whisper.cpp:7366-7403 | With a loaded model a decoder that completes, or survives the window, has a nonempty result. |
| `Transcribe.UpdateTracks` | src/whisper.cpp:7340-7353 | An update keeps the last timestamp token and its time, and goes back in time only from one timestamp straight to the next. |
| `Transcribe.ResultEndsAtTimestamp` | src/whisper.cpp:7320-7403 | After any sequence a decoder that is still going, or has completed at a timestamp, stands at the last timestamp of its tokens. |
| `Transcribe.ResultStands` | src/whisper.cpp:7320-7403 | However a sequence went, its decoder moves on by the whole chunk or by the last timestamp of its result, a final one that goes back in time apart. |
| `Transcribe.ContinuedIsPending` | src/whisper.cpp:7296-7299 | Decoders that take over tokens and state together keep the two in step. |
| `Transcribe.ContextIsRecent` | src/whisper.cpp:7590-7602 | If the rolling context was the end of the transcript, so is the next one, whatever part of it the prompt had room for. |
| `Transcribe.SortCandidates` | src/whisper.cpp:7265-7276 | Candidates are ordered by score, then decoder, and none is lost. |
| `Transcribe.RunRound` | src/whisper.cpp:7036-7508 | A window at one temperature ends, keeps every position below `n_text_ctx`, and leaves every decoder, across all beam copies, in the state that its own tokens lead to. Step by step each active decoder appends the sampler's token, or takes the continuation that is handed to it from all continuations of all active decoders, best score first; it goes on until all are done or the window is used up. With a single decoder it never fails for want of cells. |
| `Transcribe.Rank` | src/whisper.cpp:7510-7544 | Sequences are cut to their results, exactly the long repetitive ones are marked as failed, and the first of the highest-ranked others is chosen; the earlier choice stays only if there is none. |
| `Transcribe.DecodeSegment` | src/whisper.cpp:7032-7571 | The temperatures are tried in turn, each with its number of decoders and its prompt, and each because the choice before it had failed or was not good enough; every attempt is one window decoded to its end, cut and ranked, and decoders it does not use keep older results. The result is the choice of the last attempt, which is acceptable or has no temperature behind it. The prompt is the marker, all carried tokens, the end of the rolling context and the task tokens, or the task tokens alone. It gives up on an oversized prompt only when the carried tokens do not fit, and for want of cells only with several decoders. |
| `Transcribe.Full` | src/whisper.cpp:6896-7734 | The loop over the audio ends. The first window starts at the start with what earlier runs and the initial prompt leave; every later one exactly where the one before led (the last timestamp of its choice, or behind the chunk or the audio after a single timestamp at its end) and at least 2 further, with the context that one left: what its prompt held of the context before, then its result unless it counts as silence. Every window is decoded as `DecodeSegment` says, from those tokens or, close to the end, from none. The context is the end of the transcript of all kept tokens; without an error at most 100 ms of audio are left, and every other way to stop says why. |
| `Transcribe.BuildTemperatures` | src/whisper.cpp:6851-6860 | The loop ends and lists the start temperature and all equal steps from it below 1.000001, and no more, or the start alone without a positive increment. |
| `Transcribe.WhenTemperatures` | src/whisper.cpp:6851-6860 | There is a temperature to try exactly when the increment is not positive or the start is below the limit. |
| `Transcribe.StaleSeekEnds` | src/whisper.cpp:7720-7734 | Without one, the loop over the audio ends exactly when there is nothing to do, or what the first decoder was left with has a positive seek delta or ends in a single timestamp. |
| `Grammar.MatchChar` | src/whisper.cpp:5543-5565 | The loop over a class says whether one of its characters or ranges has the character, negated for an inverse class, and where the class ends. |
| `Grammar.NextAlternate` | src/whisper.cpp:5647-5656 | Scanning to the end of a definition reaches the next definition of the rule, and misses none. |
| `Grammar.DenRef` | src/whisper.cpp:5632-5659 | A rule reference on a stack stands for any definition of the rule. |
| `Grammar.DenEat` | src/whisper.cpp:5676-5702 | A character class takes one character, one that it accepts, and leaves the rest of the stack. |
| `Grammar.AdvanceKeepsTexts` | src/whisper.cpp:5619-5670 | Advancing ends, every stack is then empty or waits for a character, and together they take exactly the texts of the old one. |
| `Grammar.AcceptTexts` | src/whisper.cpp:5676-5702 | Accepting a character leaves exactly the texts that continued with it. |
| `Grammar.StartTexts` | src/whisper.cpp:5776-5814 | The initial stacks take exactly the language of the start rule. |
| `Grammar.StacksAreContinuations` | src/whisper.cpp:5619-5814 | After any text w the stacks take v exactly when w followed by v is in the language. |
| `Grammar.EmptyStackMeansComplete` | src/whisper.cpp:5676-5814 | The text so far is in the language exactly when one of the stacks is empty. |
| `Utf8.DecodeUtf8` | src/whisper.cpp:5476-5530 | The decoder's loops compute the decoding of any bytes and any unfinished character. |
| `Utf8.NextByte` | src/whisper.cpp:5476-5530 | What one more byte does to what any bytes have been decoded to, from any unfinished character: which bytes start a character of how many, how its value grows, when it is finished, and when the text is invalid and stays so. |
| `Utf8.DecodeExactly` | src/whisper.cpp:5476-5530 | On any bytes decoding is a byte-by-byte machine, or gives no characters and an invalid state: exactly when a byte that can only continue a character stands where one has to start, or the unfinished one from before is not continued. |
| `Utf8.InvalidIsRefused` | src/whisper.cpp:5486-5514 | Whole characters followed by a byte in 0x80..0xBF, and an unfinished character followed by another byte before it is complete, decode to no characters and a negative count, whatever follows. |
| `Utf8.DecodeFeeds` | src/whisper.cpp:5476-5530 | On well-formed text decoding is a byte-by-byte machine. |
| `Utf8.FeedSplits` | src/whisper.cpp:5476-5530 | Cutting well-formed text at any byte changes neither characters nor the final state. |
| `Utf8.EncodeAllFeeds` | src/whisper.cpp:5476-5530 | Text encoded as in RFC 3629, section 3, decodes to its characters with nothing left over. |
| `Rejector.MatchPartialChar` | src/whisper.cpp:5570-5614 | The loop over a class computes whether it meets the range of the unfinished character. |
| `Rejector.PartialMeaning` | src/whisper.cpp:5570-5614 | A class passes exactly the unfinished characters that can become an accepted one, by the bytes still to come and without overlong forms; an inverse class those that can become a character, but none of the listed ones. |
| `Rejector.AdvanceLeavesSome` | src/whisper.cpp:5619-5670 | Advancing never loses all stacks. |
| `Rejector.RejectsExactly` | src/whisper.cpp:5709-5774 | For nonempty stacks a candidate is rejected exactly when accepting it one code point at a time leaves nothing, as often as it was offered and at its original code point. |
| `GrammarTokens.Engine.AcceptToken` | src/whisper.cpp:5860-5882 | A token feeds its decoded characters to the stacks and keeps the unfinished one; one that begins with "[_" changes nothing. |
| `GrammarTokens.Engine.SuppressInvalid` | src/whisper.cpp:5816-5858 | Exactly the tokens with a text that would not survive lose the penalty, once each; a token with a byte that cannot stand where it does always loses it. |
| `GrammarTokens.InvalidLoses` | src/whisper.cpp:5476-5514 | A token whose bytes are invalid after the unfinished character survives on no stacks, whatever follows in it. |
| `GrammarTokens.UnpenalisedIsAcceptable` | src/whisper.cpp:5816-5882 | A token of whole characters goes unpenalised exactly when accepting it would leave a stack. |
| `GrammarTokens.SplitAnywhere` | src/whisper.cpp:5860-5882 | Text cut into tokens at any bytes leaves the stacks of its characters. |
| `GrammarTokens.TokensSpell` | src/whisper.cpp:5776-5882 | From the start, tokens that spell a text leave exactly its continuations in the language. |
| `Fft.DftSplits` | src/whisper.cpp:3038-3054 | The plain sum is the sum over even terms plus the turned sum over odd terms. |
| `Fft.Butterfly` | src/whisper.cpp:3087-3101 | Both halves of a transform follow from the transforms of the even and odd inputs. |
| `Fft.Naive` | src/whisper.cpp:3038-3054 | The double loop computes the plain sum for every frequency. |
| `Fft.CombineAt` | src/whisper.cpp:3087-3101 | One round of the combining loop writes two values and leaves all others. |
| `Fft.Fft` | src/whisper.cpp:3060-3102 | For every N that divides the table size the result is the plain sum; inputs and everything outside N input and 6N output slots behind them stay as they were. |
| `Dtw.MovesStayInside` | src/whisper.cpp:8692-8715 | Inner cells are finite, and no move from one leaves the matrix before the first cell. |
| `Dtw.PathToIsPath` | src/whisper.cpp:8726-8745 | The path followed is monotone by unit steps, has at most N + M - 1 cells, and costs what the table says. |
| `Dtw.CheapestBelow` | src/whisper.cpp:8692-8715 | Without such a tie no path to a cell is cheaper than the table says. |
| `Dtw.OptimalIffNoTie` | src/whisper.cpp:8700-8709 | All cells are optimal exactly when none ties its diagonal and upper predecessors strictly below the left one. |
| `Dtw.TieCanMissTheCheapest` | src/whisper.cpp:8700-8709 | A concrete matrix with a path that is cheaper than the table's value. |
| `Dtw.Follow` | src/whisper.cpp:8726-8758 | The backtrace ends, stays inside its rows, and returns the path in order. |
| `Dtw.DtwAndBacktrace` | src/whisper.cpp:8677-8761 | The result is a path from the first to the last cell, as cheap as the table says, and cheapest when no cell ties. |
| `Vad.Detect` | src/whisper.cpp:5242-5323 | Raw segments are ordered, disjoint, inside the audio, begin with likely speech and exceed the maximum by at most a window. Each ends at the end of the audio, where a silence begins that lasts the minimum, or, having become too long, at the beginning of the last silence of more than 98 ms, or right there when there is none; and no silence long enough to end it lies within. All likely speech is in one, or in a stretch that is too short and followed by silence. |
| `Vad.Split` | src/whisper.cpp:5269-5290 | A segment that is too long ends at the beginning of the last silence of more than 98 ms, or here, and what follows stays sound. |
| `Vad.MergedIs` | src/whisper.cpp:5325-5344 | Merging keeps the order, joins neighbours across gaps of less than 200 ms and nothing else, leaves no such gap, and loses nothing. |
| `Vad.Merge` | src/whisper.cpp:5325-5344 | The loop that erases in place computes the merge. |
| `Vad.LongEnoughIs` | src/whisper.cpp:5346-5355 | Exactly the segments that are long enough stay. |
| `Vad.RemoveShort` | src/whisper.cpp:5346-5355 | The loop that erases in place computes that selection. |
| `Vad.PadSegments` | src/whisper.cpp:5370-5411 | Padded segments stay ordered, disjoint and inside the audio: the first start and the last end move by the padding as far as there is audio, and so do both sides of a gap with room for it; in a shorter gap each side gets half. |
| `Vad.SegmentsFromProbs` | src/whisper.cpp:5188-5419 | Final segments are the scan's findings, merged, without the short ones, and padded; they are ordered, disjoint, inside the audio and long enough, also in order as centiseconds; every window of likely speech is in one, in a dropped stretch, or in a merged segment that was too short. |
| `TimeMap.LineRises` | src/whisper.cpp:7941-7950 | Integer interpolation between two points never falls. |
| `TimeMap.PointsAre` | src/whisper.cpp:6707-6735 | The points of a copied segment are its two ends and, when it is longer than a second, those at every 200 ms with at least 200 ms behind them, at the whole part of the line between the ends. |
| `TimeMap.PointsOnSegment` | src/whisper.cpp:6707-6735 | The points of a copied segment lie on its line, in order between its two ends. |
| `TimeMap.SegmentPoints` | src/whisper.cpp:6707-6735 | A copied segment contributes exactly its two ends and a point every 200 ms along one line. |
| `TimeMap.CollectPoints` | src/whisper.cpp:6686-6763 | Exactly the segments with samples are copied, in order, the first at the front and each later one 100 ms behind the one before, up to their end with the overlap; exactly those contribute points, each its ends, its 200 ms points and the ends of the pause after it. |
| `TimeMap.PointsAgree` | src/whisper.cpp:6686-6763 | From ordered segments, later processed times have later or equal original times. |
| `TimeMap.Unique` | src/whisper.cpp:6771-6779 | One point per processed time is left, and the table then rises strictly. |
| `TimeMap.BuildTable` | src/whisper.cpp:6686-6779 | The table rises strictly in processed and never falls in original time, whatever order equal keys are sorted in; it holds only points that the copied segments contribute, and one for every processed time among them. |
| `TimeMap.LowerBound` | src/whisper.cpp:7927-7931 | The binary search finds the first entry at or after the time. |
| `TimeMap.Map` | src/whisper.cpp:7912-7951 | The lookup computes the interpolation: the first or last original time outside the table, and between two neighbouring entries the whole part of the line through them. |
| `TimeMap.MappedExact` | src/whisper.cpp:7933-7936 | The map is exact at table points. |
| `TimeMap.MappedBounded` | src/whisper.cpp:7917-7923 | Results lie between the first and the last original time. |
| `TimeMap.MappedMonotone` | src/whisper.cpp:7912-7951 | Later processed times never map to earlier original times. |
| `TimeMap.MapsIntoSegment` | src/whisper.cpp:6686-6779 | Where no two collected points of equal processed time disagree, every time inside a copied segment maps into that segment's original range, and its ends to its ends. |
| `TimeMap.LongCopiesAgree` | src/whisper.cpp:6695-6763 | No two points disagree when the stretch of every segment has at least 160 samples, one centisecond. |
| `TimeMap.SkippedSegmentDisagrees` | src/whisper.cpp:6695-6763 | Three segments of which the middle one has no samples and is not copied: the pauses before it and the copy after it give one processed time two original times. |
| `Training.OnePeriod` | ggml/src/ggml-opt.cpp:724-835 | A whole period from zeroed accumulators ends in one step that sees exactly its gradients. |
| `Training.TrainGroups` | ggml/src/ggml-opt.cpp:724-835 | Training in whole periods takes one step per period, each over consecutive batches at its own parameters. |
| `Training.ValidateKeeps` | ggml/src/ggml-opt.cpp:724-835 | Validation takes no step, changes no count of steps, and leaves zeroed accumulators, but advances the batch counter. |
| `Training.EpochStaysInStep` | ggml/src/ggml-opt.cpp:724-835 | From a start in step, the next epoch starts in step exactly when training and validation batches are both multiples of the period. |
| `Training.NextStepSees` | ggml/src/ggml-opt.cpp:724-835 | After any epoch the next step comes when the counter completes a period, and sees the leftover gradients of that epoch and the new ones together. |
| `Training.ThreeGradientsInOneStep` | ggml/src/ggml-opt.cpp:724-835 | With a period of 2, one training and one validation batch, the next step sees three gradients. |
| `Training.StepAcrossEpochs` | ggml/src/ggml-opt.cpp:724-835 | With a period of 2, one training and two validation batches, the next step mixes gradients of two epochs. |
| `Training.Optimizer.Alloc` | ggml/src/ggml-opt.cpp:724-779 | Resets accumulators and chooses the graph as the state function says. |
| `Training.Optimizer.Eval` | ggml/src/ggml-opt.cpp:781-835 | Accumulates, steps and counts as the state function says. |
| `Training.Dataset.Shuffle` | ggml/src/ggml-opt.cpp:150-161 | The first shards are permuted among themselves, the rest stays. |
| `Training.Dataset.GetBatch` | ggml/src/ggml-opt.cpp:163-194 | A batch is its stretch of the permutation. |
| `Training.BatchesVisit` | ggml/src/ggml-opt.cpp:163-194 | Consecutive batches visit consecutive stretches of the permutation, each shard once. |
| `Training.Epoch` | ggml/src/ggml-opt.cpp:880-923 | The shards evaluated in an epoch are the permutation, in order, once; it trains on the first part and validates on the rest. |
| `Training.Fit` | ggml/src/ggml-opt.cpp:998-1064 | As many whole periods are trained on as the share `1 - val_split` of the logical batches holds. Step k of epoch e is number e times that plus k; it sees `opt_period` gradients, of consecutive stretches of the epoch's order, at the parameters that all steps before it made. The shards evaluated are one permutation of all shards per epoch, and the training shards are the same in all epochs. |

## Left out

- Tensor kernels, graph builders, backends, schedulers and device code: what they compute is a parameter.
- Model loading, converters, bindings, logging, timings, progress bars, callbacks and printing: input and output.
- IEEE rounding, infinities and NaN: reals are used, and the DTW table has one explicit infinity.
- Planner.Gallocr.AllocGraphImpl: the planner runs on allocator values; `DynTallocr` proves the array code equal to these, but the two are not joined in one object.
- Planner.Gallocr.AllocGraphImpl: the planner's entries are a sequence with one entry per tensor; `NodeTable` proves that the hash table and its value array are such a sequence, but the planner does not run on them.
- DynTallocr.ChunkBuffer.RemoveBlock: needs fewer blocks than the array holds, because the shift reads one slot past the last block; on a full array the modelled callers report failure instead.
- DynTallocr.Allocator.AllocTensor: requests whose padded size exceeds half the address range are excluded, as in `Arena`.
- Arena: requests above half the address range are reported as failures, because their padding and the reuse factor would wrap around; the debug-only bookkeeping of allocated tensors is not modelled.
- Reserve.GraphAllocator.Replay: leafs that no node reads and that have grown, but not past their chunk, get their recorded address and nothing is claimed about overlaps; a real chunk has exactly the size asked for; a view that brings no memory is initialised by its base, which is not modelled.
- Reserve.GraphAllocator.AllocGraph: an empty graph on an allocator that was never reserved, which has nothing to place, is outside; a failed reservation leaves no claim about the plan.
- Reserve.ReplayIsSafe: the later graph has the same operations, wiring and flags, as the source's callers arrange; the test itself does not check this.
- HashSet.Table.FindOrInsert: keys are numbers that stand for tensor addresses.
- Transcribe.Full: parameters that leave no temperature to try are excluded, because the loop then need not end; the limit 1.0f + 1e-6f is the real number 1.000001.
- Transcribe.Full: log probabilities, entropies, the choice of tokens, no-speech and fallback decisions are parameters; the text of segments, their timestamps and callbacks are not modelled, nor is the language detection.
- Transcribe.RunRound: threads that process decoders in parallel are a loop, and every window starts from a fresh cache, where the source clears the one it has; its size follows the largest number of decoders so far, which `State.nDec` keeps between windows and runs.
- Transcribe.RunRound: with beam search at least one candidate per decoder is assumed (`Sampler.Ok`); with a beam size of zero the source indexes an empty list of candidates (src/whisper.cpp:7290).
- DecodeWindow.Window.NextBatch: over-allocation against fragmentation is a heuristic, so nothing says that several decoders find a run of cells; the only failure of a model run is a missing slot.
- Grammar.StacksAreContinuations: the grammar must come with a rank that excludes left recursion, also through definitions that can be empty; a left-recursive rule that advancing reaches would keep the source from ending, and one that is never reached is excluded as well.
- Grammar.AdvanceKeepsTexts: stacks hold (rule, index) pairs for the source's element pointers; a malformed element order is excluded by well-formedness, as the source's assertion does.
- Rejector.MatchPartialChar: unfinished values are unbounded integers; the source's 32-bit shifts agree on every value that decoding can leave.
- Utf8.EncodeAllFeeds: a C string is its bytes before the terminating zero, so text with embedded zeros is outside.
- Fft.Fft: the table of sines and cosines is any table with the addition law and a half turn at its middle; the mel filter bank around the transform is not modelled.
- Vad.SegmentsFromProbs: probabilities are given, and 32-bit overflow of sample counts is not modelled.
- TimeMap.CollectPoints: the copied samples are not modelled, because the two loops that size and fill the buffer clip differently; the sort is any sort by processed time.
- Training.Fit: gradients are named by their batch and step rather than computed; results, losses and callbacks are not modelled, nor are dynamically built graphs, which the epoch loop refuses.
- Token-level timestamp heuristics, voice-length scoring, the language table and default parameters: no crisp promise to prove, or easy members.
