# Verified model of the browser LLM runtime

This project models five cores of the repository and proves what they promise, for all inputs, runs and interleavings.

**MUL_MAT_ID on WebGPU** (`Moe*.dfy`). The gather kernel is a transition system of threads, an atomic counter and barriers, and also a
method on buffers with an adversarial scheduler. The main kernel is a method per stage between two barriers (loading, staging,
multiplying) in which the threads' loops take turns in any order; a workgroup has no access to another one's memory, and the stores of
all threads of all workgroups reach the output in any order. Arithmetic is over the reals; tile sizes are symbolic and positive.
`MoeKernel.MulMatId` is the whole: it equals the naive per-token product, which `MoeResult` writes out in buffer cells. The routing must name valid experts, distinct within each token.
Two remarks: with two alignment steps of slack a concrete layout would overrun its allocation (`MoeScratch.ThirdStepIsNeeded`), and an
expert without pairs takes up no workgroup ids (`MoeDispatch.IdleExpertIsFree`).

**The harness PeerManager** (`Peer*.dfy`). `PeerModel` is one node as a state machine on values, `PeerManager` the object that refines it.
`PeerInvariant`, `PeerAccept`, `PeerStreams` and `PeerCallbacks` prove what every run of one node keeps, and `PeerFrames` what can be seen
of each operation from outside and that a close is heard; `PeerBus` puts two nodes on a bus
that keeps each sender's order, and `PeerBusExact` proves when exactly the connector's streams stay apart. `PeerBusBack` and `PeerBusTurns`
do both for the acceptor's answers.

**The Runtime adapter** (`VirtualFile`, `VirtualFileUse`, `RemoteFile`, `Preload`, `Lifecycle`, `LifecyclePrompts`, `Requester`). The on-demand model file, the downloader that
fills its cache, and the life of prompts, generations and stops.

**The GGUF header reader** (`Gguf*.dfy`, `ByteSource`, `RangeServer`, `RangeSyntax`). `GgufFormat` says what reading the whole file gives,
`GgufBytes` the same byte by byte in the format's own numbers, `GgufReader`
is the cursor over a growing source, `ByteSource` the HTTP and file sources, and `RangeServer` the server they talk to (section 14.1.2 of
RFC 9110).

**The observers** (`StatsMerge`, `CandidateMatch`, `BackendOps`, `BackendOpsLedger`, `BackendOpsSummary`). The statistics merger and the fail-closed judge.

Objects that the source updates in place are classes here; each of their methods is proved to take the state one step of a specification
on values, and the lemmas are about that specification. What networks, caches, schedulers and clocks do is arbitrary within the contracts
stated at their methods. `Arith` and `Option` are helpers.

Where the code and its surroundings disagree, the model follows the code:

- A whole (status 200) reply without a Content-Length makes the header probe believe that the file is empty
  (`scripts/probe-gguf-header.mjs:99-100`), so a header longer than the first read is lost. `ByteSource.HttpSource.Ensure` states exactly
  when an end is given, `GgufReader.ProbeStream` when a header is found, and `ByteSource.StreamWithoutLengthIsCutShort` is the failing case.
- `MAX_READ` limits the end asked for, not the amount fetched (`scripts/probe-gguf-header.mjs:68-72`); the bound proved on what is fetched
  comes from the doubling.
- A backwards range such as `bytes=5-3` is answered with 416 (`scripts/serve-runtime.py:77-78`), where RFC 9110 lets a recipient ignore it.
- A body longer than the announced size still serves every chunk exactly when the size is a multiple of the block size
  (`Preload.PreloadServesExactly`).
- Frames name no connection, so streams of different connections mix once the acceptor has dropped a connect frame for want of a number
  (`harness/runtime-only/harness-peer-manager.js:154-156`). `PeerBusExact.FreeNumbersDecide` shows that this condition is exact,
  `PeerBus.StreamsMixWithoutNumbers` is such a run. In the other direction answers mix exactly when the two do not take turns
  (`PeerBusTurns.TurnsDecide`).

Verify the whole project with `dafny verify dfyconfig.toml`.

## Model

| member | source | states |
|---|---|---|
| MoeGather.EveryScheduleGathers | patches/0004-ggml-webgpu-mul-mat-id.patch:698-731 | For every schedule of the threads' atomic actions: it is finitely long, never stuck before the end, and ends with each expert's region holding each of its (slot, token) pairs exactly once and counts that sum to the number of pairs |
| MoeGather.StoresStayInRegion | patches/0004-ggml-webgpu-mul-mat-id.patch:718-722 | In every schedule, every store of a gathered index falls inside the storing expert's own region |
| MoeGather.RegionNeverSpills | patches/0004-ggml-webgpu-mul-mat-id.patch:717-722 | With ids distinct per token, an expert gathers at most one pair per token, so at most `n_tokens` in all |
| MoeGather.SomeThreadCanMove | patches/0004-ggml-webgpu-mul-mat-id.patch:706-730 | The barriers never deadlock: until every thread is done, some thread can take an action |
| MoeGather.StepKeeps | patches/0004-ggml-webgpu-mul-mat-id.patch:698-731 | Every atomic action of every thread keeps the invariant of every expert's region, the acting workgroup's and all others |
| MoeGather.TallySums | patches/0004-ggml-webgpu-mul-mat-id.patch:713-728 | Counting pairs per expert over any prefix of the scan gives counts that sum to the length of the prefix |
| MoeGather.GatherLaunch | patches/0004-ggml-webgpu-mul-mat-id.patch:301-303 | The two-dimensional launch stays within the device limit, has a workgroup for every expert, and wastes less than one row of them |
| MoeGather.Gather | patches/0004-ggml-webgpu-mul-mat-id.patch:698-731 | The gather kernel on its three buffers, with an adversarial scheduler: it terminates, and the buffers then describe the routing |
| MoeDispatch.TilesHaveOwnIds | patches/0004-ggml-webgpu-mul-mat-id.patch:574-598 | No two tiles share a linear workgroup id |
| MoeDispatch.TileOfId | patches/0004-ggml-webgpu-mul-mat-id.patch:574-598 | Every id below the total is the id of a tile: the numbering has no holes |
| MoeDispatch.FindExpert | patches/0004-ggml-webgpu-mul-mat-id.patch:568-583 | The prefix-sum search returns the expert whose stretch of ids holds the id, or the sentinel exactly for ids past all stretches |
| MoeDispatch.FindTile | patches/0004-ggml-webgpu-mul-mat-id.patch:568-598 | Search and decoding return exactly the tile whose id it is, or the sentinel |
| MoeDispatch.SplitCost | patches/0004-ggml-webgpu-mul-mat-id.patch:363-369 | Splitting pairs over experts costs at most one partly filled column tile per active expert |
| MoeDispatch.HostLaunchesEveryTile | patches/0004-ggml-webgpu-mul-mat-id.patch:363-369 | For every count vector that sums to the number of pairs, the bound computed before the counts are known is never below the number of tiles |
| MoeDispatch.HostWastesLittle | patches/0004-ggml-webgpu-mul-mat-id.patch:363-369 | For every such count vector, that bound exceeds the number of tiles by at most one column of tiles per expert that may be active |
| MoeScratch.ScratchFits | patches/0004-ggml-webgpu-mul-mat-id.patch:263-297 | For all sizes and all power-of-two alignments that are multiples of the binding granularity, the three scratch spans are aligned, follow the output and each other without overlap, and end inside the size reported by lines 399-412, which is at most three alignment steps and three bytes more than they take |
| MoeScratch.RoundUpIsLeast | patches/0004-ggml-webgpu-mul-mat-id.patch:266-277 | Rounding up gives the least aligned value, so the layout wastes less than one step each time |
| MoeMatmul.EveryCellHasATile | patches/0004-ggml-webgpu-mul-mat-id.patch:653-669 | Every output cell is a cell of some tile |
| MoeMatmul.NoCellHasTwoTiles | patches/0004-ggml-webgpu-mul-mat-id.patch:653-669 | No output cell is a cell of two tiles, or of one tile twice |
| MoeMatmul.EachCellHasOneWriter | patches/0004-ggml-webgpu-mul-mat-id.patch:653-669 | Each output cell is stored by exactly one workgroup id below the total, one thread and one accumulator |
| MoeMatmul.GatheredIds | patches/0004-ggml-webgpu-mul-mat-id.patch:716-722 | What the gather kernel leaves behind is what the main kernel needs: ids in range, routed to the expert of the region, and each pair in one place |
| MoeThreads.TurnTakesOne | patches/0004-ggml-webgpu-mul-mat-id.patch:601-606 | However threads that stride by their number take turns, each turn takes exactly one index that no thread had taken and skips none |
| MoeKernel.StagedWeight | patches/0004-ggml-webgpu-mul-mat-id.patch:623 | An iteration of the weight loop gives the cell of the zero-padded weight tile |
| MoeKernel.StagedActivation | patches/0004-ggml-webgpu-mul-mat-id.patch:537-557 | An iteration of the activation loop gives the cell of the zero-padded activation tile, found through the gathered lists |
| MoeKernel.Stage | patches/0004-ggml-webgpu-mul-mat-id.patch:622-627 | However the threads take turns between two barriers, each in either of its two strided loops, both padded tiles are complete at the barrier |
| MoeKernel.LoadGathered | patches/0004-ggml-webgpu-mul-mat-id.patch:601-609 | However the threads take turns, store by store, at the barrier the shared lists hold the tile's slice of the expert's list |
| MoeKernel.InnerStepContinuesDot | patches/0004-ggml-webgpu-mul-mat-id.patch:632-647 | An inner step over the staged tiles continues the dot products of all cells of a thread where its previous step stopped |
| MoeKernel.Multiply | patches/0004-ggml-webgpu-mul-mat-id.patch:629-651 | However far threads run ahead of each other, at the next barrier every accumulator of an existing cell holds the next prefix of its dot product |
| MoeKernel.StoreCell | patches/0004-ggml-webgpu-mul-mat-id.patch:653-669 | A store of a thread leaves the naive product in its cell, if the tile has that cell, and keeps every other cell of the buffer |
| MoeKernel.Accumulate | patches/0004-ggml-webgpu-mul-mat-id.patch:599-651 | A workgroup that has a tile comes to its stores with its slice of the list and, in every thread, the whole dot products |
| MoeKernel.RunWorkgroup | patches/0004-ggml-webgpu-mul-mat-id.patch:560-651 | A workgroup id gets its own tile and whole dot products, or nothing to do exactly when it is past the last tile |
| MoeKernel.StoreWrites | patches/0004-ggml-webgpu-mul-mat-id.patch:653-669 | No store of any thread of any workgroup destroys another one |
| MoeKernel.Launch | patches/0004-ggml-webgpu-mul-mat-id.patch:560-670 | With the stores of all threads of all workgroups in any order and at least as many workgroups as tiles, the whole output is the naive product and nothing else changed |
| MoeKernel.MulMatId | patches/0004-ggml-webgpu-mul-mat-id.patch:226-380 | Gather, then the tiled product with at least the host's number of workgroups: for every shape, routing and schedule of the threads of both kernels, each output cell is the naive product and nothing else changed; written out (`MoeResult.CellIs`), the cell of a token and a slot that is number `lane` in its turn through the activation rows is the inner product of row `lane` of the token's activations and the weight row of the expert the routing names |
| MoeResult.NaiveIsProduct | patches/0004-ggml-webgpu-mul-mat-id.patch:537-557 | A buffer with the naive product in every output cell holds, at the offsets and strides of the parameters, inner products of stretches of the two operands; slots that differ by a multiple of the number of activation rows use the same row |
| PeerModel.NewFdIsFirstFree | harness/runtime-only/harness-peer-manager.js:73-86 | The scan hands out the cyclically first free number, and fails exactly when all numbers are reserved |
| PeerInvariant.StepKeeps | harness/runtime-only/harness-peer-manager.js:102-333 | Every call and every frame keeps: `byRemote` in bijection with the live connections, ready numbers distinct and live, ready list or waiter list empty, queues counted exactly, opens and closes balanced |
| PeerInvariant.RunKeeps | harness/runtime-only/harness-peer-manager.js:102-333 | So every reachable state satisfies that invariant |
| PeerInvariant.FdLedger | harness/runtime-only/harness-peer-manager.js:73-86 | For every run, opens exceed closes by one while a number is reserved and by nothing otherwise, and the next number handed out is a free one |
| PeerInvariant.OpensOnlyFreeNumbers | harness/runtime-only/harness-peer-manager.js:73-86 | A number is opened only while it is not reserved, and then exactly once |
| PeerInvariant.LivesExactly | harness/runtime-only/harness-peer-manager.js:102-333 | After every operation, alive is exactly what was alive and is not replaced, closed or tombstoned by it, plus the connection it opens |
| PeerInvariant.AcceptTakesFirst | harness/runtime-only/harness-peer-manager.js:215-222 | `accept` never has to skip a ready connection: it takes the first one, or waits |
| PeerInvariant.HandOverNeverFails | harness/runtime-only/harness-peer-manager.js:154-164 | The branch that puts a waiter back is never taken |
| PeerInvariant.TombstoneAllKeeps | harness/runtime-only/harness-peer-manager.js:326-333 | Tombstoning a list of connections keeps the invariant, releases no number, and leaves none of them alive |
| PeerInvariant.DrainFacts | harness/runtime-only/harness-peer-manager.js:252-266 | A read takes a prefix of the queued bytes: as many as asked for or as there are, and the rest stays in order |
| PeerManager.Manager.NextFd | harness/runtime-only/harness-peer-manager.js:77-86 | The loop over fields computes the scan |
| PeerManager.Manager.Kill | harness/runtime-only/harness-peer-manager.js:102-121 | Tombstoning, field by field, is the tombstone step |
| PeerManager.Manager.OnMessage | harness/runtime-only/harness-peer-manager.js:176-201 | Dispatching a frame takes the state one frame step and keeps it valid |
| PeerManager.Manager.Connect | harness/runtime-only/harness-peer-manager.js:204-213 | `connect` takes the state one step and keeps it valid |
| PeerManager.Manager.Accept | harness/runtime-only/harness-peer-manager.js:215-222 | `accept`, with its loop, takes the state one step and keeps it valid |
| PeerManager.Manager.Send | harness/runtime-only/harness-peer-manager.js:227-244 | `send` takes the state one step and returns how much it took, or -1 |
| PeerManager.Manager.Recv | harness/runtime-only/harness-peer-manager.js:246-282 | `recv`, with its draining loop, takes the state one step |
| PeerManager.Manager.CloseConnection | harness/runtime-only/harness-peer-manager.js:287-302 | `close_connection` takes the state one step and returns 0, or -1 for an unknown number |
| PeerManager.Manager.Close | harness/runtime-only/harness-peer-manager.js:326-333 | `close` takes the state one step: everything tombstoned, nothing released, waiters kept |
| PeerFrames.ConnectSays | harness/runtime-only/harness-peer-manager.js:204-213 | `connect`, seen from outside: -1 at once without a free number; otherwise what the previous connection to that remote owed is settled, and one connect frame goes to the remote |
| PeerFrames.AcceptSays | harness/runtime-only/harness-peer-manager.js:215-222 | `accept`: one accepted frame to the first ready connection's remote, whose number the caller gets, or nothing |
| PeerFrames.SendSays | harness/runtime-only/harness-peer-manager.js:227-244 | `send`: one data frame with the first 262144 bytes or all of fewer, and how many, or -1, or 0 |
| PeerFrames.RecvSays | harness/runtime-only/harness-peer-manager.js:246-282 | `recv`: false without a live connection, the front of what is queued and then success, or a parked reader |
| PeerFrames.CloseSays | harness/runtime-only/harness-peer-manager.js:287-302 | `close_connection`: one close frame to a live connection's remote, then what it owed is settled; a dead or unknown number is silent |
| PeerFrames.CloseAllSays | harness/runtime-only/harness-peer-manager.js:326-333 | `close`: nothing is posted, nobody hears of success, every number stays reserved and dead, and waiting accepts stay |
| PeerFrames.ConnectFrameSays | harness/runtime-only/harness-peer-manager.js:154-164 | A connect frame: nothing without a free number; otherwise the previous connection is settled, and a waiting accept gets the first free number, of which the sender is told by one accepted frame |
| PeerFrames.FrameSays | harness/runtime-only/harness-peer-manager.js:166-201 | The other frames: accepted tells the connector that waits its number once, data goes to the parked reader or behind the queue, close ends the live connection and settles what it owed |
| PeerFrames.CloseIsHeard | harness/runtime-only/harness-peer-manager.js:190-193 | On the bus, whatever happens after the connector has closed a live connection: once the frames that were under way are delivered, the next one is the close, and after it nothing of the acceptor's is alive and what was parked has been called |
| PeerFrames.CloseIsHeardBack | harness/runtime-only/harness-peer-manager.js:190-193 | The same with the acceptor closing |
| PeerAccept.StepPairs | harness/runtime-only/harness-peer-manager.js:145-164 | Every operation keeps the pairing of accept calls with incoming connections |
| PeerAccept.AcceptsPairInOrder | harness/runtime-only/harness-peer-manager.js:145-222 | For every run: the k-th completed accept is the k-th accept call and got the k-th incoming connection that did not die waiting; the others still wait, in order |
| PeerStreams.StepStreams | harness/runtime-only/harness-peer-manager.js:166-282 | Every operation keeps, per connection, read bytes plus queued bytes equal to the bytes that arrived |
| PeerStreams.NothingIsLost | harness/runtime-only/harness-peer-manager.js:166-282 | For every run and connection: read is a prefix of arrived, the difference is queued in order and counted exactly while it lives, and a parked read means a live connection with an empty queue |
| PeerStreams.SendTakes | harness/runtime-only/harness-peer-manager.js:227-244 | `send` takes all of a short piece and one full chunk of a long one, never nothing of something, and posts exactly that |
| PeerStreams.SuccessMeansBytes | harness/runtime-only/harness-peer-manager.js:246-282 | A reader is told of success exactly when bytes were copied to it; success never means an empty read |
| PeerStreams.ConnectTellsTruth | harness/runtime-only/harness-peer-manager.js:182-213 | A connector is told its number only when the accept for its live connection arrives, and -1 otherwise |
| PeerCallbacks.StepBalance | harness/runtime-only/harness-peer-manager.js:102-282 | One operation calls or parks exactly the callbacks that were parked and the one it was passed |
| PeerCallbacks.EveryCallbackIsSettledOnce | harness/runtime-only/harness-peer-manager.js:102-282 | For every run without a second `recv` on a parked connection: a callback passed in once is called at most once, and not yet exactly while it is parked on the very connection it was passed for, which is then alive |
| PeerBus.ConnectorStep | harness/runtime-only/harness-peer-manager.js:204-244 | What the connector posts splits, at its connect frames, into what `send` took on each of its connections |
| PeerBus.AcceptorStep | harness/runtime-only/harness-peer-manager.js:154-174 | What the acceptor received on a connection is a prefix of the run of data between two connect frames |
| PeerBus.BusStep | harness/runtime-only/harness-peer-manager.js:123-282 | Every move of two managers and two ordered channels keeps both facts and the order of the channel |
| PeerBus.StreamsStayApart | harness/runtime-only/harness-peer-manager.js:123-282 | In every interleaving in which the acceptor has a free number for each connect, what it reads on its k-th connection is a prefix of what `send` took on the connector's k-th posted connection |
| PeerBus.StreamsMixWithoutNumbers | harness/runtime-only/harness-peer-manager.js:154-174 | The input: a run in which the acceptor is out of numbers, and bytes of the second connection are read on the first |
| PeerBusExact.LossyStep | harness/runtime-only/harness-peer-manager.js:123-282 | Every possible move, fair or not, keeps the count of connect frames dropped for want of a number, and raises it exactly when the acceptor has none |
| PeerBusExact.FreeNumbersDecide | harness/runtime-only/harness-peer-manager.js:154-174 | For every run of an acceptor with numbers at all: it had a free number for each connect if and only if the streams stay apart in every continuation that drops no further connect |
| PeerBusExact.NoNumbersNoStreams | harness/runtime-only/harness-peer-manager.js:73-86 | An acceptor without any number never has a connection, so nothing can mix |
| PeerBusBack.BackStep | harness/runtime-only/harness-peer-manager.js:123-302 | Every move in turn keeps: what the connector received is a prefix of what was sent to it, connection by connection; nothing is on its way to a connection ahead of its connect, and all of the rest is on its way to one that has its partner, unless a close is in between |
| PeerBusBack.AnswersStayApart | harness/runtime-only/harness-peer-manager.js:123-302 | When the acceptor has its numbers and both take turns (no connect while data would reach the new connection, no answer that would overtake a connect), what the connector reads on its k-th posted connection is a prefix of what `send` took on the acceptor's k-th |
| PeerBusTurns.OutOfTurn | harness/runtime-only/harness-peer-manager.js:123-302 | A move out of turn puts data on its way to a connection whose connect the acceptor has not taken |
| PeerBusTurns.TurnsDecide | harness/runtime-only/harness-peer-manager.js:123-302 | For every run in turn and every next move: the move is in turn if and only if the answers stay apart in every continuation in turn |
| VirtualFile.StepKeeps | runtime/llmlet-runtime.js:192-268 | Every read, cache answer and range reply keeps: loaded chunks hold the file's bytes, and every load under way owns an entry that is still empty; no reply finds its entry gone, and only a failed request fails the file |
| VirtualFile.ReadIsExact | runtime/llmlet-runtime.js:192-229 | A read that succeeds returns the file's bytes at its position, as many as asked for or as the chunk has left |
| VirtualFile.EveryReadIsExact | runtime/llmlet-runtime.js:192-268 | After any interleaving of reads, cache answers, range replies and evictions, a successful read returns exactly the file's bytes, at least one of them |
| VirtualFile.TableStaysSmall | runtime/llmlet-runtime.js:215-227 | A reader that retries until it succeeds never has more than six entries in the table |
| VirtualFileUse.EvictsLeastRecentlyUsed | runtime/llmlet-runtime.js:211-227 | Over every run: entries leave the table one at a time, only at a read that copies with more than five of them, and the one that leaves is loaded and was last used before all other loaded ones |
| VirtualFileUse.KeysAre | runtime/llmlet-runtime.js:199-232 | Chunks are 100,000,000 bytes, the last one what is left, and are named by their first byte and the byte behind their last |
| VirtualFileUse.LoadsGoOn | runtime/llmlet-runtime.js:231-257 | A first read asks the cache, a miss asks the server, a reply fills the entry and, when it can be stored, the cache under the chunk's key; a failed request fails the file |
| RemoteFile.Node.Read | runtime/llmlet-runtime.js:192-268 | The read callback copies into the caller's buffer what the specification says, changes nothing else in it, and throws errno 6 or 28 otherwise |
| RemoteFile.Node.Evict | runtime/llmlet-runtime.js:215-227 | The eviction loop removes exactly the loaded entry used longest ago, the lowest number among equals |
| RemoteFile.Node.OnCacheReply | runtime/llmlet-runtime.js:234-242 | A cache answer fills the entry or starts the range request |
| RemoteFile.Node.OnFetchReply | runtime/llmlet-runtime.js:244-257 | A range reply fills the entry, stores the chunk if it can, or marks the file failed |
| RemoteFile.ReadAll | runtime/llmlet-runtime.js:192-268 | Whatever the cache holds, a reader that retries ends with the whole file and at most six table entries |
| Preload.FetchWholeModelToCache | runtime/llmlet-runtime.js:288-325 | However the body is split into pieces, exactly its blocks are stored |
| Preload.PreloadedNames | runtime/llmlet-runtime.js:303-321 | A block is stored under a name exactly when it starts at a multiple of the block size inside the body and ends a block later or at the body's end, and it holds those bytes |
| Preload.PreloadServesExactly | runtime/llmlet-runtime.js:232 | Every key the reader computes for a size is stored if and only if the body had that length, or was longer and the size is a multiple of the block size |
| Preload.NoUnexpectedMiss | runtime/llmlet-runtime.js:379-382 | With a body equal to the file and a cache that answers truthfully, no run ever reaches a range request and no read fails: the throw is unreachable |
| Lifecycle.StepKeeps | runtime/llmlet-runtime.js:659-838 | Every hook and every call keeps the lifecycle invariant |
| Lifecycle.GenerationsAreSettled | runtime/llmlet-runtime.js:659-838 | For every run: at most one generation runs and it is the active one, each promise is settled at most once, a cancel flag means a running generation or a stop, a generation still running under a stop is told to cancel, and none is unsettled once `stop` has returned or the Runtime has exited |
| Lifecycle.PromptsAreAnsweredOnce | runtime/llmlet-runtime.js:716-738 | For every run: a prompt callback is called at most as often as it was handed over, with the empty text exactly when a stop had been requested, and none is left waiting then |
| Lifecycle.OnlyPromptsResolve | runtime/llmlet-runtime.js:716-738 | A generation resolves only when the Runtime asks for a prompt and no stop is pending, and then it does |
| Lifecycle.SettledStays | runtime/llmlet-runtime.js:29-39 | A settled promise keeps its outcome for the rest of every run |
| LifecyclePrompts.PromptsReachTheRuntime | runtime/llmlet-runtime.js:688-738 | For every run: the texts the Runtime gets, other than the empty one, are as many as calls that started, and the k-th is the prompt the k-th of them was called with, by the only call of that name; it holds something and is shorter than the context |
| LifecyclePrompts.StepDelivers | runtime/llmlet-runtime.js:716-738 | A step delivers the empty text to the callback at hand when stopping, the prompt of the call it starts to the callback that waits, or nothing |
| LifecyclePrompts.CancelIsAsked | runtime/llmlet-runtime.js:813-815 | While no stop is requested, the Runtime sees a cancel exactly when the caller has cancelled since the running call was resumed |
| LifecyclePrompts.PromisesTell | runtime/llmlet-runtime.js:679-772 | Which event settles `ready` and `exited`, and how; when the module starts or is refused, and when the Runtime counts as stopped |
| Requester.Requester.OnPendingPrompt | runtime/llmlet-runtime.js:716-738 | The prompt hook takes the state one step |
| Requester.Requester.OnRuntimeExit | runtime/llmlet-runtime.js:744-759 | The exit hook takes the state one step |
| Requester.Requester.StartOrRefuse | runtime/llmlet-runtime.js:762-772 | Startup starts the module, or refuses after a stop |
| Requester.Requester.StartupFailed | runtime/llmlet-runtime.js:781-783 | A failing startup rejects `ready`, the running generation and `exited` |
| Requester.Requester.OnRuntimeAbort | runtime/llmlet-runtime.js:760 | The abort hook takes the state one step, which does not stop the Runtime |
| Requester.Requester.CancelGeneration | runtime/llmlet-runtime.js:813-815 | `cancel` takes the state one step: a flag when a generation runs, nothing otherwise |
| Requester.Requester.Generate | runtime/llmlet-runtime.js:790-795 | The checks made at once take the state one step |
| Requester.Requester.GenerateAfterReady | runtime/llmlet-runtime.js:796-810 | The checks and the delivery after `ready` take the state one step; the branch for a prompt that could not be delivered (805-808) is shown to be dead where it stands |
| Requester.Requester.StopRuntime | runtime/llmlet-runtime.js:816-824 | The beginning of `stop` takes the state one step |
| Requester.Requester.StopFinish | runtime/llmlet-runtime.js:833-837 | The end of `stop` takes the state one step and leaves no generation running |
| GgufLaws.SkippingIsReading | scripts/lib/gguf-header.mjs:190-217 | For every file: an array read by skipping succeeds exactly when all its items can be read, ends at the same offset, and keeps the first four |
| GgufLaws.TextItemsRead | scripts/lib/gguf-header.mjs:197-204 | The same for string arrays from any item on |
| GgufLaws.ScalarArrayReads | scripts/lib/gguf-header.mjs:209-214 | The same for scalar arrays, skipped in one go |
| GgufLaws.HeaderKeeps | scripts/lib/gguf-header.mjs:226-288 | A header that parses is the result on every longer file; one that ends within a shorter file is the result there |
| GgufLaws.TruncatedFails | scripts/lib/gguf-header.mjs:226-288 | A file cut anywhere before the end of its descriptors does not parse |
| GgufLaws.PrefixDecides | scripts/lib/gguf-header.mjs:226-288 | Cut at the end of its descriptors or behind it, a file parses to the same header |
| GgufRoundTrip.RoundTrip | scripts/lib/gguf-header.mjs:226-288 | Every serialisable header, followed by any bytes, is read back (arrays as length and first four items), with its alignment and data start, ending exactly at its end |
| GgufRoundTrip.AlignmentRound | scripts/lib/gguf-header.mjs:273-287 | The alignment is the last alignment entry's, or 32, and the data starts at its least multiple not below the descriptors' end |
| GgufRoundTrip.PrefixesFail | scripts/lib/gguf-header.mjs:226-288 | Every strict prefix of a serialised header fails to parse |
| GgufRoundTrip.ScalarRound | scripts/lib/gguf-header.mjs:144-163 | Every scalar of every kind is read back from its bytes, signed ones by two's complement |
| GgufRoundTrip.ValueReads | scripts/lib/gguf-header.mjs:182-217 | Every metadata value is read back, whatever surrounds it |
| GgufRoundTrip.EntriesRead | scripts/lib/gguf-header.mjs:244-249 | Metadata entries are read back, the last value of a repeated key |
| GgufRoundTrip.DescriptorsRead | scripts/lib/gguf-header.mjs:252-271 | Tensor descriptors are read back with their sizes |
| GgufBytes.ScalarBytes | scripts/lib/gguf-header.mjs:144-163 | Scalars in terms of the file's bytes: kinds 0, 2, 4, 10 little-endian, 1, 3, 5, 11 two's complement, 6 and 12 floats as stored, 7 a flag, and no other kind |
| GgufBytes.AllOnes | scripts/lib/gguf-header.mjs:144-163 | All bits set read as -1 in the signed kinds and as the largest number in the unsigned ones |
| GgufBytes.TextBytes | scripts/lib/gguf-header.mjs:165-174 | A string is eight bytes of length, at most 2^53 - 1, and its bytes |
| GgufBytes.ValueBytes | scripts/lib/gguf-header.mjs:182-188 | Kind 8 is a string, kind 9 an array, every other kind a scalar |
| GgufBytes.ArrayBytes | scripts/lib/gguf-header.mjs:189-217 | An array is four bytes for the kind of its items, eight for their number, and the items, which may not be arrays |
| GgufBytes.ScalarArrayBytes | scripts/lib/gguf-header.mjs:206-215 | An array of scalars takes its whole length times their width, and its first four items, or all of fewer, are kept |
| GgufBytes.EntryBytes | scripts/lib/gguf-header.mjs:244-249 | A metadata entry is a string, four bytes for the kind, and the value |
| GgufBytes.DescriptorBytes | scripts/lib/gguf-header.mjs:252-271 | A descriptor is a string, four bytes for at most four dimensions, eight for each, four for the type and eight for the offset; what of it is malformed decides the error |
| GgufBytes.TypeSizes | scripts/lib/gguf-header.mjs:62-96 | Block length and bytes per block of every known type, and that there are no others |
| GgufBytes.PreambleBytes | scripts/lib/gguf-header.mjs:226-242 | A header starts with the bytes 71, 71, 85, 70, a version that is 2 or 3, and two counts of at most 2^53 - 1; which of them is wrong or missing decides the error |
| GgufBytes.HeaderBytes | scripts/lib/gguf-header.mjs:226-288 | A header that parses says what its first 24 bytes say, and has as many descriptors as they announce |
| GgufBytes.AlignmentName | scripts/lib/gguf-header.mjs:273-274 | The alignment entry is the one whose key is `general.alignment` in ASCII, and it is 32 without one |
| GgufReader.TensorBytesExact | scripts/lib/gguf-header.mjs:102-112 | A tensor, also one without dimensions, has a size exactly when its type is known and its rows are whole blocks; the size is then exact, with nothing rounded |
| GgufReader.CountBytes | scripts/lib/gguf-header.mjs:102-112 | The accumulating loop computes that size |
| GgufReader.Cursor.ReadText | scripts/lib/gguf-header.mjs:165-174 | A string read through the cursor is the one at its offset in the file, whatever the source does, or the source did not serve it |
| GgufReader.Cursor.ReadTextItems | scripts/lib/gguf-header.mjs:196-204 | The same for string arrays |
| GgufReader.Cursor.ReadScalarArray | scripts/lib/gguf-header.mjs:209-215 | The same for scalar arrays |
| GgufReader.Cursor.ReadTensor | scripts/lib/gguf-header.mjs:253-270 | The same for tensor descriptors |
| GgufReader.ReadGgufHeader | scripts/lib/gguf-header.mjs:226-288 | Over any source: a header found is the one of the whole file, with alignment and data start, an error is the file's own, bytes are missing only where the source does not serve the descriptors, and nothing is asked for beyond their end; over a reliable source it is found if and only if its end came in |
| GgufReader.ProbeHttp | scripts/probe-gguf-header.mjs:56-128 | With ranges answered in full, every header within the limit is found; at most max(1 MiB, twice its length) is fetched, and the number of requests is logarithmic in it |
| GgufReader.ProbeStream | scripts/probe-gguf-header.mjs:66-116 | A reliable stream without ranges and without a length: a header is found if and only if its end came in with the first read and what its last piece carried beyond it |
| ByteSource.HttpSource.Ensure | scripts/probe-gguf-header.mjs:66-82 | The bytes stay a prefix of the file; a reliable server gives an end exactly when it is there already, or lies within the file and 512 MiB and ranges still work or the stream had a length; and no end is given after a refusal or a broken stream |
| ByteSource.HttpSource.Grow | scripts/probe-gguf-header.mjs:71-80 | One growth step doubles what is there, within a known size, by a range or by the stream |
| ByteSource.HttpSource.FetchRange | scripts/probe-gguf-header.mjs:84-108 | One request: a partial reply extends the prefix; a whole reply is accepted only first, and read as a stream from then on |
| ByteSource.HttpSource.Pump | scripts/probe-gguf-header.mjs:110-116 | Pieces are taken until there is enough: the overshoot is less than the last piece |
| ByteSource.FileSource.Ensure | scripts/probe-gguf-header.mjs:138-161 | The same for a file on the disk, read in arbitrary pieces |
| ByteSource.StreamWithoutLengthIsCutShort | scripts/probe-gguf-header.mjs:96-106 | The input: a stream without a Content-Length counts as an empty file, so what is longer than the first read fails although the server sends it all |
| RangeServer.RequestRoundTrip | scripts/serve-runtime.py:47-79 | A printed request for [b, e) is parsed to b and min(e, size) - 1, or refused when b is past the end |
| RangeServer.NumberedRange | scripts/serve-runtime.py:71-79 | `bytes=A-B` for all A and B; backwards ranges are refused |
| RangeServer.OpenRange | scripts/serve-runtime.py:71-79 | `bytes=N-` is everything from N on |
| RangeServer.SuffixRange | scripts/serve-runtime.py:64-70 | `bytes=-N` is the last N bytes, or the whole of a shorter file |
| RangeServer.RangeInFile | scripts/serve-runtime.py:77-79 | Whatever the header says, a satisfied range lies within the file |
| RangeSyntax.IgnoredExactly | scripts/serve-runtime.py:47-75 | A header is ignored exactly when it is not `bytes=` and one range, with a dash, of what is read as numbers |
| RangeSyntax.RangeIs | scripts/serve-runtime.py:61-79 | What is not ignored, by its numbers, whatever sign they have: a suffix, an open range or a closed one, cut at the end of the file or refused |
| RangeSyntax.IntegerIsRead | scripts/serve-runtime.py:63-73 | White space, a sign or none, a numeral and white space are read as the numeral's value, negated by a minus sign |
| RangeSyntax.OnlyIntegersAreRead | scripts/serve-runtime.py:63-75 | No other string is read as a number |
| RangeSyntax.DigitsAreNumerals | scripts/serve-runtime.py:63-73 | A numeral is digits with single underscores between two of them |
| RangeSyntax.DigitsCount | scripts/serve-runtime.py:63-73 | Its value is in base ten: one more digit multiplies by ten and adds it |
| RangeSyntax.UnderscoresCount | scripts/serve-runtime.py:63-73 | An underscore in a numeral is worth nothing |
| RangeSyntax.SpacesAre | scripts/serve-runtime.py:55-73 | Which characters are stripped around a header value and around a number |
| RangeSyntax.StripIs | scripts/serve-runtime.py:55 | White space around a text goes, and nothing else |
| RangeServer.CopyFile | scripts/serve-runtime.py:141-151 | For any pattern of non-empty short reads, exactly the bytes of the range are copied |
| RangeServer.Serve | scripts/serve-runtime.py:103-151 | Status, range header and body follow from the parsed range, and the Content-Length is the length of the body |
| RangeServer.AskServer | scripts/serve-runtime.py:103-151 | Asked by the header reader, the server answers as a reliable range server does: always, and in full |
| RangeServer.Reassemble | scripts/serve-runtime.py:103-151 | Successive ranges, each from where the last one ended, give a prefix of the file |
| StatsMerge.OrderDoesNotMatter | scripts/lan-probe.js:270-361 | For every two orders in which the same snapshots settle, each at its own time, the record is the same, and it is the one described by what was seen; states seen are compared as a set |
| StatsMerge.SettleKeeps | scripts/lan-probe.js:284-294 | One more snapshot keeps the record exact: newest statistics, first and last sighting, all states, flags ever set, the rest as last seen |
| StatsMerge.ExactIsUnique | scripts/lan-probe.js:327-361 | What was seen decides the record |
| StatsMerge.ConnectionRecord.Snapshot | scripts/lan-probe.js:270-282 | A request is numbered above all earlier ones and listed at once, pending |
| StatsMerge.ConnectionRecord.SettleSnapshot | scripts/lan-probe.js:284-294 | Settling updates the record as specified; a failed snapshot changes nothing but its entry |
| StatsMerge.ConnectionRecord.MergeObserved | scripts/lan-probe.js:327-361 | The merging loop computes the merge; the list of states of every pair has no repetition and only grows at its end |
| StatsMerge.MergeKept | scripts/lan-probe.js:344-359 | Merging one pair, field by field: its list keeps its order and gets a new state at its end |
| CandidateMatch.SignallingOrderDoesNotMatter | scripts/lan-probe.js:141-207 | The reported address does not depend on the order in which candidates were signalled |
| CandidateMatch.AddressIsSignalled | scripts/lan-probe.js:133-189 | When the statistics have no address: the only candidate that agrees on port, protocol, type, foundation and priority gives its own; when none agrees on all five, the only one that agrees on port, protocol and type does |
| CandidateMatch.AddressIsNoGuess | scripts/lan-probe.js:133-189 | Conversely, an address from signalling belongs to such a candidate, and the reported key says on what it agrees |
| CandidateMatch.OtherwiseNoAddress | scripts/lan-probe.js:141-189 | The other answers: the statistics' own address, none because several candidates tie and how many, and none because none agrees |
| BackendOps.SlicingDoesNotMatter | harness/backend-ops/summary.mjs:98-113 | In whatever slices the output is fed, the judge ends where it would with the whole, before and after flushing |
| BackendOps.CasesAreConserved | harness/backend-ops/summary.mjs:115-140 | Every case line of the output is counted exactly once, in a section or as an orphan |
| BackendOpsLedger.BooksAreTheOutput | harness/backend-ops/summary.mjs:98-140 | However the output is sliced: there are as many sections as section lines, in order and by name, and each counts, by status, exactly the cases between its line and the next; cases before the first are orphans |
| BackendOpsLedger.LinesAreTheText | harness/backend-ops/summary.mjs:98-105 | A text is its lines, each ended by a newline, and the rest |
| BackendOps.PassesExactly | harness/backend-ops/summary.mjs:149-194 | A pass is exactly one target section with the expected positive number of cases, all OK, and no orphans |
| BackendOpsLedger.ReasonsHold | harness/backend-ops/summary.mjs:149-194 | Every reason is listed exactly when it holds of the sections, the orphans and the expectation |
| BackendOps.WrongLineDooms | harness/backend-ops/summary.mjs:115-140 | A case outside any section, a case in a target section that is not OK, or a second target section dooms the run |
| BackendOps.NoUndoing | harness/backend-ops/summary.mjs:98-194 | After a case that is not OK or too many in a target section, an orphan, or a second target section, no later output gives a pass |
| BackendOps.ExpectedIsWritten | harness/backend-ops/summary.mjs:233-235 | A file with one case per line announces as many cases as were written |
| BackendOpsLedger.ExpectedIsFilledLines | harness/backend-ops/summary.mjs:233-235 | Any file announces as many cases as it has lines that are not blank, the last one with or without its newline |
| BackendOpsLedger.WhiteSpaceIs | harness/backend-ops/summary.mjs:234 | Which characters a blank line may hold |
| BackendOpsSummary.Summary.Feed | harness/backend-ops/summary.mjs:98-105 | The line loop over the carried text computes the feeding step |
| BackendOpsSummary.Summary.Flush | harness/backend-ops/summary.mjs:108-113 | Flushing takes in a last line without its newline |
| BackendOpsSummary.Summary.TakeLine | harness/backend-ops/summary.mjs:115-140 | A line opens a section, is noted, or is counted where cases are counted now |
| BackendOpsSummary.Summary.Verdict | harness/backend-ops/summary.mjs:149-194 | The verdict lists every reason against a pass, and passes when there is none |

## Left out

- 32-bit wrap-around in the kernels and in the host's sizes: numbers are unbounded, so the results hold where the source's products fit their types.
- f16 rounding and the vectorised shader variant: products and sums are exact reals, and `VEC_SIZE` is 1.
- `init_shmem_src0`, `compute_2d_workgroups` and the size passed into the alloc-size case: their code is not shown; `MoeKernel.StagedWeight` stages zero-padded weights, `MoeKernel.MulMatId` takes any launch of at least the host's number, and `MoeScratch.ScratchFits` takes a size that covers the output.
- MoeKernel.MulMatId: the scratch buffers are separate arrays; that they may be carved out of the output's buffer is what `MoeScratch.ScratchFits` shows.
- PeerManager.Manager.Connect: a connection record is the value its number maps to and `byRemote` holds numbers; the identity of record objects is not modelled.
- PeerManager.Manager.OnMessage: callbacks do not call back into the manager while they run, and the bus delivers later, not inside `post`.
- PeerManager.Manager.Accept: a channel whose `post` throws is modelled where the source catches it, in `send`; the posts of `connect`, `accept` and `close_connection` stand outside a `try`, and a throw there, which leaves the call half done, is not modelled.
- `register_buf`, `fdStats` and events of the harness: recording only.
- VirtualFile.EveryReadIsExact: a range request that succeeds returns exactly the bytes asked for, and the cache returns what was stored under a key; positions lie within the file, as `read` has no guard.
- The chunk cache's database, WebRTC, PeerJS, fetch and the module loader: they appear as nondeterministic events or contracts.
- Lifecycle.GenerationsAreSettled: a generation started after an abort need not settle before `stop`, because the abort hook does not mark the Runtime as stopped.
- Timeouts of `stop`: its end may come at any time after its beginning. The encoding of prompts: a prompt is its encoded bytes.
- Text decoding and float decoding in the header reader: strings and floats are their stored bytes, so two keys that decode alike stay two keys. The names of tensor types are not modelled.
- GgufRoundTrip.AlignmentRound: stated for positive integers up to 2^53; zero and negative alignments follow `GgufFormat.DataStart`, and what JavaScript's `Number` makes of a float, a text, an array or a larger integer is left open.
- JavaScript's rounding of lengths above 2^53 when an array item is skipped: the model adds exactly, and fails on them as the source's bounds do.
- ByteSource.HttpSource.Pump: stream pieces are not empty, as an endless run of empty pieces would keep the loop going.
- The number syntax of Python's `int` beyond Latin-1 digits, and its limit on the number of digits: header characters are Latin-1, and numbers have no length limit.
- `translate_path`, headers other than the range's, and directory listings of the server.
- StatsMerge.OrderDoesNotMatter: the order inside a pair's list of states depends on arrival, as the source says, so that list is compared as a set.
- The line patterns and outcome words of the judge: a line classifier is a parameter. The texts of reasons, `format` and reports.
- `digestStats` and the parsing of signalled candidate lines: attributes are given, and which pair is selected is part of the digest.
- `startPeer`, `configureEnv`, `resolveBaseUrl` and output callbacks: they would only add easy members.
- Patches 0001, 0002, 0003 and 0005, whose surrounding functions are not fully shown; build scripts and pages.
