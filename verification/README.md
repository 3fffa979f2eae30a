# GVSoC interconnect components, verified

A Dafny model of stateful components of the GVSoC platform simulator, with proofs about every run of them.
Each component that the simulator writes as a class with callbacks is a class here; its methods are the
callbacks and do what the C++ methods do, branch by branch. What the other side of a port does is left open:
a bound slave may answer `DONE`, `GRANTED` or `DENIED` with any latency (`IoV2.SlaveAnswers`), responses and
retries may come at any time, and masters may ask for anything.

Most components come in two parts. A specification module (`...Spec`, `...Runs`) holds the state as a value,
one function for each callback, an invariant, one lemma a callback that the invariant is kept, and a
function `Run` over arbitrary sequences of events, about which `AnyRun` states the main results. The class
holds that value in one field and proves that each callback computes its function. The fields of the state
that the C++ code does not have are history: what was accepted, emitted, answered, so that a promise about a
whole run can be stated.

- **Splitter** (`SplitterPlan`, `SplitterLog`, `SplitterV2`): a burst is cut into phases as wide as the
  input and phases into chunks as wide as an output; each accepted parent is answered once, with the worst
  status of its chunks and a latency that makes up for the time not yet spent.
- **Limiter** (`LimiterSpec`, `LimiterCycles`, `LimiterAnswers`, `LimiterV2`): requests are cut into
  bandwidth-wide pieces, one a cycle, with several parents outstanding. The history tells in which cycle a
  piece is first offered and in which the output takes it.
- **Cache** (`CacheLines`, `CacheCore`, `CacheSpec`, `CacheAccess`, `CacheStore`, `CacheAnswers`,
  `CacheV4`): a set-associative cache with one refill in flight. The log of a state lists fills, and bytes
  copied to and from requests, in the order in which requests are served; that is not always the order in
  which they were acknowledged, since a new request may be looked up before the queue is drained.
- **Beat adapter** (`Beats`, `BeatAdapterSpec`, `BeatAdapterEvents`, `BeatAdapter`) and **clock bridge**
  (`ClockBridgeSpec`, `ClockBridgeTiming`, `ClockBridge`).
- **RSP codec** (`CircularBuffer`, `Rsp`, `RspDecoding`, `RspStream`, `RspPacketCodec`): packets of the GDB
  Remote Serial Protocol, appendix E.1 of "Debugging with GDB", through a ring of bytes.
- **Interrupt controller** (`PlicSpec`, `PlicEvents`, `PlicOwners`, `Plic`): the RISC-V PLIC specification,
  chapters "Interrupt Priorities", "Interrupt Claim Process" and "Interrupt Completion".
- **Crossbar** (`Interleaving`, `LogIcoSpec`, `LogIcoRuns`, `LogIcoV2`) and **interleaver** (`Interleaver`).
- **Memory** (`Atomics`, `MemoryV3`): sections 8.2 and 8.4 of the RISC-V unprivileged ISA; **memory
  checker** (`Memcheck`).

A port that a component calls is a method that answers anything and writes the call and the answer down
(`talk`, `calls`, `answers`); the callbacks promise which calls they make, and that what they do is what
these answers ask for. What runs promise is stated, as far as it can be, on the events that come from
outside: what was asked, answered and written to registers, and when. `Retries` holds what a master hears of
its denied requests.

`Arith`, `Bits` and `Bytes` hold arithmetic: products, quotients, shifts and masks are defined by recursion,
so that their proofs stay linear, and `Arith.Meaning` and `Bits.ShiftsAreArithmetic` tie them to the
ordinary operators.

Where the code does not do what it or its documentation promises, the exact condition is proved:

- The header of the beat adapter promises `ceil(total / beat_width)` beats a request. That holds exactly if
  the padding of its responses stays below one beat (`Beats.BeatCount`; a run with one beat too many is
  `BeatAdapterSpec.TooManyBeats`).
- `write_copy` of the ring starts again at the beginning of its source in a second round. It is right for
  all data exactly if the data fits the block behind the tail, or nothing is free at the start of the ring
  (`CircularBuffer.WriteCopyRight`).
- The clock bridge loses a request that the slave denies (`ClockBridge.RefusalStrands`). A master that has
  been denied a request and waits gets its retry, after finitely many events, if the slave denies fewer than
  `depth` requests meanwhile; with a slave that grants nothing, exactly if so
  (`ClockBridgeSpec.RetryComes`).
- The limiter does not keep to its bandwidth on the side of the output: with a bandwidth of 4, 8 bytes in
  one cycle (`LimiterSpec.TwoChunksInOneCycle`). It exceeds it in a cycle exactly if the last piece of a
  request, refused before, is taken in the cycle, the first piece of the next request is offered and taken
  in it, and the two are larger than the bandwidth (`LimiterCycles.CycleExceeds`). In n cycles it exceeds n
  bandwidths exactly if more is carried into them than is carried out of them and left unused by offers, and
  only if two such pieces meet in the first cycle (`LimiterCycles.WindowExceeds`); the second one may be
  refused once more, so that the first cycle itself need not exceed it (`LimiterCycles.WindowButNotCycle`).
- The limiter accepts an empty request and is stalled by it for good: nothing is emitted, every request is
  denied, and the empty one is never answered (`LimiterSpec.EmptyStalls`). It stalls for no other reason
  (`LimiterSpec.StalledIff`, `LimiterSpec.NeverStalled`).
- The packet decoder needs the two checksum characters in one block of the ring. It gets stuck for good
  (`RspStream.StuckForever`) exactly if a slice brings the first of them into the last place of the ring
  (`RspStream.StuckIff`, `RspStream.RunSticks`). A packet that arrives alone gets stuck only in a ring that
  is shorter than itself (`RspPacketCodec.ReceiveAll`); behind another packet it may get stuck in a longer
  one, such as the server's (`RspStream.SecondSticks`).
- A call of `decode` reports at most one packet or bad checksum (`RspDecoding.DecodeMeans`): of two packets
  in one slice the second waits for the next slice (`RspStream.SecondWaits`).
- The decoder copies into a buffer of fixed size before it looks at the length. One block fits exactly if
  what has been collected and the block up to its `#` do (`RspDecoding.BlockFits`; an overrun is
  `RspDecoding.BlockOverruns`); a packet fits, in whatever slices it comes, exactly if it is not longer than
  the buffer (`RspStream.PacketFits`).
- `encode` answers true for a garbled packet exactly if the packet does not fit the block behind the tail
  and is as long as all that is free (`RspPacketCodec.EncodeMisleads`, `RspPacketCodec.EncodeGarbles`).
- Two contexts of the interrupt controller can claim one source with nothing in between
  (`PlicOwners.TwoContextsClaim`): an enable write makes a source with a high line pending in any context.
  Claims are exclusive across contexts in every run, and sources pending exactly where they are enabled with
  a high line, exactly if enable writes give no source to two contexts (`PlicOwners.ExclusiveIff`).
- A source is claimed at the priority that its register had when it was last made pending, whatever is
  written to the register afterwards (`PlicEvents.PendingSince`, `PlicEvents.ClaimsInOrder`).
- Only the address of a reservation counts in the memory: a store-conditional can succeed although the upper
  half of its word has been stored to (`Atomics.UpperHalfStored`). No byte of a reserved word is stored to
  before its store-conditional succeeds, in every run on given words, exactly if none of the words begins
  inside of another (`Atomics.IntactIff`).
- The memory checker turns a buffer of its memory away exactly if it ends where the memory ends and the
  expansion factor is less than 3 (`Memcheck.TurnedAwayIff`).

## Model

| member | source | states |
|---|---|---|
| SplitterPlan.CellsTileBurst | models/interco/splitter_v2.cpp:223-289 | the chunks of a burst tile it without gap or overlap, each in one output cell, in its phase's input window, on an existing output |
| SplitterV2.NextChunkIsCell | models/interco/splitter_v2.cpp:247-263 | the chunk cut next is the burst's next cell, and the fan-out has an output left for it |
| SplitterV2.FanOutEnds | models/interco/splitter_v2.cpp:247-279 | the loop over the outputs never ends before the phase's bytes do |
| SplitterV2.MaskIsRoom | models/interco/splitter_v2.cpp:231 | the mask expressions compute the bytes up to the next boundary |
| SplitterLog.PhaseOrderedMeans | models/interco/splitter_v2.cpp:220-224 | between a chunk and one of a later phase lies the first one's completion |
| SplitterLog.BooksSettle | models/interco/splitter_v2.cpp:195-210 | a completion keeps remaining bytes, pending chunks, worst status and phase maximum equal to what the history says |
| SplitterLog.BooksAnswer | models/interco/splitter_v2.cpp:264-276 | whatever an output answers, each unsettled chunk is at one output or parked on one lane, and bytes settled and outstanding stay the bytes planned |
| SplitterLog.BooksDrained | models/interco/splitter_v2.cpp:297-300 | with nothing pending every chunk issued has settled |
| SplitterLog.IssuedIsCalled | models/interco/splitter_v2.cpp:259-268 | the chunks issued in a history are exactly those that an output was called with |
| SplitterLog.WorstIsSaid | models/interco/splitter_v2.cpp:195-210 | the worst status of a history is INVALID exactly if some output said so when it completed a chunk, inline or later |
| SplitterLog.PhaseMaxIsSaid | models/interco/splitter_v2.cpp:195-210 | the latency of a phase is the largest one that an output said when it completed one of its chunks, or 0 |
| SplitterV2.BurstEnds | models/interco/splitter_v2.cpp:326-345 | a drained burst fulfils its promise: all cells, each settled once, phase after phase; worst status; elapsed plus annotation is the larger of elapsed and the sum of the phases' maxima; its history is what the outputs were called with and have said |
| SplitterV2.Splitter.AccountChunk | models/interco/splitter_v2.cpp:195-210 | one chunk is settled in the books |
| SplitterV2.Splitter.FanOut | models/interco/splitter_v2.cpp:247-277 | the phase is cut cell by cell, whatever the outputs answer; each answer enters the history as it was given |
| SplitterV2.Splitter.IssuePhases | models/interco/splitter_v2.cpp:213-290 | phases are issued until one does not complete inline or the burst is exhausted, each phase's maximum being added once |
| SplitterV2.Splitter.AfterChunkCompletion | models/interco/splitter_v2.cpp:293-323 | the parent stays pending with a chunk outstanding, or is answered |
| SplitterV2.Splitter.FinalizeParent | models/interco/splitter_v2.cpp:326-354 | exactly one response, then the retry that is owed; the parent's completion fulfils its promise |
| SplitterV2.Splitter.AwaitAnswer | models/interco/splitter_v2.cpp:264-276 | the output is called with the chunk, and its answer, as it was given, is settled, parked or left outstanding |
| SplitterV2.Splitter.InputReq | models/interco/splitter_v2.cpp:357-414 | denied exactly while a parent is pending; otherwise completed inline once, or pending; what completes fulfils its promise, from the outputs' own answers |
| SplitterV2.Splitter.OutputResp | models/interco/splitter_v2.cpp:417-422 | the history grows by this completion, with its latency and status; the invariant holds, so no wake-up is lost |
| SplitterV2.Splitter.OutputRetry | models/interco/splitter_v2.cpp:425-448 | a parked chunk is offered again, and the answer enters the history as it was given; a second refusal changes nothing else |
| LimiterSpec.PiecesAreCeil | models/interco/limiter_v2.cpp:210-232 | requests are cut into ceil(size / bandwidth) contiguous pieces |
| LimiterSpec.WindowBound | models/interco/limiter_v2.cpp:201-225 | over any window of n cycles at most n times the bandwidth is offered to the output for the first time |
| LimiterSpec.TakenInWindow | models/interco/limiter_v2.cpp:201-344 | over any window of n cycles the output takes at most n times the bandwidth and the pieces first offered before the window, which are at most one bandwidth |
| LimiterSpec.TwoChunksInOneCycle | models/interco/limiter_v2.cpp:311-344 | a run in which the output takes twice the bandwidth in one cycle |
| LimiterCycles.CycleExceeds | models/interco/limiter_v2.cpp:201-344 | in every run a cycle takes more than the bandwidth exactly if a refused last piece and the first piece of the next request are both taken in it and are larger than the bandwidth |
| LimiterCycles.Conserved | models/interco/limiter_v2.cpp:201-344 | what is taken in a window is what is offered in it and carried in, less what is carried out |
| LimiterCycles.WindowExceeds | models/interco/limiter_v2.cpp:201-344 | in every run n cycles take more than n bandwidths exactly if more is carried in than is carried out and left unused; only if such pieces meet in the first cycle |
| LimiterCycles.WindowButNotCycle | models/interco/limiter_v2.cpp:201-344 | a run in which two cycles take three bandwidths and the first of them takes one |
| LimiterSpec.AdmitKeeps | models/interco/limiter_v2.cpp:149-182 | accepting a request keeps the invariant |
| LimiterSpec.EmitKeeps | models/interco/limiter_v2.cpp:210-234 | a fresh chunk is the next piece in address order |
| LimiterSpec.RefuseKeeps | models/interco/limiter_v2.cpp:240-248 | a refused chunk is kept, and nothing passes it |
| LimiterSpec.FinishKeeps | models/interco/limiter_v2.cpp:268-301 | remaining size stays unemitted plus outstanding bytes; the last chunk answers its parent once |
| LimiterSpec.TickKeeps | models/interco/limiter_v2.cpp:185-265 | the emission event keeps the invariant, and emission left to do stays scheduled |
| LimiterSpec.RetryKeeps | models/interco/limiter_v2.cpp:311-344 | the output's retry keeps the invariant; another refusal changes nothing |
| LimiterSpec.AnyRun | models/interco/limiter_v2.cpp:149-344 | in every run at most n bandwidths are offered in n cycles and at most n + 1 taken, the output takes all pieces in order, and each request is answered at most once, and exactly once when nothing is left to do |
| LimiterSpec.EmptyStalls | models/interco/limiter_v2.cpp:196-199 | after an empty request, whatever happens, nothing is emitted any more, no request is accepted, and the empty one stays in emission and is never answered |
| LimiterSpec.StalledIff | models/interco/limiter_v2.cpp:149-199 | in every run the limiter is stalled by a request exactly if it has accepted it and it is empty |
| LimiterSpec.NeverStalled | models/interco/limiter_v2.cpp:149-265 | a limiter that is asked for nothing empty is never stalled |
| LimiterAnswers.DeniedAreWoken | models/interco/limiter_v2.cpp:149-344 | in every run the master is told to try again only after a denial, once, and after every denial once nothing is in emission, refused or at the output |
| LimiterAnswers.StatusIsWorst | models/interco/limiter_v2.cpp:268-283 | in every run a request is INVALID exactly if the output said so of one of its chunks |
| LimiterAnswers.NextCycle | models/interco/limiter_v2.cpp:185-265 | with bytes left to emit and nothing refused, the next chunk goes out when the event fires, in the next cycle at the latest |
| LimiterV2.Limiter.InputReq | models/interco/limiter_v2.cpp:149-182 | denied exactly while a request is in emission; otherwise accepted, which stalls the limiter if it is empty |
| LimiterV2.Limiter.FinishChunk | models/interco/limiter_v2.cpp:268-283 | computes the completion of a chunk |
| LimiterV2.Limiter.CheckLastChunk | models/interco/limiter_v2.cpp:286-301 | answers the parent when nothing of it remains, then pays a retry that is owed |
| LimiterV2.Limiter.EventHandler | models/interco/limiter_v2.cpp:185-265 | computes the emission step; the output is called with the chunk that is emitted, and the step is that of its answer |
| LimiterV2.Limiter.OutputResp | models/interco/limiter_v2.cpp:304-308 | computes the response step |
| LimiterV2.Limiter.OutputRetry | models/interco/limiter_v2.cpp:311-344 | computes the retry step; the output is called with the refused chunk, and the step is that of its answer |
| CacheLines.RefillAddrOfTag | models/cache/cache_v4.cpp:398-399 | the 32-bit refill address depends on the tag alone, also when it truncates |
| CacheLines.RefillAddrUntruncated | models/cache/cache_v4.cpp:398-399 | without overflow a line comes from (line address << shift) + offset |
| CacheLines.UnwrittenIsFill | models/cache/cache_v4.cpp:384-460 | a line that is not written to holds what its last fill brought |
| CacheLines.UnwrittenIsStore | models/cache/cache_v4.cpp:384-460 | a line that is not written to holds the bytes of the store at the line's base, if fills bring these |
| CacheLines.FillKeeps | models/cache/cache_v4.cpp:431-458 | a fill, whatever it brings, keeps tags unique and every valid line equal to its last fill and the writes since |
| CacheLines.WriteKeeps | models/cache/cache_v4.cpp:577-587 | a write changes its own bytes of its own line only |
| CacheLines.BeatKeeps | models/cache/cache_v4.cpp:254-262 | the lent buffer of a line in refill may hold anything, although the line still has its old tag |
| CacheLines.InvalidateKeeps | models/cache/cache_v4.cpp:463-492 | flushing lines, also during a refill, keeps the cache coherent |
| CacheCore.ServeKeeps | models/cache/cache_v4.cpp:535-590 | an access keeps the lines coherent; a refill in flight carries the missing request's tag and offset |
| CacheCore.ServedIsCached | models/cache/cache_v4.cpp:535-590 | a completed access leaves its line in the cache |
| CacheCore.CachedHits | models/cache/cache_v4.cpp:518-531 | an access to a cached line completes inline and sends no refill |
| CacheCore.RefillsFollow | models/cache/cache_v4.cpp:435-458 | inline refills follow one another, and a line can be read only when its own is over |
| CacheCore.StepLruInjective | models/cache/cache_v4.cpp:653-663 | the replacement generator runs in cycles |
| CacheCore.VictimBits | models/cache/cache_v4.cpp:653-663 | bits of the generator from the second one on tell the victim |
| CacheAccess.AddressParts | models/cache/cache_v4.cpp:503-513 | sets, offsets and tags are remainders and quotients of the address |
| CacheAccess.ServeAccesses | models/cache/cache_v4.cpp:535-590 | a completed access moves the bytes at its own address, exactly once, behind the fill of its line if it misses; a read gets the values there; a miss asks for the line around the address |
| CacheAccess.BypassAnswers | models/cache/cache_v4.cpp:607-620 | a disabled cache answers what the port answers and touches nothing of its own |
| CacheAccess.LineFlushExact | models/cache/cache_v4.cpp:463-474 | exactly the line that holds the address is invalidated |
| CacheAccess.HitsWaitForRefills | models/cache/cache_v4.cpp:435-458 | in every run a hit waits until the end of an earlier refill that was answered inline, at most |
| CacheAccess.StepMove | models/cache/cache_v4.cpp:240-645 | each event takes one request into the queue, serves one, serves the head of the queue, or none of these; only a request that starts a refill goes to the front, and a fill is what the refill port delivers for its call or its pending refill |
| CacheAccess.ServedOrQueued | models/cache/cache_v4.cpp:240-645 | in every run the accesses made are, each once, requests that were taken, and the others that were taken are queued |
| CacheAccess.EntryHasInput | models/cache/cache_v4.cpp:240-645 | bytes returned or written in a run are those of a request that came in: its id, its address, its size |
| CacheAccess.ReadIsStore | models/cache/cache_v4.cpp:240-645 | with lines cached where they lie in the store, each byte that a read in a run returns is the store's at the read's own address, if fills bring that and the line was not written |
| CacheStore.FillsAreStore | models/cache/cache_v4.cpp:240-645 | if the refill port delivers what the store holds where it is called, every fill of a run is the store's bytes at its own line |
| CacheStore.ReadsServeStore | models/cache/cache_v4.cpp:240-645 | then, with lines cached where they lie in the store, a read of a line not written returns the store's bytes at the read's own address, in every run |
| CacheAnswers.DeniedAreWoken | models/cache/cache_v4.cpp:240-645 | in every run the master is told to try again only after a denial, once, and after every denial once the refill port has sent the retry that it owes; the queue is then not asleep |
| CacheSpec.EnterKeeps | models/cache/cache_v4.cpp:593-645 | a request keeps the invariant, bypassed, queued or looked up |
| CacheSpec.DrainKeeps | models/cache/cache_v4.cpp:335-364 | draining the queue keeps the invariant |
| CacheSpec.RefillKeeps | models/cache/cache_v4.cpp:240-298 | when a refill completes the queue head is the request that missed; serving it keeps the invariant |
| CacheSpec.RetryKeeps | models/cache/cache_v4.cpp:301-325 | a retry keeps the invariant, and the queue is drained again |
| CacheSpec.AnyRun | models/cache/cache_v4.cpp:240-645 | in every run reads agree with what the last fill of their line brought and the writes since, acknowledged requests are answered at most once and are otherwise queued or in flight, no set holds a tag twice, and the queue is never left asleep |
| CacheV4.Cache.GetLine | models/cache/cache_v4.cpp:503-532 | the first way of the set that carries the tag |
| CacheV4.Cache.SendRefill | models/cache/cache_v4.cpp:384-460 | computes the refill request and its three outcomes, by the refill port's own answer to a call at the line's address |
| CacheV4.Cache.HandleReq | models/cache/cache_v4.cpp:535-590 | computes the lookup step |
| CacheV4.Cache.InputReq | models/cache/cache_v4.cpp:593-645 | computes the request step, by the refill port's own answer should it be called: at the translated address for a bypassed request, which is restored when denied, or for the missing line |
| CacheV4.Cache.FsmHandler | models/cache/cache_v4.cpp:335-364 | computes the drain step, by the refill port's own answer should it be called |
| CacheV4.Cache.CheckState | models/cache/cache_v4.cpp:367-377 | schedules the drain event exactly when something can be drained |
| CacheV4.Cache.RefillResp | models/cache/cache_v4.cpp:254-298 | computes the refill steps, beat by beat |
| CacheV4.Cache.BypassResp | models/cache/cache_v4.cpp:244-252 | a bypassed request is answered |
| CacheV4.Cache.RefillRetry | models/cache/cache_v4.cpp:301-325 | computes the retry step |
| CacheV4.Cache.Flush | models/cache/cache_v4.cpp:477-492 | invalidates every line |
| CacheV4.Cache.FlushLineOp | models/cache/cache_v4.cpp:463-474 | invalidates the line that holds the address |
| Beats.ResponseTiming | models/utils/io_v2_beat_adapter.cpp:107-131 | the n beats of a response with latency L become ready in strictly later cycles, the last at now + max(L, n) |
| Beats.ResponseTiles | models/utils/io_v2_beat_adapter.cpp:121-155 | the beats of a response carry on where the request's earlier beats stopped |
| Beats.OneFirstOneLast | models/utils/io_v2_beat_adapter.cpp:128-129 | one beat is flagged first, and one last once all is answered and not before; never two, even if more is answered than was asked for |
| Beats.BeatCount | models/utils/io_v2_beat_adapter.hpp:20-21 | a request takes ceil(size / width) beats exactly if its responses leave less than a beat of padding |
| Beats.ResponseSpreads | models/utils/io_v2_beat_adapter.cpp:91-155 | each beat of a response carries its own bytes, offset, address, request, status and flags; the beats leave evenly, with the widest gap that fits the latency |
| BeatAdapterSpec.TooManyBeats | models/utils/io_v2_beat_adapter.hpp:20-21 | a run in which a request of one beat is answered in two halves and takes two beats |
| BeatAdapterSpec.TickTimed | models/utils/io_v2_beat_adapter.cpp:189-206 | each beat leaves at the later of its ready cycle and its predecessor's emission |
| BeatAdapterSpec.RespondKeeps | models/utils/io_v2_beat_adapter.cpp:91-167 | a response keeps the invariant; one for an unknown request is dropped |
| BeatAdapterSpec.SubmitKeeps | models/utils/io_v2_beat_adapter.cpp:32-72 | a request keeps the invariant, whatever the slave answers |
| BeatAdapterSpec.AnyRun | models/utils/io_v2_beat_adapter.cpp:32-218 | in every run emission is prompt, and the beats of a request partition what has been answered of it |
| BeatAdapterEvents.HistoryDecides | models/utils/io_v2_beat_adapter.cpp:32-167 | in every run the adapter awaits responses for exactly the requests that its history says, with their own sizes and addresses |
| BeatAdapterEvents.ResponsesSpread | models/utils/io_v2_beat_adapter.cpp:32-167 | in every run an event brings the beats of the response it carries, inline or later, at the address of the request that awaits it and with the latency and status given, and no others |
| BeatAdapter.Adapter.ReqHandler | models/utils/io_v2_beat_adapter.cpp:32-72 | computes the request step, by the output's own answer to a call with the request as it is; an inline completion is shown as GRANTED |
| BeatAdapter.Adapter.RespHandler | models/utils/io_v2_beat_adapter.cpp:75-80 | computes the response step |
| BeatAdapter.Adapter.ScheduleChunk | models/utils/io_v2_beat_adapter.cpp:91-167 | computes the beats of a response and when they are ready |
| BeatAdapter.Adapter.FsmHandler | models/utils/io_v2_beat_adapter.cpp:189-206 | computes the emission step |
| BeatAdapter.Adapter.RescheduleFsm | models/utils/io_v2_beat_adapter.cpp:209-218 | schedules the event for the front beat unless it is scheduled |
| ClockBridgeSpec.DueAreFirst | models/utils/io_v2_clock_bridge.cpp:193-200 | the transactions at the front that are due are all that are due |
| ClockBridgeSpec.MoveKeeps | models/utils/io_v2_clock_bridge.cpp:193-200 | exactly what is due moves, in order across the two queues and with strictly increasing deadlines |
| ClockBridgeSpec.FwdSrcKeeps | models/utils/io_v2_clock_bridge.cpp:187-206 | the first stage keeps the invariant |
| ClockBridgeSpec.FwdDstKeeps | models/utils/io_v2_clock_bridge.cpp:209-234 | delivery keeps the invariant, whatever the slave answers |
| ClockBridgeSpec.RevSrcKeeps | models/utils/io_v2_clock_bridge.cpp:237-256 | the third stage keeps the invariant |
| ClockBridgeSpec.RevDstKeeps | models/utils/io_v2_clock_bridge.cpp:259-287 | answering keeps the invariant and pays the retry once there is room |
| ClockBridgeSpec.AnyRun | models/utils/io_v2_clock_bridge.cpp:99-287 | in every run both directions keep their order; with a slave that grants nothing the queues hold at most `depth`; with one that is always done they hold exactly what is unanswered, and a retry is owed only while the bridge is full and an event is scheduled |
| ClockBridgeSpec.StrandedIff | models/utils/io_v2_clock_bridge.cpp:209-287 | while a retry is owed, no event is scheduled and the slave holds nothing exactly if every unanswered request was denied by the slave |
| ClockBridgeSpec.RetryComes | models/utils/io_v2_clock_bridge.cpp:187-287 | while a denied master waits, events fire finitely often and until nothing is left to do; then the retry has been sent if fewer than `depth` requests were denied by the slave meanwhile, and with a slave that grants nothing only if so |
| ClockBridgeTiming.LatenciesKept | models/utils/io_v2_clock_bridge.cpp:99-287 | in every run nothing leaves a stage before its latency is over; each is due then, or one cycle for each transaction after an earlier one; events are scheduled for the cycle in which the front is due |
| ClockBridgeTiming.AnswersTell | models/utils/io_v2_clock_bridge.cpp:209-234 | what is due goes to the slave in order; what is done turns back, what is granted is held, what is denied is lost |
| ClockBridgeTiming.DeniedAreOwed | models/utils/io_v2_clock_bridge.cpp:127-287 | in every run a retry is owed exactly after a denial, and sent, once, only then |
| ClockBridge.RefusalStrands | models/utils/io_v2_clock_bridge.cpp:220-228 | a denied request is lost and can leave the master waiting for ever |
| ClockBridge.RetryAfterGrant | models/utils/io_v2_clock_bridge.cpp:209-287 | with a slave that grants, the retry can be sent although `depth` requests were denied |
| ClockBridge.Bridge.RescheduleEvent | models/utils/io_v2_clock_bridge.cpp:86-96 | a stage's event follows the front of its queue |
| ClockBridge.Bridge.EnqueueIn | models/utils/io_v2_clock_bridge.cpp:99-110 | appends at least one cycle behind the predecessor |
| ClockBridge.Bridge.InReqHandler | models/utils/io_v2_clock_bridge.cpp:127-148 | computes the request step; denied exactly when `depth` are in flight |
| ClockBridge.Bridge.OutRespHandler | models/utils/io_v2_clock_bridge.cpp:162-166 | computes the response step |
| ClockBridge.Bridge.FwdSrcDoneHandler | models/utils/io_v2_clock_bridge.cpp:187-206 | computes the first stage |
| ClockBridge.Bridge.FwdDstDoneHandler | models/utils/io_v2_clock_bridge.cpp:209-234 | computes the second stage, by the slave's own answers to calls with exactly what is due, in order |
| ClockBridge.Bridge.RevSrcDoneHandler | models/utils/io_v2_clock_bridge.cpp:237-256 | computes the third stage |
| ClockBridge.Bridge.RevDstDoneHandler | models/utils/io_v2_clock_bridge.cpp:259-287 | computes the last stage |
| CircularBuffer.CircularCharBuffer.WriteBlock | models/gdbserver/circular-buffer.cpp:83-95 | offers free bytes behind the contents, none exactly if the ring is full |
| CircularBuffer.CircularCharBuffer.CommitWrite | models/gdbserver/circular-buffer.cpp:74-81 | appends exactly the bytes committed, across wraps |
| CircularBuffer.CircularCharBuffer.ReadBlock | models/gdbserver/circular-buffer.cpp:106-115 | offers a prefix of the contents, empty exactly if the ring is |
| CircularBuffer.CircularCharBuffer.CommitRead | models/gdbserver/circular-buffer.cpp:97-104 | drops exactly the bytes committed, across wraps |
| CircularBuffer.CircularCharBuffer.Reset | models/gdbserver/circular-buffer.cpp:58-60 | empties the ring |
| CircularBuffer.CircularCharBuffer.WriteCopy | models/gdbserver/circular-buffer.cpp:29-42 | what the copy loop appends, second round included |
| CircularBuffer.WriteCopyRight | models/gdbserver/circular-buffer.cpp:29-42 | the copy loop is right for all data of a length exactly if it fits the first block or nothing is free beyond it |
| CircularBuffer.CopiedAt | models/gdbserver/circular-buffer.cpp:29-42 | byte for byte, the second round of the copy loop begins with the first byte of the data again |
| Rsp.CrcIsSum | models/gdbserver/rsp-packet-codec.cpp:73-78 | the 32-bit sum of signed characters gives the modulo 256 sum of the bytes |
| Rsp.FlipIsXor | models/gdbserver/rsp-packet-codec.cpp:32 | flipping bit 5 is exclusive or with 0x20 |
| Rsp.UnescapeEscape | models/gdbserver/rsp-packet-codec.cpp:23-48 | unescaping undoes escaping |
| Rsp.EscapeScans | models/gdbserver/rsp-packet-codec.cpp:50-69 | an escaped payload holds no unescaped hash and no open escape |
| Rsp.RoundTrip | models/gdbserver/rsp-packet-codec.cpp:293-317 | a receiver fed what is sent for a payload reports that payload once and is ready for the next |
| Rsp.ChecksumReads | models/gdbserver/rsp-packet-codec.cpp:71-82 | the two characters behind a packet are those that read, in lower-case hexadecimal and high digit first, as the modulo 256 sum of its bytes |
| Rsp.EscapeClean | models/gdbserver/rsp-packet-codec.cpp:116-171 | of the special characters only `}` is left in an escaped payload, and nothing but these is escaped |
| Rsp.EncodedIsPacket | models/gdbserver/rsp-packet-codec.cpp:293-317 | what is sent is `$`, an escaped body, `#` and two characters that read as the sum of the body |
| Rsp.PacketTells | models/gdbserver/rsp-packet-codec.cpp:185-291 | a packet is reported, unescaped, if its two characters read as the sum of its body, and as bad otherwise |
| Rsp.NoiseTells | models/gdbserver/rsp-packet-codec.cpp:198-226 | outside of packets each 0x03 is an interrupt, each `+` an acknowledgement, and nothing else means anything |
| Rsp.ForeignRoundTrip | models/gdbserver/rsp-packet-codec.cpp:23-69 | whatever a sender chooses to escape, `#` and `}` among it, the payload is reported |
| RspPacketCodec.Deescape | models/gdbserver/rsp-packet-codec.cpp:23-48 | computes the unescaped payload in place |
| RspPacketCodec.ScanForHash | models/gdbserver/rsp-packet-codec.cpp:50-69 | finds the first unescaped hash, keeping the escape state across slices |
| RspPacketCodec.VerifyChecksum | models/gdbserver/rsp-packet-codec.cpp:71-82 | accepts exactly the two characters that read, in lower-case hexadecimal, as the modulo 256 sum of the bytes |
| RspPacketCodec.EscapeInto | models/gdbserver/rsp-packet-codec.cpp:116-171 | computes the escaped payload and its checksum |
| RspPacketCodec.Encode | models/gdbserver/rsp-packet-codec.cpp:293-317 | appends what the two rounds of the copy loop take; this is the packet, `$`, body, `#` and the digits of its sum, exactly if it fits the block behind the tail; the answer is true also if the packet is as long as all that is free |
| RspPacketCodec.EncodeExact | models/gdbserver/rsp-packet-codec.cpp:293-317 | the packet goes out exactly if it fits the first free block; as many bytes as it has go out also if it fills both |
| RspPacketCodec.EncodeMisleads | models/gdbserver/rsp-packet-codec.cpp:316 | the answer is right exactly unless the packet exceeds the first free block and fills both |
| RspPacketCodec.EncodeGarbles | models/gdbserver/rsp-packet-codec.cpp:316 | the packet of the empty payload goes out garbled, and the answer is true |
| RspStream.FramedFeed | models/gdbserver/rsp-packet-codec.cpp:185-291 | where a receiver is, and what it has told, at every place in a packet |
| RspDecoding.BlockFits | models/gdbserver/rsp-packet-codec.cpp:233-258 | a block is copied within the packet buffer exactly if what has been collected and the block up to its first unescaped `#` fit |
| RspDecoding.BlockOverruns | models/gdbserver/rsp-packet-codec.cpp:233-258 | two characters where one has room are written past the buffer, with or without a `#` behind them |
| RspDecoding.GivesUpIff | models/gdbserver/rsp-packet-codec.cpp:252-257 | a packet is given up, and the user told so, exactly if it has reached 16384 bytes at the end of a block |
| RspStream.PacketFits | models/gdbserver/rsp-packet-codec.cpp:233-258 | however a packet is cut into slices the buffer suffices, exactly if its body is not longer than the buffer |
| RspStream.StreamFits | models/gdbserver/rsp-packet-codec.cpp:233-258 | a stream of packets below the limit, in any slices, never overruns the buffer |
| RspDecoding.DecodeReads | models/gdbserver/rsp-packet-codec.cpp:185-291 | decoding reads exactly up to the first digits behind a packet, and these if both are there and in one block, as a receiver does |
| RspDecoding.DecodeMeans | models/gdbserver/rsp-packet-codec.cpp:185-291 | decoding reports at most one packet or bad checksum, and ends with an empty ring, behind a report, or before digits it cannot read |
| RspPacketCodec.Codec.Step | models/gdbserver/rsp-packet-codec.cpp:192-291 | computes one step on the block at the head of the ring; the two checksum characters are read exactly if they lie in one block |
| RspPacketCodec.Codec.Decode | models/gdbserver/rsp-packet-codec.cpp:185-190 | terminates, and computes the steps as long as another is to follow |
| RspStream.StreamRead | models/gdbserver/rsp.cpp:94-123 | any stream of packets below the limit on their length, interrupts, acknowledgements and noise, in any slices: what has been read is a prefix, told as a receiver of it tells, and the rest is in the ring |
| RspStream.SliceRead | models/gdbserver/rsp.cpp:94-123 | how much of the ring is read when a slice arrives |
| RspStream.SliceLeaves | models/gdbserver/rsp.cpp:94-123 | what is left in the ring when a slice has been decoded |
| RspStream.LongRing | models/gdbserver/rsp.cpp:29-60 | in a ring at least as long as a packet, such as the server's, no slices of it straddle |
| RspStream.StuckIff | models/gdbserver/rsp-packet-codec.cpp:262-289 | a slice gets the decoder stuck exactly if it brings the first digit of a checksum into the last place of the ring |
| RspStream.RunSticks | models/gdbserver/rsp.cpp:94-123 | a run gets the decoder stuck exactly if one of its slices does |
| RspStream.StuckForever | models/gdbserver/rsp-packet-codec.cpp:262-289 | a stuck decoder reads and tells nothing any more |
| RspStream.PacketArrives | models/gdbserver/rsp.cpp:94-123 | a packet in any slices: what is left, what has been told, and whether the decoder is stuck, after each of them |
| RspStream.SecondWaits | models/gdbserver/rsp.cpp:94-123 | of two packets in one slice the second is reported when the next slice has arrived |
| RspStream.SecondSticks | models/gdbserver/rsp.cpp:94-123 | two packets, each shorter than the ring, after which the decoder is stuck in the second |
| RspPacketCodec.Receive | models/gdbserver/rsp.cpp:94-123 | computes one read from the socket |
| RspPacketCodec.ReceiveStream | models/gdbserver/rsp.cpp:94-123 | computes the reads of a stream in any slices that find room |
| RspPacketCodec.ReceiveAll | models/gdbserver/rsp.cpp:94-123 | what is sent for a payload, in any slices, is reported once, with the original payload and no error, exactly if no slice straddles, as in a ring at least as long as the packet; otherwise nothing is reported |
| PlicSpec.BestIsFirst | models/cpu/plic.cpp:220-247 | the scan finds the candidate of highest priority and then lowest id, and 0 exactly if there is none |
| PlicSpec.DrainOrder | models/cpu/plic.cpp:220-275 | claims in a row visit every pending unclaimed id in order of priority and then id |
| PlicSpec.ClaimsDrain | models/cpu/plic.cpp:263-275 | successive claims on the controller return that sequence, and then 0 |
| PlicSpec.ClaimKeeps | models/cpu/plic.cpp:263-275 | a claim keeps the invariant |
| PlicSpec.IrqKeeps | models/cpu/plic.cpp:159-196 | a line change keeps the invariant |
| PlicSpec.EnableKeeps | models/cpu/plic.cpp:314-348 | an enable write keeps the invariant |
| PlicSpec.CompleteKeeps | models/cpu/plic.cpp:380-389 | a completion keeps the invariant |
| PlicSpec.ReleasedBetween | models/cpu/plic.cpp:159-389 | two claims of one source by one context have a completion, a drop or a disable there between them |
| PlicSpec.AnyRun | models/cpu/plic.cpp:159-399 | in every run, in each context, claimed is pending is enabled, the wire shows whether a pending source is unclaimed, and claims of one source by that context are separated by a release |
| PlicEvents.HistoryDecides | models/cpu/plic.cpp:159-399 | in every run what is enabled, pending, at which priority, and claimed in each context, and all lines and registers, are what the history of lines, writes and claims says |
| PlicEvents.PendingSince | models/cpu/plic.cpp:159-348 | a pending source has the priority that its register had when the source was last made pending there, by its line or an enable write; still the register's, if that was not written since |
| PlicEvents.ClaimReturns | models/cpu/plic.cpp:220-275 | in every run a claim returns the source that awaits one with the highest such priority and then the lowest id, and 0 if none does |
| PlicEvents.WireShows | models/cpu/plic.cpp:249-261 | in every run the wire of a context shows whether a source awaits a claim there |
| PlicEvents.ClaimsInOrder | models/cpu/plic.cpp:220-275 | claims in a row return the sources that await one, each once, by these priorities and then by id; by what is in the priority registers, if these were not written since |
| PlicOwners.TwoContextsClaim | models/cpu/plic.cpp:263-348 | a run in which two contexts claim one source one after the other |
| PlicOwners.OwnersSeparate | models/cpu/plic.cpp:159-399 | if enable writes give no source to two contexts, claims of one source by any contexts are separated by a release, and pending is enabled with a high line |
| PlicOwners.ExclusiveIff | models/cpu/plic.cpp:159-399 | each of these holds in every run exactly if no source is given to two contexts |
| Plic.Controller.ContextBestPending | models/cpu/plic.cpp:220-247 | the nested scan over words and bits finds the best candidate |
| Plic.Controller.ContextUpdate | models/cpu/plic.cpp:249-261 | the wire shows whether there is a candidate |
| Plic.Controller.ContextClaim | models/cpu/plic.cpp:263-275 | computes the claim step |
| Plic.Controller.IrqSync | models/cpu/plic.cpp:159-196 | computes the line step: the first enabled context takes note, at the priority in the register, and no other |
| Plic.Controller.ContextEnableWrite | models/cpu/plic.cpp:314-348 | computes the enable step, bit by bit |
| Plic.Controller.ContextWrite | models/cpu/plic.cpp:365-399 | computes threshold and completion writes; other offsets fail and change nothing |
| Plic.Controller.PriorityWrite | models/cpu/plic.cpp:289-299 | computes the priority write |
| Interleaving.Bijection | models/interco/log_ico_v2.cpp:194-207 | every address is one byte of one bank, and every byte of a bank has one address |
| Interleaving.NextBank | models/interco/log_ico_v2.cpp:194-207 | granules that follow each other lie in banks that follow each other |
| LogIcoSpec.DecodeEncode | models/interco/log_ico_v2.cpp:194-207 | the decoding expressions are that bijection |
| LogIcoSpec.WinnerIsFirst | models/interco/log_ico_v2.cpp:209-228 | the winner is pending and no pending input comes before it cyclically |
| LogIcoSpec.RotateAndCount | models/interco/log_ico_v2.cpp:209-228 | rotating the 64-bit mask and counting trailing zeros finds that winner |
| LogIcoRuns.NoteKeeps | models/interco/log_ico_v2.cpp:235-276 | noting a denied request keeps mask bits equal to who wants the bank |
| LogIcoRuns.RoundKeeps | models/interco/log_ico_v2.cpp:278-313 | a round keeps that, and is scheduled again while anyone waits |
| LogIcoRuns.RoundServes | models/interco/log_ico_v2.cpp:278-313 | a round forwards a waiting input's request anew or brings the scan closer to it |
| LogIcoRuns.Fairness | models/interco/log_ico_v2.cpp:278-313 | an input that is waiting, whatever it was served before, is served at its address within the next nb_masters rounds, whatever the others request |
| LogIcoRuns.AskIsServed | models/interco/log_ico_v2.cpp:235-313 | an input that asks is served at the address it asked for within the next nb_masters rounds |
| LogIcoRuns.ServedOnce | models/interco/log_ico_v2.cpp:235-313 | in every run an input gets what it has asked for, each request once and in order, at the decoded bank and offset; only the last may be waiting |
| LogIcoRuns.OneABank | models/interco/log_ico_v2.cpp:278-313 | in a round each bank serves exactly one request if anyone wants it, and none otherwise |
| LogIcoV2.PickWinner | models/interco/log_ico_v2.cpp:209-228 | the bit expressions compute the winner |
| LogIcoV2.LogIco.InputReq | models/interco/log_ico_v2.cpp:235-276 | denied and noted outside of an election, forwarded to the decoded bank and offset within one |
| LogIcoV2.LogIco.Elect | models/interco/log_ico_v2.cpp:287-304 | a bank serves its winner and moves on behind it |
| LogIcoV2.LogIco.FsmHandler | models/interco/log_ico_v2.cpp:278-313 | computes the round: each bank with pending inputs serves one of them |
| Interleaver.PieceIsStored | models/interco/interleaver_impl.cpp:134-150 | writing a piece to its bank writes it to the flat memory, and nothing else |
| Interleaver.PieceIsLoaded | models/interco/interleaver_impl.cpp:134-150 | reading a piece from its bank reads it from the flat memory |
| Interleaver.Translation | models/interco/interleaver_impl.cpp:134-139 | the address expressions interleave |
| Interleaver.OnePerGranule | models/interco/interleaver_impl.cpp:122-184 | a request that succeeds has one answer of a bank for each granule it touches |
| Interleaver.SlowestIsLargest | models/interco/interleaver_impl.cpp:175-179 | the latency kept over the loop is the largest of the answers' latencies, or 0 |
| Interleaver.Interleaver.Req | models/interco/interleaver_impl.cpp:101-195 | a request has the effect it would have on one flat memory, all of it if it succeeds and a prefix if not; the log of the banks' answers grows by those to its pieces; on success its fields are restored and its latency is the largest of these answers; on failure the fields are left at the failing piece and the status follows its answer |
| Atomics.ShiftsExtend | models/memory/memory_v3.cpp:335-338 | shifting left and back extends the sign |
| Atomics.SubWord | models/memory/memory_v3.cpp:353-398 | computing on sign-extended registers and keeping the low bits is the n-bit operation |
| Atomics.OperateMeans | models/memory/memory_v3.cpp:386-398 | each operation by its bits, by the order of signed or unsigned numbers, or as a sum modulo the word |
| Atomics.SignedMeans | models/memory/memory_v3.cpp:335-338 | the signed value of a word is its two's complement |
| Atomics.WordBits | models/memory/memory_v3.cpp:346-351 | words lie in memory lowest byte first |
| Atomics.StoreKeeps | models/memory/memory_v3.cpp:365-385 | the reservation table holds everyone's reservation after a store-conditional |
| Atomics.SuccessIsExclusive | models/memory/memory_v3.cpp:361-385 | a store-conditional succeeds only on its initiator's last reservation, of its address, which no successful one has covered since |
| Atomics.UpperHalfStored | models/memory/memory_v3.cpp:365-385 | a store-conditional of eight bytes succeeds after another initiator has stored to the upper four |
| Atomics.IntactIff | models/memory/memory_v3.cpp:361-385 | in every run on given words no byte of a reserved word is stored to before its store-conditional succeeds, exactly if none of the words begins inside of another |
| MemoryV3.Memory.HandleRead | models/memory/memory_v3.cpp:318-332 | reads the bytes, zeros without power |
| MemoryV3.Memory.HandleWrite | models/memory/memory_v3.cpp:302-315 | replaces exactly these bytes, none without power |
| MemoryV3.Memory.GetSignedValue | models/memory/memory_v3.cpp:335-338 | extends the sign of a word |
| MemoryV3.Memory.HandleAtomic | models/memory/memory_v3.cpp:341-411 | the word becomes the n-bit operation on it and the operand, and the requester gets the old word; a store-conditional writes and answers 0 exactly if its reservation holds |
| MemoryV3.CombinedMeans | models/memory/memory_v3.cpp:341-411 | the word left in memory is the result of the operation on the words that the bytes hold |
| Memcheck.PlaceFits | models/memory/memory.cpp:857-859 | a buffer lies in its own part of the virtual range, with room on both sides for factors of 3 and more |
| Memcheck.PlaceCentred | models/memory/memory.cpp:857-859 | the room in front of a buffer is that behind it, or larger by its size if the factor is even |
| Memcheck.PlaceInverse | models/memory/memory.cpp:875-876 | the address computed on freeing is the one that was allocated |
| Memcheck.TurnedAwayIff | models/memory/memory.cpp:826-831 | a buffer is turned away exactly if it ends where the memory ends and the factor is less than 3 |
| Memcheck.OneBuffer | models/memory/memory.cpp:572-615 | an access that passes lies within one live buffer |
| Memcheck.Checker.IsValidAddress | models/memory/memory.cpp:468-474 | reads the flag of a virtual byte |
| Memcheck.Checker.BufferSetup | models/memory/memory.cpp:821-847 | sets or clears exactly the flags of the range |
| Memcheck.Checker.Alloc | models/memory/memory.cpp:852-868 | a virtual byte stays flagged exactly if it lies in a live buffer |
| Memcheck.Checker.Free | models/memory/memory.cpp:870-885 | undoes the allocation, and leaves the other buffers flagged |
| Memcheck.Checker.CheckBufferAccess | models/memory/memory.cpp:572-615 | faulty exactly if some byte lies in no live buffer |

## Left out

- Traces, signals, events for the GUI, power and statistics in every component: observation only.
- Reset in mid-flight, and the free lists of sub-requests.
- A master that calls back in from inside a response or a retry: such a call is modelled as the next one.
  Responses nested inside a request call are not modelled.
- Addresses that wrap around at 2^64; the 32-bit truncation of the cache's tags and refill addresses is
  modelled.
- A response that the splitter's outputs send for a chunk they do not hold, and likewise for the other
  components.
- Cache: accesses carry data; a bypassed request is answered by one response; written lines are not written
  back, as in the code; the set and way of a line are two indices instead of one.
- CacheV4.Cache.HandleReq: accesses that cross the end of a line, for which the code copies past the line's
  buffer, are excluded.
- CacheV4.Cache.InputReq: likewise.
- Beat adapter: the data pointer of a beat is an offset into its response; a request that is submitted again
  while in flight counts as a new one.
- ClockBridgeSpec.AnyRun: the cap on transactions in flight is stated for slaves that never answer
  `GRANTED`, since others hold requests that are in no queue.
- ClockBridgeSpec.RetryComes: the converse is stated for slaves that never answer `GRANTED`; with another
  one the retry may be sent after `depth` denials (`ClockBridge.RetryAfterGrant`).
- The pass-through mode of the clock bridge.
- RspPacketCodec.Codec.Step: the model's packet buffer grows, and says how far it has been written; what is
  behind the code's fixed buffer, and suffers from an overrun, is not modelled.
- RspStream.StreamRead: the streams are those without a packet of `MAX_LEN` or more bytes; whether such a
  packet is dropped depends on how the ring cuts it into blocks (`RspDecoding.BlockOverruns`).
- RspPacketCodec.Encode: without run lengths, as the server calls it; the decoder does not expand them.
- `read_copy` of the ring, sockets, threads and GDB commands.
- The register map of the interrupt controller; thresholds and priority 0 in its choice of a source, which
  the code ignores. A line that changes is noted by its first enabled context only, as in the code; a
  context that enables it later notes it then.
- LogIcoRuns.Fairness: counts arbitration rounds; masters ask again only for what they were denied.
- Interleaver.Interleaver.Req: base addresses are aligned to granules, offset translation is enabled and
  every output is bound; responses that come later are not modelled.
- Plain writes that break reservations, which the code does not do; the range check of the memory's
  requests.
- Memcheck: the initialisation shadow of the memory's bytes, and the search for the closest buffer that
  words a warning.
- DRAM and Verilator wrappers, stateless forwarders, and the first versions of the components.
