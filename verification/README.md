# ACCL: ring collectives, transfer engine and stream processors

ACCL runs MPI-style collectives on FPGAs. A small firmware on each rank works through a collective as a sequence of
buffer moves; a DMA engine cuts every message into segments, which travel as packets, land in a pool of spare buffers
filled by an interrupt handler, and are matched by source, length, tag and sequence number; HLS stream processors frame
the packets, hand them to the TCP stack with retries and credits, and sort what arrives by session. This project models
the three layers in Dafny and proves that they fit together.

**Layer 1, the collectives as a distributed protocol.** `Network` is a ring of ranks, each running a straight-line program
of moves, linked by one FIFO from every rank to its successor and stepping in any order. Its theorem `EveryRun` holds for
every program vector that has a *solution* (a consistent assignment of messages) and a causal clock: every run stays on
the solution, never gets stuck early, ends with empty links, and `OneOutcome` says that there is only one way to end.
Moreover every consistent cut through the programs is reached by some run (`CutIsReached`). `Lanes` and `LaneRuns` carry
all this over from whole messages to messages cut into segments. `Allreduce`, `Allgather`, `Gather` and `Reduce` contain
the firmware's loops as methods that list the moves, closed forms of those lists, and their solutions.
`Fold` connects the fold order of the ring with the sum in rank order. `InPlace` extends the results to calls whose
source and destination buffers coincide, and `ChunkSize` is about the arithmetic of the chunk length.

**Layer 2, one rank's engine.** `SpareBuffers.Pool` is the pool of receive buffers with its tag table, interrupt handler
and receive scan; arrivals and handler calls may come wherever interrupts are enabled. `PoolSteps` has its steps as a state
machine. `TransferEngine.Engine` is the windowed engine: DMA commands with four-bit tags, headers and acknowledgements, the
circular buffer of spare-buffer indices. `Moves` says what a list of transfers does to memory, and proves that it is what
the whole movement should do to the memory it starts with; a reduction streams its operands in segments, each by itself,
and `Elementwise` says when that is the operator along the whole operands. `OffchipCalls` are the firmware's calls, and `RoundRobin` and `RoundRobinReceive` the
round-robin collectives. The six windowed functions of the firmware differ only in where operand 1 comes from and where
the result goes, so they are one method, `Engine.Transfer`, of a `Job` with optional sender and receiver.

**Layer 3, the stream processors.** `RxHandler`, `TxHandler`, `Framing`, `ReduceArith` and `Multiplexor` hold the HLS
processes as classes and methods with the source's own states and registers; `MessageTable` is the sequential reference
against which the two processes of the multiplexor are proved, and `OutputWords` says what that reference writes, word by
word and destination by destination.

**The layers together.** `Composition.RunProgram` runs the moves of layer 1 on the engine of layer 2. `RingOfEngines` puts
a whole ring of such ranks together: the only thing said about the network is that a rank's packets are those its
predecessor put out, and every rank's memory then ends as the solution of the ring says; links on which the messages of
that solution arrive are such links. `RingAllreduce` and
`RingCollectives` draw the conclusion for each collective, all-reduce byte for byte, and `SpareRoom` joins the ring's
message counts to the pool: exactly how many spare buffers a gather or an all-gather needs.

Conventions. The operator stays abstract: a function on operands, neither associative nor commutative unless a theorem
says so. Bytes are `Segments.Byte`, sequence numbers and the packetizer's counters are taken modulo 2^32, `Times(n, S)` is
`n * S` (`Lanes.TimesIsProduct`), and the walks of `RingIndex` are the source's remainder expressions, by the lemmas of
that module. Error exits are values of `SpareBuffers.Code`. `Unfolding` explains the guard under which some invariants are
stated. What the code needs of its callers is a `requires`: two ranks or more, a positive transaction size, a window of 1
to 20 segments, spare buffers whose records fit the exchange memory, and buffers that fit in memory.

## Findings

Places where the code does not do what one would expect of it, each with an input and the exact condition.

| where | input | the code is right exactly when |
|---|---|---|
| all-reduce chunk length, `ccl_offload_control.c:1777-1781` | 24 bytes of 4-byte operands on 5 ranks leave 4 bytes out (`ChunkSize.CoverageFails`) | `len % size == 0` or `(len / size) % width != 0` (`ChunkSize.CoversIff`) |
| the driver's spare-buffer check, `cclo.py:601-603` and `627-629` | it counts elements, the firmware moves bytes: 2 ranks, 8 elements of 4 bytes, segments of 8 bytes and 2 buffers are admitted, though a block is 4 segments (`SpareRoom.DriverCheckFails`) and both buffers can be taken at once | elements are one byte wide (`SpareRoom.ElementsAreNotBytes`); for a single call of `n` ranks with `S` segments to a block, when there are more than `(n - 1) * S` buffers (`SpareRoom.AllgatherRoomIff`) |
| streaming reduction in segments, `ccl_offload_control.c:966-981` | two 8-byte integers in segments of 12 bytes: a carry from byte 11 to byte 12 is lost (`Elementwise.StreamingFails`) | the buffer is one segment, or the transaction size is a multiple of the operand width (`Elementwise.StreamsIff`); the default size, `0x7FFFFF`, is not, so this concerns reductions of more than 8 MB there |
| transmit requests, `tcp_txHandler.cpp:97-100` and `128-137` | a command of 64 KiB in packets of 64 KiB asks for 0 bytes each time, and no word ends the packet before the word counter has gone round (`TxHandler.LargePacketStalls`) | the command is empty, or its first packet is not and is shorter than 64 KiB (`TxHandler.StopsIff`), as with the 24 words to a packet that the firmware programs |
| `last` of the multiplexor, `pktMultiplexor.cpp:227-233` | a message of one packet | `last` is set at the end of messages of two packets or more, and of no others (`MessageTable.ResponseIsSessions`) |
| a miss of the multiplexor, `pktMultiplexor.cpp:227-229` | the first packet of a ninth message blocks the lookup for ever: the packets that would end a message and give its destination back are behind it | fewer than eight sessions have an unfinished message (`MessageTable.WaitsIff`, `Multiplexor.Mux.Run`) |
| message sizes in the multiplexor, `pktMultiplexor.cpp:315` and `tcp_packetizer.cpp:82-85` | it adds the second and the sixth field of the header; the packetizers put the length in the first and leave the sixth alone, so a message of 8 bytes with tag 3 is taken to be 3 bytes long (`MessageTable.SizeMisread`); no build of the repository connects the two | tag and sixth field add up to the length with its header (`MessageTable.SizeMissesLength`) |

## Model

| member | source | states |
|---|---|---|
| `Network.EveryRun` | kernel/fw/sw_apps/ccl_offload_control/src/ccl_offload_control.c:1619-1803 | in every interleaving of ranks that step through their programs, a run stays on the solution of the ring, has at most as many steps as there are moves, stops only when all moves are made, and then leaves every link empty and every memory as the solution says |
| `Network.OneOutcome` | kernel/fw/sw_apps/ccl_offload_control/src/ccl_offload_control.c:1619-1803 | a ring has one outcome: two solutions end in the same memories |
| `Network.ClosedSolves` | kernel/fw/sw_apps/ccl_offload_control/src/ccl_offload_control.c:1619-1803 | if every rank takes in what its predecessor sends, what travels is a solution of the ring |
| `Network.Finishes` | kernel/fw/sw_apps/ccl_offload_control/src/ccl_offload_control.c:1619-1803 | any run can be carried to its end |
| `Network.CutIsReached` | kernel/fw/sw_apps/ccl_offload_control/src/ccl_offload_control.c:1619-1803 | every consistent cut, no rank past a message its predecessor has not sent, is reached from any state that has not gone past it |
| `Network.StepKeepsInv` | kernel/fw/sw_apps/ccl_offload_control/src/ccl_offload_control.c:1619-1803 | each step of any rank keeps every rank on its timeline and every link equal to the messages sent and not yet taken, in order |
| `Network.SomeoneMoves` | kernel/fw/sw_apps/ccl_offload_control/src/ccl_offload_control.c:1619-1803 | as long as a rank is unfinished, some rank can step: no deadlock |
| `LaneRuns.EverySegmentedRun` | kernel/fw/sw_apps/ccl_offload_control/src/ccl_offload_control.c:798-928 | a ring whose messages are cut into S segments ends, under every interleaving of segment moves, segment by segment as the ring of whole messages |
| `LaneRuns.SegmentedCut` | kernel/fw/sw_apps/ccl_offload_control/src/ccl_offload_control.c:798-928 | the same for messages cut into segments |
| `Fold.FoldIsSum` | kernel/fw/sw_apps/ccl_offload_control/src/ccl_offload_control.c:1698-1803 | for an associative and commutative operator the ring fold from any rank is the sum in rank order |
| `RingIndex.NextIsRemainder` | kernel/fw/sw_apps/ccl_offload_control/src/ccl_offload_control.c:1630 | `(rank + 1) % size` is the next rank of the ring |
| `RingIndex.PrevIsRemainder` | kernel/fw/sw_apps/ccl_offload_control/src/ccl_offload_control.c:1631 | `(rank + size - 1) % size` is the previous rank |
| `RingIndex.DistanceIsRemainder` | kernel/fw/sw_apps/ccl_offload_control/src/ccl_offload_control.c:1650 | `(size + rank - root) % size` is the number of hops past the root |
| `RingIndex.WalkStep` | kernel/fw/sw_apps/ccl_offload_control/src/ccl_offload_control.c:1636 | one more `(pos + size - 1) % size` goes one hop further back |
| `Allreduce.ScatterReduce` | kernel/fw/sw_apps/ccl_offload_control/src/ccl_offload_control.c:1726-1763 | the loop of the reduce-scatter makes the first `size` moves of the closed form: chunk rank-1 first, then one hop further back at every step |
| `Allreduce.AllReduceShare` | kernel/fw/sw_apps/ccl_offload_control/src/ccl_offload_control.c:1766-1803 | the loop of the all-reduce makes exactly the 3 size - 2 moves of the closed form |
| `Allreduce.AllreduceSolves` | kernel/fw/sw_apps/ccl_offload_control/src/ccl_offload_control.c:1726-1803 | message k of rank r is partial chunk r-1-k for k <= N-2, then finished chunk r-(k-N+1) |
| `Allreduce.AllreduceCausal` | kernel/fw/sw_apps/ccl_offload_control/src/ccl_offload_control.c:1726-1803 | moves of equal number are causally ordered, and every rank takes as many messages as its predecessor sends |
| `Allreduce.TwiceRound` | kernel/fw/sw_apps/ccl_offload_control/src/ccl_offload_control.c:1726-1803 | each link carries exactly 2(N-1) chunk messages |
| `Allreduce.AllreduceCorrect` | kernel/fw/sw_apps/ccl_offload_control/src/ccl_offload_control.c:1766-1803 | after any complete interleaving every rank holds, in every segment of every chunk c, `src[c] op (src[c-1] op (... op src[c+1]))`, the same on all ranks for any operator, and the sum in rank order for an associative and commutative one; no link holds a message |
| `Allreduce.EveryAllreduceRun` | kernel/fw/sw_apps/ccl_offload_control/src/ccl_offload_control.c:1726-1803 | every run of the reduce-scatter or all-reduce keeps the link invariant, can always go on, and ends with empty links |
| `Allreduce.ReduceScatterCorrect` | kernel/fw/sw_apps/ccl_offload_control/src/ccl_offload_control.c:1726-1763 | after the reduce-scatter rank r holds the finished chunk r in its own place |
| `Allgather.AllgatherRing` | kernel/fw/sw_apps/ccl_offload_control/src/ccl_offload_control.c:1662-1695 | the loop makes the 2 size - 1 moves of the closed form |
| `Allgather.AllgatherCorrect` | kernel/fw/sw_apps/ccl_offload_control/src/ccl_offload_control.c:1662-1695 | after any complete interleaving every rank holds the block of rank c at block c of its destination, and no link holds a message |
| `Allgather.AllgatherSolves` | kernel/fw/sw_apps/ccl_offload_control/src/ccl_offload_control.c:1662-1695 | the k-th message from a rank r is the block that originates at r-k |
| `Allgather.AllQueueUp` | kernel/fw/sw_apps/ccl_offload_control/src/ccl_offload_control.c:1662-1695 | before a rank has begun, all blocks but its own can be waiting on its link |
| `Allgather.SpareBuffersSuffice` | driver/pynq/cclo.py:627-629 | under the driver's check the segments a rank was ever sent leave room for one more block |
| `Gather.GatherRing` | kernel/fw/sw_apps/ccl_offload_control/src/ccl_offload_control.c:1619-1659 | the loops make the moves of the closed form: the root walks back over all ranks, another rank sends its block and relays |
| `Gather.GatherCorrect` | kernel/fw/sw_apps/ccl_offload_control/src/ccl_offload_control.c:1619-1659 | after any complete interleaving the root holds the block of rank c at block c of its destination, for any root, and no link holds a message |
| `Gather.GatherSolves` | kernel/fw/sw_apps/ccl_offload_control/src/ccl_offload_control.c:1619-1659 | the k-th message from the predecessor originates at prev-k |
| `Gather.SendsItsDistance` | kernel/fw/sw_apps/ccl_offload_control/src/ccl_offload_control.c:1648-1656 | a rank d hops past the root sends exactly d messages, the root none |
| `Gather.AllQueueUp` | kernel/fw/sw_apps/ccl_offload_control/src/ccl_offload_control.c:1619-1659 | before a rank has begun, all blocks it is ever to be sent can be waiting on its link |
| `Gather.SpareBuffersSuffice` | driver/pynq/cclo.py:601-603 | under the driver's check the segments a rank was ever sent leave room for one more block |
| `Reduce.ReduceRingStreaming` | kernel/fw/sw_apps/ccl_offload_control/src/ccl_offload_control.c:1698-1722 | each rank makes the one move of its role |
| `Reduce.ReduceCorrect` | kernel/fw/sw_apps/ccl_offload_control/src/ccl_offload_control.c:1698-1722 | after any complete interleaving the root holds exactly `src[root] op (src[root-1] op (... op src[root+1]))`, each rank once, for any root and operator; the sum for an associative and commutative one |
| `ChunkSize.RoundsUp` | kernel/fw/sw_apps/ccl_offload_control/src/ccl_offload_control.c:1777-1781 | the 32-bit arithmetic does not wrap: the chunk is the share rounded up to whole operands |
| `ChunkSize.WholeOperands` | kernel/fw/sw_apps/ccl_offload_control/src/ccl_offload_control.c:1777-1781 | the chunk length is a multiple of the operand width |
| `ChunkSize.OperandWidths` | kernel/fw/sw_apps/ccl_offload_control/src/ccl_offload_control.c:167-180 | the four functions have operands of 4, 8, 4 and 8 bytes, which fill 64-byte words, and chunks that are shares rounded up to whole operands; any other function makes chunks of 2^32 - 1 bytes |
| `ChunkSize.CoversIff` | kernel/fw/sw_apps/ccl_offload_control/src/ccl_offload_control.c:1777-1781 | the chunks cover the buffer if and only if the division left nothing over or the rounding added an operand; they never overshoot by more than size * (width - 1) |
| `ChunkSize.CoverageFails` | kernel/fw/sw_apps/ccl_offload_control/src/ccl_offload_control.c:1777-1781 | 24 bytes of 4-byte operands on 5 ranks are not covered |
| `ChunkSize.CoversWhenFewRanks` | kernel/fw/sw_apps/ccl_offload_control/src/ccl_offload_control.c:1777-1781 | whole operands are covered when there are at most `width` ranks or the ranks divide the length |
| `ChunkSize.EveryByteHasAChunk` | kernel/fw/sw_apps/ccl_offload_control/src/ccl_offload_control.c:1777-1781 | every byte lies in one of the chunks if and only if they cover the buffer |
| `InPlace.OverlaySolves` | kernel/fw/sw_apps/ccl_offload_control/src/ccl_offload_control.c:1726-1803 | when source cells are not read after the destination cell on them is written, nor destination cells before, a call on overlaid buffers has the solutions of the call on separate ones |
| `InPlace.SameCell` | kernel/fw/sw_apps/ccl_offload_control/src/ccl_offload_control.c:1726-1803 | and every destination cell written ends with the same value |
| `Segments.SlicesRoundTrip` | kernel/fw/sw_apps/ccl_offload_control/src/ccl_offload_control.c:798-858 | the segments put end to end are the buffer, and have the lengths the loop counts off |
| `Segments.FullButLast` | kernel/hls/tcp_intf/tcp_txHandler.cpp:128-137 | every packet but the last has the full length |
| `Segments.CutTotal` | kernel/hls/tcp_intf/tcp_txHandler.cpp:122-137 | the packet lengths add up to the bytes commanded |
| `Elementwise.WholeOfPieces` | kernel/fw/sw_apps/ccl_offload_control/src/ccl_offload_control.c:966-981 | an operator along two buffers in pieces that end on operands is the operator along the whole buffers |
| `Elementwise.OperandAt` | kernel/hls/arith/reduce_arith.cpp:43-53 | byte j of an operand of the result is that byte of the operator on the two operands in its place, the left one first |
| `Elementwise.StreamedAt` | kernel/fw/sw_apps/ccl_offload_control/src/ccl_offload_control.c:966-981 | and streamed, byte j of a segment is that byte of the operator along the two segments |
| `Elementwise.PiecesAreWhole` | kernel/fw/sw_apps/ccl_offload_control/src/ccl_offload_control.c:966-981 | streaming a buffer in segments is the operator along the whole buffer, if it is one segment or segments are whole operands |
| `Elementwise.StreamsIff` | kernel/fw/sw_apps/ccl_offload_control/src/ccl_offload_control.c:966-981 | and only then: that is so for every operator of a width if and only if it is so for the integer sum, if and only if the buffer is one segment or segments are whole operands |
| `Elementwise.StreamingFails` | kernel/fw/sw_apps/ccl_offload_control/src/ccl_offload_control.c:966-981 | 16 bytes of 8-byte integers in segments of 12 bytes lose a carry |
| `Elementwise.SumIsSum` | kernel/hls/arith/reduce_arith.cpp:46-53 | the integer sum, byte by byte with carries, is the sum of the numbers up to what does not fit the operand |
| `Elementwise.AlignedIsMultiple` | kernel/fw/sw_apps/ccl_offload_control/src/ccl_offload_control.c:1777-1781 | whole operands means a multiple of the width |
| `Moves.RunStores` | kernel/fw/sw_apps/ccl_offload_control/src/ccl_offload_control.c:798-858 | transfers into memory, one segment after the other, write exactly the result of streaming the movement's operands, computed from the memory it started with |
| `Moves.RunSends` | kernel/fw/sw_apps/ccl_offload_control/src/ccl_offload_control.c:860-928 | transfers to the network, one segment after the other, put out exactly the segments of the result of streaming the movement's operands |
| `Moves.StreamIsPass` | kernel/fw/sw_apps/ccl_offload_control/src/ccl_offload_control.c:966-981 | that result is the operator on the whole operands when they are cut at operands |
| `Moves.RunOut` | kernel/fw/sw_apps/ccl_offload_control/src/ccl_offload_control.c:860-928 | transfers to the network put out one packet each and leave memory alone |
| `DmaTags.CommandsSnoc` | kernel/fw/sw_apps/ccl_offload_control/src/ccl_offload_control.c:688-724 | a transfer adds one command, with the next four-bit tag, at the end of each channel in use: DMA0 is told the address of operand 0 exactly when the path reduces, DMA1 that of operand 1, and DMA1_TX that of the result exactly when it is stored |
| `DmaTags.ToldIs` | kernel/fw/sw_apps/ccl_offload_control/src/ccl_offload_control.c:688-724 | the oldest commands of the channels not yet served, taken together, tell the DMA to carry out just the transfer they were given for |
| `SpareBuffers.TagsAreABijection` | kernel/fw/sw_apps/ccl_offload_control/src/ccl_offload_control.c:608-685 | counter, enqueued buffers and tags in use agree and are at most sixteen; tag t is assigned buffer i if and only if i is enqueued with tag t |
| `SpareBuffers.FreeTag` | kernel/fw/sw_apps/ccl_offload_control/src/ccl_offload_control.c:616-622 | a tag is free if and only if fewer than sixteen are in use: the "no free tag" return is never taken |
| `SpareBuffers.EnqueueKeeps` | kernel/fw/sw_apps/ccl_offload_control/src/ccl_offload_control.c:625-630 | handing a buffer to the DMA keeps the invariant of the pool |
| `SpareBuffers.ArriveKeeps` | kernel/fw/sw_apps/ccl_offload_control/src/ccl_offload_control.c:183-207 | a packet that lands in the buffer the oldest command names keeps it |
| `SpareBuffers.CollectKeeps` | kernel/fw/sw_apps/ccl_offload_control/src/ccl_offload_control.c:658-680 | collecting a completion passes every test and keeps it; the buffer becomes reserved and the tag free |
| `SpareBuffers.MatchIsNext` | kernel/fw/sw_apps/ccl_offload_control/src/ccl_offload_control.c:1075-1084 | a buffer that matches the expected sequence number holds the next packet of that source, though numbers wrap at 2^32, and is not in the window: it is never matched twice |
| `SpareBuffers.MatchKeeps` | kernel/fw/sw_apps/ccl_offload_control/src/ccl_offload_control.c:1075-1084 | taking it keeps the invariant |
| `SpareBuffers.FreeKeeps` | kernel/fw/sw_apps/ccl_offload_control/src/ccl_offload_control.c:1159-1164 | handing the oldest buffer of the window back keeps the invariant |
| `SpareBuffers.StaysLanded` | kernel/fw/sw_apps/ccl_offload_control/src/ccl_offload_control.c:1065-1094 | a packet that has landed stays in its buffer until it is taken, though numbers wrap at 2^32 |
| `SpareBuffers.LandedOn` | kernel/fw/sw_apps/ccl_offload_control/src/ccl_offload_control.c:1065-1094 | when the next packet has been taken, the others that had landed are still there |
| `SpareBuffers.FindFreeTag` | kernel/fw/sw_apps/ccl_offload_control/src/ccl_offload_control.c:620 | the search finds the first free tag |
| `SpareBuffers.Pool.constructor` | kernel/fw/sw_apps/ccl_offload_control/src/ccl_offload_control.c:1838-1863 | a pool of idle buffers satisfies the invariant |
| `SpareBuffers.Pool.EnqueueOne` | kernel/fw/sw_apps/ccl_offload_control/src/ccl_offload_control.c:620-630 | one idle buffer becomes enqueued under the first free tag, and the DMA is told that tag and that buffer |
| `SpareBuffers.Pool.EnqueueRxBuffers` | kernel/fw/sw_apps/ccl_offload_control/src/ccl_offload_control.c:608-635 | idle buffers become enqueued, and nothing else changes, until none is idle or all sixteen tags are out; commands go behind those the DMA has |
| `SpareBuffers.Pool.ReadStatus` | kernel/fw/sw_apps/ccl_offload_control/src/ccl_offload_control.c:658-680 | the whole new state after a completion, by way of the error status: the header recorded, the tag returned, and the buffer reserved if the checks pass; a buffer that is not enqueued under the tag is left alone |
| `SpareBuffers.StatusPasses` | kernel/fw/sw_apps/ccl_offload_control/src/ccl_offload_control.c:239-267 | a status is accepted if and only if tag and flags are right and, where bytes are counted, their number and the end of the packet; otherwise the first test that fails is reported |
| `SpareBuffers.DequeuePasses` | kernel/fw/sw_apps/ccl_offload_control/src/ccl_offload_control.c:661-679 | a completion is collected if and only if its buffer is enqueued under its tag and the status passes for the length in the header |
| `SpareBuffers.Pool.DequeueOne` | kernel/fw/sw_apps/ccl_offload_control/src/ccl_offload_control.c:658-680 | the oldest completion is collected, and no error exit is taken |
| `SpareBuffers.Pool.DequeueRxBuffers` | kernel/fw/sw_apps/ccl_offload_control/src/ccl_offload_control.c:638-685 | all completions are collected, oldest first, enqueued buffers become reserved, and none of the five error exits is taken |
| `SpareBuffers.Pool.Arrive` | kernel/fw/sw_apps/ccl_offload_control/src/ccl_offload_control.c:183-207 | a packet that can be delivered fills the buffer of the oldest command, which is reported, and touches no other; one that cannot changes nothing |
| `SpareBuffers.Pool.StreamIsr` | kernel/fw/sw_apps/ccl_offload_control/src/ccl_offload_control.c:183-207 | afterwards no buffer is idle or all sixteen tags are out; with the status line up, all completions pending before are reserved buffers holding their packets, none is left, and every packet that has arrived and was not taken is in a reserved buffer; reserved buffers are left alone |
| `SpareBuffers.Pool.ArrivedLands` | kernel/fw/sw_apps/ccl_offload_control/src/ccl_offload_control.c:183-195 | so one call of the handler makes a packet that has arrived one that `LandedMatches` says the scan finds |
| `SpareBuffers.Pool.Interrupts` | kernel/fw/sw_apps/ccl_offload_control/src/ccl_offload_control.c:1073-1089 | any number of arrivals and handler calls, in any order, leave reserved buffers alone |
| `SpareBuffers.Pool.Take` | kernel/fw/sw_apps/ccl_offload_control/src/ccl_offload_control.c:1079-1085 | the matched buffer goes to the end of the window and the sequence number advances |
| `SpareBuffers.Pool.Examine` | kernel/fw/sw_apps/ccl_offload_control/src/ccl_offload_control.c:1074-1088 | one buffer of the scan, interrupts enabled before it |
| `SpareBuffers.Pool.TryReceive` | kernel/fw/sw_apps/ccl_offload_control/src/ccl_offload_control.c:1057-1091 | the scan returns the next packet of the source with the length and tag asked for, or nothing has changed and no buffer matched when it began |
| `SpareBuffers.Pool.WaitReceive` | kernel/fw/sw_apps/ccl_offload_control/src/ccl_offload_control.c:1096-1109 | the same over several scans; a receive whose next packet has landed with the right length and tag succeeds |
| `SpareBuffers.Pool.LandedMatches` | kernel/fw/sw_apps/ccl_offload_control/src/ccl_offload_control.c:1073-1089 | a landed next packet is one the scan finds |
| `SpareBuffers.Pool.WindowHolds` | kernel/fw/sw_apps/ccl_offload_control/src/ccl_offload_control.c:1124-1194 | the k-th buffer of the window is reserved and holds the k-th of the packets taken last |
| `SpareBuffers.Pool.Free` | kernel/fw/sw_apps/ccl_offload_control/src/ccl_offload_control.c:1159-1164 | only the oldest buffer of the window becomes idle |
| `SpareRoom.OpenBuffers` | driver/pynq/cclo.py:601-603 | idle and enqueued buffers together with the packets of the call number at least all buffers |
| `PoolSteps.StepKeepsSound` | kernel/fw/sw_apps/ccl_offload_control/src/ccl_offload_control.c:608-685 | every step of the firmware, the handler and the network keeps the invariant of the pool |
| `PoolSteps.StepKeepsBegan` | kernel/fw/sw_apps/ccl_offload_control/src/ccl_offload_control.c:1065-1166 | and keeps what is said of the call under way: packets taken since it began, and the window among them |
| `PoolSteps.FillUp` | kernel/fw/sw_apps/ccl_offload_control/src/ccl_offload_control.c:608-685 | as many packets as there are open buffers, collected and not taken, leave none open |
| `SpareRoom.SegmentsOfBlock` | driver/pynq/cclo.py:601 | a block of `count` bytes is `(count + segment - 1) / segment` segments |
| `SpareRoom.AllgatherHasRoom` | driver/pynq/cclo.py:627-629 | under the driver's check, at every moment of every run of an all-gather, with any steps of the pool, every rank has idle or enqueued buffers for one more whole block |
| `SpareRoom.GatherHasRoom` | driver/pynq/cclo.py:601-603 | the same for a gather |
| `SpareRoom.AllgatherRoomIff` | driver/pynq/cclo.py:627-629 | a rank always has an idle or enqueued buffer if and only if there are more than (n-1) * S of them |
| `SpareRoom.GatherRoomIff` | driver/pynq/cclo.py:601-603 | if and only if there are more buffers than segments in the blocks its predecessor sends |
| `SpareRoom.ElementsAreNotBytes` | driver/pynq/cclo.py:601-603 | a check that counts elements admits only calls with room, for all sizes, if and only if elements are at most one byte wide |
| `SpareRoom.DriverCheckFails` | driver/pynq/cclo.py:601-603 | 2 ranks, 8 elements of 4 bytes, segments of 8 bytes, 2 buffers: admitted without room |
| `TransferEngine.IndicesFit` | kernel/fw/sw_apps/ccl_offload_control/src/ccl_offload_control.h:343-361 | the exchange memory has room for at most 113 buffer records, so eight bits keep every index |
| `TransferEngine.SlotIsRemainder` | kernel/fw/sw_apps/ccl_offload_control/src/ccl_offload_control.c:1147 | the circular buffer's `% max_dma_in_flight` |
| `TransferEngine.RingPush` | kernel/fw/sw_apps/ccl_offload_control/src/ccl_offload_control.c:1145-1147 | a buffer index enters the circular buffer without overwriting one that is still in the window |
| `TransferEngine.RingPop` | kernel/fw/sw_apps/ccl_offload_control/src/ccl_offload_control.c:1160-1161 | indices leave in the order in which they entered |
| `TransferEngine.MoveOn` | kernel/fw/sw_apps/ccl_offload_control/src/ccl_offload_control.c:819-856 | issuing the next segment keeps: done, in flight and still to come make up the plan, and issued and acknowledged lengths agree position by position |
| `TransferEngine.AckOn` | kernel/fw/sw_apps/ccl_offload_control/src/ccl_offload_control.c:819-856 | acknowledging the oldest segment keeps it, with the length the loop computes |
| `TransferEngine.AnswerDue` | kernel/fw/sw_apps/ccl_offload_control/src/ccl_offload_control.c:472-490 | the oldest unanswered header carries the sequence number expected next |
| `TransferEngine.AnnounceNext` | kernel/fw/sw_apps/ccl_offload_control/src/ccl_offload_control.c:437-468 | a header sent while a window less one of packets awaits acknowledgement carries the number its position demands |
| `TransferEngine.Engine.constructor` | kernel/fw/sw_apps/ccl_offload_control/src/ccl_offload_control.c:1838-1863 | an engine with nothing in flight is ready |
| `TransferEngine.Engine.StartDma` | kernel/fw/sw_apps/ccl_offload_control/src/ccl_offload_control.c:688-724 | one command for each channel in use, with the next tag, the length, and the address that channel is for; the others get nothing |
| `TransferEngine.Engine.Land` | kernel/fw/sw_apps/ccl_offload_control/src/ccl_offload_control.c:695-721 | memory and network change as the lengths and addresses in the channels say, and that is what the next transfer promised makes of them |
| `TransferEngine.Engine.AckDma` | kernel/fw/sw_apps/ccl_offload_control/src/ccl_offload_control.c:726-777 | succeeds if and only if the status of every channel in use carries the next tag, no error bit and, from DMA1_TX, the end of a packet and the right number of bytes |
| `TransferEngine.ServedInOrder` | kernel/fw/sw_apps/ccl_offload_control/src/ccl_offload_control.c:726-777 | with channels that serve their commands in order the tag, length and status checks never fail, though tags repeat within a window |
| `TransferEngine.Engine.StartMessage` | kernel/fw/sw_apps/ccl_offload_control/src/ccl_offload_control.c:437-468 | one header per segment, at most a window of them, numbered consecutively |
| `TransferEngine.Engine.AckPacketizer` | kernel/fw/sw_apps/ccl_offload_control/src/ccl_offload_control.c:472-490 | the answer is accepted if and only if it carries the next number of that rank |
| `TransferEngine.Engine.Fetch` | kernel/fw/sw_apps/ccl_offload_control/src/ccl_offload_control.c:1141-1147 | the next packet is found while others keep arriving; the buffers being read do not change |
| `TransferEngine.Engine.Issue` | kernel/fw/sw_apps/ccl_offload_control/src/ccl_offload_control.c:1137-1152 | one more segment of the plan is announced if need be and in flight, never more than a window of them |
| `TransferEngine.Engine.Release` | kernel/fw/sw_apps/ccl_offload_control/src/ccl_offload_control.c:1159-1164 | the oldest buffer of the window, and no other, is handed back |
| `TransferEngine.Engine.Acknowledge` | kernel/fw/sw_apps/ccl_offload_control/src/ccl_offload_control.c:472-490 | the packet of a finished segment is acknowledged without a sequence error |
| `TransferEngine.Engine.Retire` | kernel/fw/sw_apps/ccl_offload_control/src/ccl_offload_control.c:1155-1165 | the oldest segment is acknowledged by DMA, packetizer and pool, with the length counted off by the loop |
| `TransferEngine.Engine.Fill` | kernel/fw/sw_apps/ccl_offload_control/src/ccl_offload_control.c:1137-1152 | the first loop fills the window |
| `TransferEngine.Engine.Slide` | kernel/fw/sw_apps/ccl_offload_control/src/ccl_offload_control.c:1154-1180 | the second loop acknowledges one segment and issues the next until all are issued |
| `TransferEngine.Engine.Drain` | kernel/fw/sw_apps/ccl_offload_control/src/ccl_offload_control.c:1182-1194 | the third loop acknowledges the rest |
| `TransferEngine.Engine.Transfer` | kernel/fw/sw_apps/ccl_offload_control/src/ccl_offload_control.c:860-928 | a windowed function does exactly what the simple list of its segments does, in order, whatever the window; headers are numbered consecutively and acknowledged; the only failure is a packet that does not come |
| `TransferEngine.Engine.WholeTransfer` | kernel/fw/sw_apps/ccl_offload_control/src/ccl_offload_control.c:798-928 | the result stored or sent is that of streaming the operands the movement starts with; if all packets to come have landed, the call succeeds, and packets landed behind them are still there |
| `OffchipCalls.DmaLoopback` | kernel/fw/sw_apps/ccl_offload_control/src/ccl_offload_control.c:933-942 | a copy in memory |
| `OffchipCalls.ReduceLoopback` | kernel/fw/sw_apps/ccl_offload_control/src/ccl_offload_control.c:966-981 | the operator on two buffers in memory, as streamed; the result may replace either |
| `OffchipCalls.ReducedIsWhole` | kernel/fw/sw_apps/ccl_offload_control/src/ccl_offload_control.c:966-981 | streamed operators are operators on the whole buffers when these are one segment or segments are whole operands |
| `OffchipCalls.TransmitOffchip` | kernel/fw/sw_apps/ccl_offload_control/src/ccl_offload_control.c:994-1003 | the segments of the buffer go out, each behind its header |
| `OffchipCalls.ReduceOffchip` | kernel/fw/sw_apps/ccl_offload_control/src/ccl_offload_control.c:1020-1034 | the segments of the operator's result go out |
| `OffchipCalls.ReceiveOffchip` | kernel/fw/sw_apps/ccl_offload_control/src/ccl_offload_control.c:1112-1196 | the destination becomes the payloads of the next packets of the source, all of them and no others, cut as the receiver expects |
| `OffchipCalls.ReceiveAndAccumulate` | kernel/fw/sw_apps/ccl_offload_control/src/ccl_offload_control.c:1201-1287 | the destination becomes the operator on the local buffer, to the left, and what arrived |
| `OffchipCalls.RelayToOtherRank` | kernel/fw/sw_apps/ccl_offload_control/src/ccl_offload_control.c:1395-1486 | what arrived goes out again, and memory is untouched |
| `OffchipCalls.ReceiveAndReduceOffchip` | kernel/fw/sw_apps/ccl_offload_control/src/ccl_offload_control.c:1295-1392 | the operator on the local buffer and what arrived goes out |
| `OffchipCalls.HeadersMatchPayloads` | kernel/fw/sw_apps/ccl_offload_control/src/ccl_offload_control.c:437-468 | every header announces the length of its own payload, and numbers are consecutive modulo 2^32 |
| `OffchipCalls.SendReceive` | kernel/fw/sw_apps/ccl_offload_control/src/ccl_offload_control.c:1112-1196 | a send and a receive make the destination equal to the source, whatever order the packets reach the spare buffers in; headers are the ones the receiver looks for, the counters agree afterwards, and a receive whose packets have landed succeeds |
| `RoundRobin.RoundOrder` | kernel/fw/sw_apps/ccl_offload_control/src/ccl_offload_control.c:1534-1545 | the headers of a round stand in ascending order of ranks, where the acknowledgement loop looks for them |
| `RoundRobin.MovementSingle` | kernel/fw/sw_apps/ccl_offload_control/src/ccl_offload_control.c:779-793 | one transfer to the network |
| `RoundRobin.SendSegment` | kernel/fw/sw_apps/ccl_offload_control/src/ccl_offload_control.c:1537-1538 | one segment to one rank behind its header |
| `RoundRobin.SendRound` | kernel/fw/sw_apps/ccl_offload_control/src/ccl_offload_control.c:1534-1539 | a round sends every other rank its next segment |
| `RoundRobin.AckRound` | kernel/fw/sw_apps/ccl_offload_control/src/ccl_offload_control.c:1541-1545 | its acknowledgements, in ascending order, all match |
| `RoundRobin.SendRounds` | kernel/fw/sw_apps/ccl_offload_control/src/ccl_offload_control.c:1529-1549 | all rounds together send every other rank its whole share as one message, and nothing else |
| `RoundRobin.MessagePayloads` | kernel/fw/sw_apps/ccl_offload_control/src/ccl_offload_control.c:1512-1553 | the payloads of a message put end to end are its buffer |
| `RoundRobin.Broadcast` | kernel/fw/sw_apps/ccl_offload_control/src/ccl_offload_control.c:1512-1550 | every other rank is sent the whole buffer, in order, with consecutive sequence numbers, all acknowledged |
| `RoundRobin.Scatter` | kernel/fw/sw_apps/ccl_offload_control/src/ccl_offload_control.c:1558-1611 | rank i is sent bytes [i*len, (i+1)*len), and the root keeps its own share |
| `RoundRobinReceive.BroadcastTo` | kernel/fw/sw_apps/ccl_offload_control/src/ccl_offload_control.c:1551-1553 | a receiver of the root's packets ends with the whole buffer, and the two stay in step; it succeeds if the packets have landed |
| `RoundRobinReceive.ScatterTo` | kernel/fw/sw_apps/ccl_offload_control/src/ccl_offload_control.c:1612-1614 | a receiver of the root's packets ends with its own share; it succeeds if the packets have landed |
| `Composition.Perform` | kernel/fw/sw_apps/ccl_offload_control/src/ccl_offload_control.c:1619-1803 | each move of a ring collective is what the firmware's call for it does to memory and network; only a receiving move can time out, and not if its packets have landed |
| `Composition.RunProgram` | kernel/fw/sw_apps/ccl_offload_control/src/ccl_offload_control.c:1619-1803 | whatever a rank's packets are, its memory ends as its program leaves it when fed the messages they amount to, and it puts out the segments of the messages the program then sends; a program that receives nothing always succeeds, and one that receives does if the packets of all its messages have landed when it starts |
| `Composition.MessageOpIsWhole` | kernel/fw/sw_apps/ccl_offload_control/src/ccl_offload_control.c:966-981 | for messages cut at operands the operator of the network is the operator along the whole message |
| `RingOfEngines.HeardIsSent` | kernel/fw/sw_apps/ccl_offload_control/src/ccl_offload_control.c:860-928 | packets put out in equal blocks are put together into the messages they came from |
| `RingOfEngines.Outcome` | kernel/fw/sw_apps/ccl_offload_control/src/ccl_offload_control.c:1619-1803 | when all ranks have finished and links carried what was put out on them, every memory is what the solution of the ring says |
| `RingOfEngines.SolutionCarries` | kernel/fw/sw_apps/ccl_offload_control/src/ccl_offload_control.c:860-928 | if the packets that reach each rank are those of the messages of the ring's solution, every link carries what is put out on it |
| `RingOfEngines.RunRing` | kernel/fw/sw_apps/ccl_offload_control/src/ccl_offload_control.c:1619-1803 | the same for the ranks' engines run: segments, headers, tags, spare buffers and interrupts leave no trace; no rank gives up that receives nothing, or whose packets have landed |
| `RingAllreduce.AllreduceOnRing` | kernel/fw/sw_apps/ccl_offload_control/src/ccl_offload_control.c:1766-1803 | on every rank each byte of the destination is that byte of the fold of the chunk it lies in, when the chunks cover the buffer; the call succeeds if every rank's packets have landed |
| `RingAllreduce.AllreduceInPlaceOnRing` | kernel/fw/sw_apps/ccl_offload_control/src/ccl_offload_control.c:1766-1803 | the same when source and destination are one buffer; the call succeeds if every rank's packets have landed |
| `RingAllreduce.CarefulProgram` | kernel/fw/sw_apps/ccl_offload_control/src/ccl_offload_control.c:1726-1803 | no rank reads a source chunk after the destination chunk on it was written, or a destination chunk before |
| `RingAllreduce.LiesAtQuotient` | kernel/fw/sw_apps/ccl_offload_control/src/ccl_offload_control.c:1777-1781 | byte b lies in chunk b / chunk at offset b % chunk |
| `RingCollectives.GatherOnRing` | kernel/fw/sw_apps/ccl_offload_control/src/ccl_offload_control.c:1619-1659 | engines that run a gather leave every rank's block in its place at the root; the call succeeds if every rank's packets have landed |
| `RingCollectives.AllgatherOnRing` | kernel/fw/sw_apps/ccl_offload_control/src/ccl_offload_control.c:1662-1695 | engines that run an all-gather leave every block in its place on every rank; the call succeeds if every rank's packets have landed |
| `RingCollectives.ReduceOnRing` | kernel/fw/sw_apps/ccl_offload_control/src/ccl_offload_control.c:1698-1722 | engines that run a reduce leave the fold at the root; the call succeeds if every rank's packets have landed |
| `ReduceArith.SumWord` | kernel/hls/arith/reduce_arith.cpp:43-53 | the inner loop computes the operator along one word |
| `ReduceArith.ElementwiseSum` | kernel/hls/arith/reduce_arith.cpp:36-59 | `count` words in, `count` words out: the operator along the whole streams |
| `ReduceArith.ArithCountsSegments` | kernel/fw/sw_apps/ccl_offload_control/src/ccl_offload_control.c:132-139 | the word count programmed is the sum of the words of the segments issued, each rounded up |
| `ReduceArith.SegmentsPad` | kernel/fw/sw_apps/ccl_offload_control/src/ccl_offload_control.c:132-139 | it is at least the words of the buffer, and equal when segments are whole words |
| `RxHandler.Handler.constructor` | kernel/hls/tcp_intf/tcp_rxHandler.cpp:199-246 | the initial state satisfies the invariant |
| `RxHandler.Handler.InflightReadHandler` | kernel/hls/tcp_intf/tcp_rxHandler.cpp:44-70 | decrements before increments before questions; the counter never goes below zero |
| `RxHandler.Handler.RequestFsm` | kernel/hls/tcp_intf/tcp_rxHandler.cpp:72-143 | a request goes out only after an answer below four; each state's successor |
| `RxHandler.Handler.ConsumeFsm` | kernel/hls/tcp_intf/tcp_rxHandler.cpp:145-197 | one word is passed on unchanged, its metadata and its credit counted, or nothing happens |
| `RxHandler.Handler.Bounds` | kernel/hls/tcp_intf/tcp_rxHandler.cpp:100 | at most four requests are outstanding at any time, and the output is a front of what was delivered |
| `RxHandler.Handler.NoDeadlock` | kernel/hls/tcp_intf/tcp_rxHandler.cpp:44-197 | when no process can move, every notification has led to its request and every word delivered has been passed on |
| `RxHandler.Handler.Interleave` | kernel/hls/tcp_intf/tcp_rxHandler.cpp:199-246 | wherever an interleaving is broken off, at most four requests are outstanding, and what came out is the front of what went in |
| `RxHandler.Handler.Run` | kernel/hls/tcp_intf/tcp_rxHandler.cpp:199-246 | any interleaving of the three processes and a network that delivers words and metadata one at a time can be carried on to the point where nothing can move; if the network has one packet for each notification of data, every word has then been passed on, every request made and every credit returned |
| `TxHandler.CutWords` | kernel/hls/tcp_intf/tcp_txHandler.cpp:116 | cutting a command into packets of whole words costs no words |
| `TxHandler.StopsIff` | kernel/hls/tcp_intf/tcp_txHandler.cpp:94-137 | the lengths asked for, cut to 16 bits, ever add up to the command if and only if it is empty or its first packet is between 1 and 65535 bytes; then they are its full packets and the rest |
| `TxHandler.LargePacketStalls` | kernel/hls/tcp_intf/tcp_txHandler.cpp:94-137 | a command of 64 KiB in packets of 64 KiB is never granted a byte, and a packet of no bytes ends with its 2^32-th word only |
| `TxHandler.Handler.constructor` | kernel/hls/tcp_intf/tcp_txHandler.cpp:63-76 | the initial state satisfies the invariant |
| `TxHandler.Handler.Answer` | kernel/hls/tcp_intf/tcp_txHandler.cpp:108-115 | the stack echoes the request it answers, and notes it as granted if it does not refuse |
| `TxHandler.Handler.CheckRequest` | kernel/hls/tcp_intf/tcp_txHandler.cpp:107-157 | a grant asks for the next packet and goes on to write this one; a refusal asks again for the same |
| `TxHandler.Handler.WriteWord` | kernel/hls/tcp_intf/tcp_txHandler.cpp:158-180 | one word goes out, marked if it ends the packet granted |
| `TxHandler.Handler.Step` | kernel/hls/tcp_intf/tcp_txHandler.cpp:79-181 | one call keeps the words taken a front of the input and the commands in order, and makes progress or changes nothing |
| `TxHandler.Handler.Serve` | kernel/hls/tcp_intf/tcp_txHandler.cpp:79-181 | for every finite pattern of refusals: the commands finished are the first ones, and none that `StopsIff` rules out; if all commands are servable, they are served to their end: granted are exactly the full packets and the rest of each, the words given to the stack are exactly those of the input, marked on packet ends only |
| `Framing.MaskKeeps` | kernel/hls/vnx_intf/vnx_packetizer.cpp:75-79 | the mask of n bytes keeps n bytes |
| `Framing.MaskBits` | kernel/hls/vnx_intf/vnx_packetizer.cpp:76-78 | namely the first n: bit k of the mask is set if and only if k < n |
| `Framing.WholeKeeps` | kernel/hls/vnx_intf/vnx_packetizer.cpp:82 | the mask -1 keeps all 64 |
| `Framing.WholeBits` | kernel/hls/vnx_intf/vnx_packetizer.cpp:82 | bit k of the mask -1 is set if and only if k < 64 |
| `Framing.PhaseIsRemainder` | kernel/hls/vnx_intf/vnx_packetizer.cpp:85-92 | the packet counter is the word number modulo the packet size |
| `Framing.VnxPacketizer` | kernel/hls/vnx_intf/vnx_packetizer.cpp:50-95 | the message's words, and no more, go out behind a header with its four fields; byte k of word i is kept if and only if 64 i + k is below the length of header and message, and a packet ends after every `max` words and at the end of the message |
| `Framing.Depacketizer` | kernel/hls/vnx_intf/vnx_depacketizer.cpp:46-71 | a call takes exactly one message off the stream; a length of 2^31 or more reads as negative, and takes the header alone |
| `Framing.RoundTrip` | kernel/hls/vnx_intf/vnx_depacketizer.cpp:46-71 | depacketizing undoes packetizing for any packet size: status, words, and `last` on the final word only |
| `Framing.ManyRoundTrips` | kernel/hls/vnx_intf/vnx_depacketizer.cpp:46-71 | for any sequence of messages, one call each, with nothing left over |
| `Framing.FrameKeeps` | kernel/hls/vnx_intf/vnx_packetizer.cpp:71-83 | the bytes kept are the message and its 64-byte header, all words but a ragged last one whole |
| `Framing.FrameEnds` | kernel/hls/vnx_intf/vnx_packetizer.cpp:85-92 | packets end after every `max` words and at the end of the message, and nowhere else |
| `Framing.TcpPacketizer` | kernel/hls/tcp_intf/tcp_packetizer.cpp:55-118 | likewise for TCP, behind a command of length + 64 bytes to the transmit handler; packets end after every `max` words behind the header word |
| `Framing.TcpRoundTrip` | kernel/hls/tcp_intf/tcp_depacketizer.cpp:45-71 | the TCP pair is a round trip as well |
| `Framing.HandlerTakesFrame` | kernel/hls/tcp_intf/tcp_packetizer.cpp:60-67 | the transmit handler takes, for that command, exactly the 1 + ceil(bytes/64) words the packetizer wrote |
| `MessageTable.ServeKeepsSound` | kernel/hls/tcp_intf/pktMultiplexor.cpp:125-283 | destinations 0 to 7 stay split between the free list, without repetition, and valid entries of distinct sessions |
| `MessageTable.AfterIsSound` | kernel/hls/tcp_intf/pktMultiplexor.cpp:125-283 | and so after any sequence of packets |
| `MessageTable.TableIsSessions` | kernel/hls/tcp_intf/pktMultiplexor.cpp:125-283 | every session is treated as if it were alone |
| `MessageTable.ResponseIsSessions` | kernel/hls/tcp_intf/pktMultiplexor.cpp:172-244 | `isLastPkt` is set exactly for the packet that ends a message begun by an earlier packet of its session |
| `MessageTable.DestinationsCarryMessages` | kernel/hls/tcp_intf/pktMultiplexor.cpp:125-345 | every destination carries whole messages, one after the other, each of one session |
| `MessageTable.WaitsIff` | kernel/hls/tcp_intf/pktMultiplexor.cpp:227-229 | a packet finds no free destination if and only if it begins a message while eight sessions, each judged by its own packets, have one unfinished |
| `MessageTable.SizeMissesLength` | kernel/hls/tcp_intf/pktMultiplexor.cpp:315 | the size read from a header of the packetizers is made of the tag and an unset field, whatever the length |
| `MessageTable.SizeMisread` | kernel/hls/tcp_intf/pktMultiplexor.cpp:315 | 8 bytes with tag 3 are taken to be 3 bytes |
| `MessageTable.ReachesAllIff` | kernel/hls/tcp_intf/pktMultiplexor.cpp:227-229 | the packets served before one waits are all packets if and only if none ever finds all destinations taken |
| `Multiplexor.MaskIsOneHot` | kernel/hls/tcp_intf/pktMultiplexor.cpp:148-153 | the comparison mask is one-hot on a hit and zero otherwise |
| `Multiplexor.DecodeMask` | kernel/hls/tcp_intf/pktMultiplexor.cpp:173-188 | the chain of tests finds the one bit set |
| `Multiplexor.Mux.constructor` | kernel/hls/tcp_intf/pktMultiplexor.cpp:348-382 | the initial state satisfies the invariant |
| `Multiplexor.Mux.SetUp` | kernel/hls/tcp_intf/pktMultiplexor.cpp:128-141 | one more destination in the free list, its entry cleared |
| `Multiplexor.Mux.ReadRequest` | kernel/hls/tcp_intf/pktMultiplexor.cpp:142-171 | the session of the next packet compared with all entries |
| `Multiplexor.Mux.RespondHit` | kernel/hls/tcp_intf/pktMultiplexor.cpp:172-225 | the whole new state after a hit |
| `Multiplexor.Mux.RespondMiss` | kernel/hls/tcp_intf/pktMultiplexor.cpp:227-243 | the whole new state after a miss |
| `Multiplexor.Mux.TakeUpdate` | kernel/hls/tcp_intf/pktMultiplexor.cpp:245-281 | the whole new state after an update |
| `Multiplexor.Mux.DestinationsSplit` | kernel/hls/tcp_intf/pktMultiplexor.cpp:125-283 | in the process itself, at every moment, each destination is on the free list, held for a message not yet in the table, or that of one valid entry |
| `Multiplexor.Mux.FirstWord` | kernel/hls/tcp_intf/pktMultiplexor.cpp:306-328 | the whole new state after the first word of a packet |
| `Multiplexor.Mux.NextWord` | kernel/hls/tcp_intf/pktMultiplexor.cpp:329-343 | the whole new state after a further word |
| `Multiplexor.Mux.SessionDestLookup` | kernel/hls/tcp_intf/pktMultiplexor.cpp:89-283 | one call keeps the invariant and makes progress, or changes nothing if it must wait |
| `Multiplexor.Mux.ProcStream` | kernel/hls/tcp_intf/pktMultiplexor.cpp:286-345 | one call keeps the invariant and passes one word on, or changes nothing |
| `Multiplexor.Mux.WaitsForDestination` | kernel/hls/tcp_intf/pktMultiplexor.cpp:227-229 | a miss waits if and only if its packet begins a message while all destinations are taken |
| `OutputWords.OutWordIs` | kernel/hls/tcp_intf/pktMultiplexor.cpp:306-343 | word j of packet k leaves with data and mask as it came, on the destination that carries its session's unfinished message, or on an idle one when it begins a message, and `last` is set exactly on the final word of a packet that ends a message begun by an earlier packet of its session |
| `OutputWords.NothingBroken` | kernel/hls/tcp_intf/pktMultiplexor.cpp:125-345 | read off the output words, a destination never carries anything but whole messages, each of one session |
| `OutputWords.DestinationWords` | kernel/hls/tcp_intf/pktMultiplexor.cpp:306-343 | the words on one destination are, in order, exactly those of the packets that leave on it, one packet after the other |
| `Multiplexor.Mux.WritesReference` | kernel/hls/tcp_intf/pktMultiplexor.cpp:286-345 | at every moment the output is a front of the sequential reference, cut before the first packet that cannot be served, and each of its words is the one `OutputWords.OutWordIs` describes; when neither process can move it is all of that |
| `Multiplexor.Mux.Run` | kernel/hls/tcp_intf/pktMultiplexor.cpp:348-382 | every interleaving of the two processes comes to an end and has then written exactly the words of the packets up to the first that cannot be served, each as `OutputWords.OutWordIs` says and each destination's in the order of its packets, and all of them if there is no such packet |

## Left out

- Errors in the middle of a collective: a call that fails makes the firmware's loop stop or go on with a return code; the ring results are about runs in which every call succeeds. `all_reduce_share` ignores the code of `scatter_reduce`.
- Recovery after a `longjmp`: tags and windows are not resynchronised. The tag, status, sequence and index errors are proved not to occur with FIFO channels.
- Waiting: `timeout == 0` waits for ever, which the model replaces by any number of attempts; the DMA and the packetizer answer in time, so the timeouts of `ack_dma` and `ack_packetizer` do not occur; a receive whose packets never come ends in a timeout.
- Arrivals while the interrupt handler itself runs happen before or after it in the model.
- DMA paths that no modelled call uses (`WITHOUT_TLAST`, the third operand channel), the largest transfer length, switch and register programming, `wait_arith`, timers, interrupt masks.
- One rank (`size == 1`): ring collectives send to themselves and `size - 2` wraps; excluded by `size >= 2`. A second communicator.
- A transaction size or window of 0, which the setters accept: excluded by the engine's invariant.
- Engine.Transfer: the six windowed functions are one method with optional sender and receiver, and their local variables one record, `Window`; order and number of their steps are the source's.
- SpareBuffers.Pool.WaitReceive: success is promised for a packet that has landed and been collected when the wait begins, not for one still on its way; so it is for the calls built on it, `OffchipCalls.SendReceive`, `RoundRobinReceive.BroadcastTo` and `RoundRobinReceive.ScatterTo`.
- SpareBuffers.Pool.StreamIsr: the timer's branch of the handler and the interrupt masks; whether the status line is up is a parameter.
- TransferEngine.Engine.AckDma: the DMA answers in time.
- RingOfEngines.RunRing: each rank's engine runs on a fixed stream of incoming packets, so ranks can be run one after the other. That links carry what is put out on them is the hypothesis `AllCarry`, met by streams that bring the messages of the solution; that no rank gives up waiting is a hypothesis too, met when its packets have landed before it starts. Interleavings of ranks are the subject of `Network`. The same goes for `RingAllreduce` and `RingCollectives`.
- Packet headers on a ring: `HeadersMatchPayloads` and `SendReceive` treat them for one sender and one receiver; `RunRing` speaks of payloads.
- ReduceArith.ElementwiseSum: `keep` and `last` of the result's words.
- Framing.VnxPacketizer: the `dest` field, which is the command's on every word.
- Framing.TcpPacketizer: the `keep` mask of a ragged last word is a parameter, since the source shifts a plain integer.
- The transmit handler after "connection torn down" (error 1), which waits with no request out.
- In the multiplexor: sessions and packet lengths of 2^16 and more (`Framed`), and the depth of its FIFOs, a full one of which only delays the writer. The four table arrays are one sequence of entries.
- The receive handler without rate control; the closing of connections; `hostctrl`, `openPort`, `openCon` and the two connection processors: hand-off sequences.
- Floating point: the operator is any function.
- Host drivers, apart from the two spare-buffer checks.
