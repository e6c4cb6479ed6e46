# Verified model of the IQ streaming data path

The repository drives software radios over Gigabit Ethernet (E100/E200) and PCIe DMA (M300). This project models the code
that moves IQ samples between managed transport frames, queues and caller buffers, and proves that it loses, duplicates,
reorders and mis-times nothing, or under exactly which condition it does. `dafny verify dfyconfig.toml` checks everything.

Code that updates state in place is a class or a method over an array here, each method tied to a step function of the
component's state machine; what holds over whole runs is proved about the machine. What the environment decides (arrivals,
time-outs, clock readings, which buffers are granted, how far the other side has got) is a parameter, so a statement about
a method or a run holds for every such choice. What an operation puts on the wire, into a buffer or into memory is stated in
its contract on the entries and bytes themselves, beside the functions that the longer results are stated with.

| file | component |
|---|---|
| `BitReversal.dfy`, `Rings.dfy`, `Transform.dfy`, `Fft.dfy`, `ComplexNumbers.dfy` | in-place radix-2 FFT over an arbitrary commutative ring: the permutation, the ring laws, the transform's recursion, the algorithm, an instance |
| `RxPipeline.dfy`, `Fifo.dfy`, `RxFrames.dfy`, `RxMachine.dfy`, `RxSafety.dfy`, `RxHistory.dfy`, `RxStreamer.dfy` | UDP receive pipeline: types and gap counting, bounded queue, frame claims and reference counts, the two-thread state machine, its invariant and what follows, the same told by what arrived, the streamer's own methods |
| `BufferPool.dfy`, `RxMemory.dfy` | where the frames of a transport lie in memory; who holds one has its bytes for itself |
| `M300Protocol.dfy`, `Simd.dfy`, `M300Packer.dfy`, `M300Tx.dfy` | M300 packet format, vector instructions, CF32/CS16 packer, packetiser with aggregation |
| `M300SendWorker.dfy` | the asynchronous M300 send worker and its frame pool |
| `M300Path.dfy` | transmitter, worker and packet format together; receiver and packet format together |
| `XdmaRecv.dfy`, `M300Demux.dfy`, `M300Sequence.dfy`, `M300Rx.dfy` | M300 receive: header search in a DMA read, deinterleaver, 16-bit sequence accounting, burst and packet reads |
| `UdpTx.dfy`, `UhdTx.dfy` | UDP transmit framing, and the UHD streamer above it |
| `FlowControl.dfy` | the transmit gate and its pause accounting |
| `TimeSpec.dfy` | tick and second arithmetic, rate changes |
| `ExtioPool.dfy` | the callback buffers of the ExtIO plug-in |
| `FlashUpdate.dfy` | the M300 Flash update sequence against a model of the board |
| `ControlMatch.dfy` | control requests and responses over an unreliable channel |
| `Arithmetic.dfy` | division by variables, by repeated subtraction |

## Main results

- UDP receive, over every interleaving of worker and consumer and every request size: delivered, pending and queued samples are
  the packets counted, in order (`RxSafety.NothingLostOrRepeated`), and these are the well-formed datagrams that arrived at free
  frames (`RxHistory.CountedAreReceived`, `DeliveredAreReceived`, `CountersAre`); frames are exclusive and never overwritten while
  queued, nor do two of them share memory (`FramesAreExclusive`, `RxMemory.HeldFramesAreApart`); each tick read is one contiguous segment with exact flags
  (`RxStreamer.RecvPacketStreamer.RecvFromFifoTicks`); the gap counter and the flags agree (`CounterMatchesFlags`).
- `Fft.FftInplace`: the array ends up holding the discrete Fourier transform of its input, in any commutative ring.
- M300 transmit: the vector packer is the scalar one (`M300Packer.PackPayload`); what a send commits are sound packets that carry
  the accepted prefix, each sample of the caller's buffers in its place (`M300TxStreamer.SendImpl`, `PacketSpelled`, `PayloadsAreInput`); after stop the device has received bytes
  that split into exactly the packets of all sends since start, numbered without a gap (`M300Path.DeviceGetsPackets`).
- M300 receive: any mix of one-buffer and two-buffer reads yields the ring's payload stream in order with right times, and
  exactly which words are dropped or change channel (`M300Rx.TakenIsPrefix`, `RecvSingle`, `RecvDual`, `M300Demux.Demux`);
  when a call may be short, when it stalls (`StallsExactly`), and when the loss count is exact (`LossIsCounted`).
- UDP transmit: packets tile the input, counts run on across calls, burst flags on the first and last only
  (`PacketsTileInput`, `PacketFrames`, `CountsRunOn`), every field and sample of every packet spelled out from the caller's buffers
  (`UdpTx.PacketSpelled`, `SendImpl`); a send is short only for a reason (`ShortSendHasReason`); over any run of
  UHD calls, which start where the ticks before them ended (`StartsWherePreviousEnded`); pause accounting against the true
  history (`ReportIsClosedTime`), and one packet after a pause at most (`SendLoopHonoursPause`).
- Time: tick round trip and rounding for every real rate, with their exact conditions, and bounded drift over any run of rate
  changes (`TickRoundTrip`, `ToTicksRounds`, `DriftIsBounded`).
- ExtIO pool: callbacks get whole blocks of the received samples in order, over every run (`CallbacksSeeKeptBlocks`), and the
  index partition (`PoolIsPartitioned`).
- Flash update: its safety on every path, failures of every access included, what the Flash then holds byte for byte, why a run
  fails, that it succeeds on a board that answers, and what a failed run leaves behind (`Board.RunProgram`, `EraseAndProgram`).
- Control: under loss, delay, duplication and reordering each value returned answers its own command, which
  went out with the register asked for (`LocalCtrl.Peek64`).

## Where the code does not meet the simple statement

- `host_queue_drops` can never be anything but 0: with overwriting on, `push` always answers true
  (`src/driver/transport/FIFO.hpp:68-87`). It does no harm, because the queue cannot fill up: at most 2048 frames exist.
- The receive worker rounds a packet's duration up, the consumer rounds it down. Their gap judgements about a packet differ
  exactly when the packet before it is not a whole number of frames and it starts at one of the two ticks
  (`GapAgreement`; `OddPacketDisagrees` is an instance).
- `pad_to_boundary` subtracts modulo 2^64, so it pads correctly above the alignment only for alignments that divide 2^64, and
  a buffer pool is sound only when its whole size does not overflow (`PadRoundsUp`, `PoolIsSound`).
- Both packet headers keep 24 bits of the length: longer packets do not come back. `write_header` masks the length,
  `serialize_hdr` lets it run into the stream id (`HeaderRoundTrip`, `CtrlRoundTrip`).
- `fast_llround` is one too high for most arguments below -1/2 (`FastRoundIsNearest`). For `to_ticks` that matters only before
  second 0 and at rates that are not whole numbers (`ToTicksRounds`, `RoundsCorrectly`, `NegativeTicksMiss`).
- A receive packet without payload stays pending in the one-buffer path of the M300 receiver, and every later call returns
  nothing (`EmptyPacketStalls`, `RecvSingle`); that happens if and only if such a packet comes (`StallsExactly`), and
  until then every word is delivered (`RecvSingle`). The two-buffer path drops it (`DropEmpty`).
- A two-buffer read after a one-buffer read of an odd number of words puts the rest of that packet into the wrong buffers and
  may lose one word; from the next packet on it is right again (`OddReadMixes`, `RecvDual`). With whole-frame packets that
  happens exactly when an odd number of words was taken before and more than one is left of the packet (`OwnChannel`).
- If the answer to the command that starts programming, or to the one that enables the update mode, is lost, the clean-up of a
  failed Flash update does not stop the engine or leave the mode: its flags follow the answers (`LostStart`, `LostEnable`).
  No later run of the updater stops that engine either: each one waits for it and fails (`LostStartForGood`). `RunProgram` says
  for every run when it leaves the engine programming or the mode on.
- The 16-bit loss count is exact only while every gap is below 65536 packets (`LossCountIsExact`).
- The matching of control responses takes an answer exactly when its command is a multiple of 65536 commands old
  (`AnswerTaken`), which is why the bound of 65535 commands on an answer's life is needed.
- The erase-done bit can be that of the block before (`StaleDoneBit`); the updater's wait for the busy state is what makes
  `EraseBlock` hold.

## Model

| member | source | states |
|---|---|---|
| RxTypes.SegmentTicks | src/driver/transport/super_recv_packet_handler.hpp:424-427 | In a contiguous run of one channel, item k is k ticks (mod 2^64) after the first. |
| RxTypes.GapAgreement | src/driver/transport/super_recv_packet_handler.hpp:592-596 | The worker rounds a packet's duration up and the consumer rounds it down (lines 464-466): they judge the next packet alike if and only if the packet is whole frames or the next one's timestamp is neither of the two expected ticks. |
| RxTypes.WholeFramesAgree | src/driver/transport/super_recv_packet_handler.hpp:544-556 | On whole frames the worker's gap count and the consumer's are equal, over any prefix of the stream. |
| RxTypes.OddPacketDisagrees | src/driver/transport/super_recv_packet_handler.hpp:464-466 | A two-channel packet of odd length followed without a break is a gap to the consumer and none to the worker. |
| Fifo.TSQueue.constructor | src/driver/transport/FIFO.hpp:33 | An empty queue with the given limit and overwrite mode. |
| Fifo.TSQueue.Push | src/driver/transport/FIFO.hpp:36-88 | Appends; a full queue loses its oldest entry when overwriting is on and refuses otherwise; the answer is false only when it refuses. |
| Fifo.TSQueue.Pop | src/driver/transport/FIFO.hpp:96-135 | Takes the oldest entry, or nothing from an empty queue. |
| RxFrames.QueueBounded | src/core/udp_zero_copy.cpp:137-142 | Entries holding distinct frames, plus any frames outside the queue, are at most as many as there are frames. |
| RxFrames.ClaimKeeps | include/sdr/core/zero_copy.hpp:188-206 | Claiming a free frame gives it exactly one holder and leaves every other frame's count equal to its holders. |
| RxFrames.DropWorkerKeeps | include/sdr/core/zero_copy.hpp:99-106 | Dropping the worker's pointer frees the frame exactly when nobody else holds it. |
| RxFrames.PushKeeps | src/driver/transport/super_recv_packet_handler.hpp:316 | A push adds a holder, finds the queue below its limit, and keeps frames exclusive. |
| RxFrames.PopKeeps | src/driver/transport/super_recv_packet_handler.hpp:404-407 | A pop hands the oldest entry's frame to the consumer without changing any count. |
| RxFrames.DropPendingKeeps | src/driver/transport/super_recv_packet_handler.hpp:468-472 | Dropping the used-up pending packet releases its frame to the transport. |
| RxSafety.UnheldFrameQueue | src/core/udp_zero_copy.cpp:30-45 | Receiving into a frame nobody holds changes no queued packet. |
| RxSafety.CountPacketTally | src/driver/transport/super_recv_packet_handler.hpp:523-576 | After any packet every counter equals what it is meant to count: packets, samples, sequence errors, timestamp errors, backward steps. |
| RxSafety.PushKeepsInv | src/driver/transport/super_recv_packet_handler.hpp:316-319 | The queue always has room, so the drop-oldest branch never runs; the push keeps the invariant. |
| RxSafety.WorkerStepKeeps | src/driver/transport/super_recv_packet_handler.hpp:275-322 | Every step of the worker, whatever arrives, keeps the invariant. |
| RxSafety.PopFlags | src/driver/transport/super_recv_packet_handler.hpp:409-416 | The gap the consumer sees at a new packet is the gap between it and the packet counted before it. |
| RxSafety.PopKeepsInv | src/driver/transport/super_recv_packet_handler.hpp:399-421 | A pop keeps the invariant. |
| RxSafety.TakeFlagsKeeps | src/driver/transport/super_recv_packet_handler.hpp:424-436 | Handing the flags to the caller keeps the flag account. |
| RxSafety.CopyKeeps | src/driver/transport/super_recv_packet_handler.hpp:460-472 | A copy of n items delivers exactly the next n items of the pending packet and keeps the invariant. |
| RxSafety.StopKeeps | src/driver/transport/super_recv_packet_handler.hpp:344-360 | After a stop no frame is locked and what was thrown away is never delivered. |
| RxSafety.ApplyKeeps | src/driver/transport/super_recv_packet_handler.hpp:275-477 | Every enabled action of worker or consumer keeps the invariant. |
| RxSafety.RunKeeps | src/driver/transport/super_recv_packet_handler.hpp:275-477 | So does every interleaving of any length. |
| RxSafety.FreshIsSafe | src/driver/transport/super_recv_packet_handler.hpp:70-81 | The state of a new streamer satisfies the invariant, for any channel count and memory. |
| RxSafety.NothingLostOrRepeated | src/driver/transport/super_recv_packet_handler.hpp:382-477 | Over any interleaving: delivered items, then the rest of the pending packet, then the items read from the queued frames are, in order and with their timestamps, all packets counted since the last stop; which those are is CountedAreReceived. |
| RxSafety.FramesAreExclusive | src/core/udp_zero_copy.cpp:30-45 | In every reachable state a frame is locked exactly when worker, queue or consumer holds it, no two of them share one while the worker fills it, the queue stays at 2048 of 4096 entries or fewer, and no drop is counted. |
| RxSafety.CounterMatchesFlags | src/driver/transport/super_recv_packet_handler.hpp:523-576 | In an epoch read only through tick calls, on whole frames, timestamp_errors is the number of discontinuity flags reported plus the gaps pending or still queued. |
| RxHistory.KeptAreWellFormed | src/driver/transport/super_recv_packet_handler.hpp:290-314 | What the two checks let through are exactly the datagrams of type 0x5503 whose size is the length they claim and 16 bytes and four for each of one sample or more; dropped silently are those below 20 bytes. |
| RxHistory.CountedAreReceived | src/driver/transport/super_recv_packet_handler.hpp:275-322 | Over any interleaving from a new streamer on: the packets counted, with one still in the worker's hands, are exactly the datagrams of that form that found the frame in turn (the number received modulo 2048) free, in order, since the counters were cleared; invalid_packets is the number of the others that were not too short. |
| RxHistory.ItemsInOrder | src/driver/transport/super_recv_packet_handler.hpp:438-455 | Item k of packet j stands in the stream behind the items of the packets before it, and is that packet's sample k with its timestamp. |
| RxHistory.DeliveredAreReceived | src/driver/transport/super_recv_packet_handler.hpp:382-477 | Over any interleaving: what has been delivered since the last stop is, item by item, the samples of the datagrams of that form received since, and with nothing pending, queued or in the worker's hands it is all of them. |
| RxHistory.CountersAre | src/driver/transport/super_recv_packet_handler.hpp:523-576 | In every reachable state packet and sample counts, sequence errors, timestamp errors and backward steps are the numbers of the packets, samples and places k of that kind among those counted, by the packets' own fields. |
| RxStreamer.ConvertSamples | src/driver/transport/super_recv_packet_handler.hpp:444-455 | The caller's buffer receives each item in order: I and Q as they are, or the floats that times 32768 are I and Q. |
| RxStreamer.RecvPacketStreamer.constructor | src/driver/transport/super_recv_packet_handler.hpp:70-81 | A new streamer is in the initial state of the machine, with an overwriting queue for 4096 packets; at least one channel counts as enabled. |
| RxStreamer.RecvPacketStreamer.GetFrame | src/core/udp_zero_copy.cpp:137-142 | Round-robin receive: the frame in turn is claimed and filled, or nothing changes but the wrapped index. |
| RxStreamer.RecvPacketStreamer.Unref | include/sdr/core/zero_copy.hpp:99-106 | One pointer less; the last one unlocks the frame. |
| RxStreamer.RecvPacketStreamer.UpdateContinuity | src/driver/transport/super_recv_packet_handler.hpp:523-576 | The counters advance as the machine's step says. |
| RxStreamer.RecvPacketStreamer.Inspect | src/driver/transport/super_recv_packet_handler.hpp:290-314 | Datagrams below 20 bytes are dropped silently; one of type 0x5503 whose size is what it claims, 16 bytes and four for each of one sample or more, is kept with so many samples; any other is counted as invalid and dropped. |
| RxStreamer.RecvPacketStreamer.UpdateDepth | src/driver/transport/super_recv_packet_handler.hpp:610-616 | Current and peak queue depth. |
| RxStreamer.RecvPacketStreamer.PushPacket | src/driver/transport/super_recv_packet_handler.hpp:316-319 | The packet joins the queue behind all others; the drop counter is not reached. |
| RxStreamer.RecvPacketStreamer.EndIteration | src/driver/transport/super_recv_packet_handler.hpp:320-321 | The depth statistic is taken and the worker's own pointer goes. |
| RxStreamer.RecvPacketStreamer.WorkerStep | src/driver/transport/super_recv_packet_handler.hpp:275-322 | Each part of the worker's loop body is the machine's next step and keeps the invariant. |
| RxStreamer.RecvPacketStreamer.RunWorker | src/driver/transport/super_recv_packet_handler.hpp:275-322 | Any number of worker steps on any arrivals. |
| RxStreamer.RecvPacketStreamer.PopPacket | src/driver/transport/super_recv_packet_handler.hpp:399-416 | The oldest entry becomes pending; a tick call compares it with the expected tick. |
| RxStreamer.RecvPacketStreamer.TakeFirst | src/driver/transport/super_recv_packet_handler.hpp:424-436 | The first packet of a call settles the returned tick and hands over or discards its flags. |
| RxStreamer.RecvPacketStreamer.CopyItems | src/driver/transport/super_recv_packet_handler.hpp:438-472 | Copies n items out of the frame and moves offset, expectation and frame claim as the machine says. |
| RxStreamer.RecvPacketStreamer.AwaitPacket | src/driver/transport/super_recv_packet_handler.hpp:372-380 | After the worker ran for any number of steps: a packet is pending with the right flag, or the queue is empty. |
| RxStreamer.RecvPacketStreamer.FillBuffer | src/driver/transport/super_recv_packet_handler.hpp:394-474 | One buffer: the next items of the stream, as many as asked or up to time-out, gap or bad format. |
| RxStreamer.RecvPacketStreamer.RecvWithTimeout | src/driver/transport/super_recv_packet_handler.hpp:382-477 | The buffers together receive exactly the next items of the stream; the tick is the first item's packet time and one more for each sample time before it; a tick call gets one segment without a gap, flagged if and only if it does not continue the previous delivery. |
| RxStreamer.RecvPacketStreamer.RecvFromFifoTicks | src/driver/transport/super_recv_packet_handler.hpp:258-274 | The same for one buffer, item by item: each tick follows the one before it, the first is the returned one, DISCONTINUITY_BEFORE and TIMESTAMP_BACKWARDS exactly as the last item delivered before says; short only on time-out or in front of a gap. |
| RxStreamer.RecvPacketStreamer.JoinWorker | src/driver/transport/super_recv_packet_handler.hpp:351-352 | The worker ends its iteration; nothing of the consumer's changes. |
| RxStreamer.RecvPacketStreamer.DrainFifo | src/driver/transport/super_recv_packet_handler.hpp:479-485 | The queue is emptied and all its frames are released. |
| RxStreamer.RecvPacketStreamer.StopPending | src/driver/transport/super_recv_packet_handler.hpp:507-516 | The pending packet is released and the expectation forgotten. |
| RxStreamer.RecvPacketStreamer.Stop | src/driver/transport/super_recv_packet_handler.hpp:344-360 | As the machine's stop; afterwards no frame is locked. |
| RxStreamer.RecvPacketStreamer.DrainTransport | src/driver/transport/super_recv_packet_handler.hpp:487-505 | Left-over datagrams are received and dropped; every frame stays accounted for. |
| RxStreamer.RecvPacketStreamer.ResetContinuity | src/driver/transport/super_recv_packet_handler.hpp:197-212 | A new epoch: empty queue, nothing pending, zero counters, all frames free, invariant established. |
| RxStreamer.CopyExtends | src/driver/transport/super_recv_packet_handler.hpp:460-466 | A copy that starts where the last ended extends the call's segment. |
| BufferPool.ProductWraps | src/core/zero_copy.cpp:37-40 | The frame offset is the product modulo 2^64. |
| BufferPool.PadRoundsUp | src/core/zero_copy.cpp:8-11 | pad_to_boundary yields the least multiple of the alignment at or above the size if and only if the size is at most the alignment, or the alignment divides 2^64 and the result does not pass 2^64. |
| BufferPool.Make | src/core/zero_copy.cpp:28-43 | Frame i starts at the first frame plus i padded frame sizes, modulo 2^64, as buffer_pool::make computes it; the first is the allocation's address padded. |
| BufferPool.PoolIsSound | src/core/zero_copy.cpp:28-43 | For an alignment dividing 2^64, the frames are aligned, inside the allocation and pairwise disjoint if and only if the size of the whole allocation does not overflow. |
| RxMemory.HeldFramesAreApart | src/core/udp_zero_copy.cpp:95-110 | In every state of every run, the frames that worker, queue and consumer hold, and the one the next datagram goes into, lie in the pool's allocation, aligned, and no two of them share a byte, for a pool whose size does not overflow. |
| BitReversal.ReverseInvolution | src/example/e100/e100_gui.cpp:763-765 | Bit reversal stays in range and undoes itself, so swapping pairs once applies it. |
| BitReversal.ReverseSuccessor | src/example/e100/e100_gui.cpp:758-762 | Counting up in the ordinary order is the carry loop's increment in reversed order. |
| Transform.DftIsEval | src/example/e100/e100_gui.cpp:768-782 | Output k of the transform is the polynomial of the samples at the k-th power of the root. |
| Transform.SplitEvenOdd | src/example/e100/e100_gui.cpp:771-781 | A polynomial is its even part at the square plus the argument times its odd part at the square, in any commutative ring. |
| Transform.ButterflyPair | src/example/e100/e100_gui.cpp:774-778 | u + v and u - v are the values at z and at -z. |
| Transform.RootHalfway | src/example/e100/e100_gui.cpp:769-770 | Half way round, the stage's root reaches -1. |
| Transform.CollectedAt | src/example/e100/e100_gui.cpp:757-766 | The samples a block has collected by stage e are every 2^(bits-e)-th one from the reversed block number on. |
| Fft.NextReversed | src/example/e100/e100_gui.cpp:758-762 | The carry loop turns the reversal of i into the reversal of i + 1. |
| Fft.PermuteByReversal | src/example/e100/e100_gui.cpp:757-766 | Afterwards position p holds the sample of the reversed index, for every p. |
| Fft.ButterflyBlock | src/example/e100/e100_gui.cpp:772-780 | One block: each pair becomes sum and difference with the right power of the root; the rest of the array is untouched. |
| Fft.StagesFollow | src/example/e100/e100_gui.cpp:768-782 | The array of sub-transforms of length len is what the butterflies make of the array of length len / 2. |
| Fft.ButterflyStage | src/example/e100/e100_gui.cpp:771-781 | One pass over all blocks takes the array from a stage to the next. |
| Fft.ButterflyStages | src/example/e100/e100_gui.cpp:768-782 | All passes lead from the first stage to the last. |
| Fft.FftInplace | src/example/e100/e100_gui.cpp:754-783 | The array ends up holding the discrete Fourier transform of what it held, for every power-of-two length and the empty array. |
| ComplexNumbers.ComplexIsRing | src/example/e100/e100_gui.cpp:774-779 | Complex numbers with the usual operations are such a ring. |
| ComplexNumbers.SmallRootsAreRoots | src/example/e100/e100_gui.cpp:769-770 | The twiddles for lengths 2 and 4 satisfy what the transform asks of its roots. |
| M300Protocol.HeaderRoundTrip | src/driver/M300/m300_xdma_protocol.hpp:173-191 | Writing and parsing a header gives it back if and only if its length fits 24 bits; otherwise only the length's high bits are lost. |
| M300Protocol.LoadStore | src/driver/M300/m300_xdma_protocol.hpp:149-171 | Loading what was stored gives the value back. |
| M300Protocol.StoreLoad | src/driver/M300/m300_xdma_protocol.hpp:149-171 | Storing what was loaded gives the bytes back. |
| M300Protocol.Store | src/driver/M300/m300_xdma_protocol.hpp:161-171 | The little-endian bytes of the value land behind the bytes already there. |
| M300Protocol.HeaderBytes | src/driver/M300/m300_xdma_protocol.hpp:184-191 | The header's eight bytes: three of length, the stream id, two each of number and type, low byte first. |
| M300Protocol.ParsedBytes | src/driver/M300/m300_xdma_protocol.hpp:173-182 | What any eight bytes parse to, field by field. |
| M300Protocol.EncodedBytes | src/driver/M300/m300_tx_streamer.cpp:433-487 | Where every field and payload word is in a packet's bytes, low byte first. |
| M300Protocol.WordsRoundTrip | src/driver/M300/m300_tx_streamer.cpp:38-44 | 32-bit words printed and read back are the same words. |
| M300Protocol.ParsesFirst | src/driver/M300/m300_xdma_protocol.hpp:173-182 | A printed packet in front of any bytes is parsed off unchanged, or, from 16 MiB on, never. |
| M300Protocol.PrintParses | src/driver/M300/m300_xdma_protocol.hpp:149-191 | Splitting a printed stream packet by packet gives the packets back if and only if every length fits 24 bits. |
| M300Packer.LaneIsScalar | src/driver/M300/m300_tx_streamer.cpp:52-64 | The vector lane (clamp, scale, truncate, saturate) equals float_to_i16 for every real. |
| M300Packer.SwapIq | src/driver/M300/m300_tx_streamer.cpp:82-84 | The two shuffles exchange I and Q in every lane pair. |
| M300Packer.PackFourIsScalar | src/driver/M300/m300_tx_streamer.cpp:68-85 | pack_four_cf32 yields the words that pack_iq yields for the four samples. |
| M300Packer.WordOnWire | src/driver/M300/m300_tx_streamer.cpp:457-474 | Word s * C + c of the wire image is sample s of channel c: I in the high half and Q in the low one, from the caller's own entries, in both formats. |
| M300Packer.SampleOnWire | src/driver/M300/m300_tx_streamer.cpp:457-474 | For CS16 that word is I in the high and Q in the low half, both modulo 2^16; for CF32 the same of the values that are 32767 times the entry cut off toward zero, and 32767 or -32767 beyond 1 and -1. |
| M300Packer.WireSplit | src/driver/M300/m300_tx_streamer.cpp:444-475 | The wire image of a run of samples is that of its two parts, one behind the other. |
| M300Packer.Interleaved | src/driver/M300/m300_tx_streamer.cpp:98-106 | Unpacking low and high halves alternates the two channels' words. |
| M300Packer.VectorWords | src/driver/M300/m300_tx_streamer.cpp:95-112 | A vector step produces the next four sample times of the wire image. |
| M300Packer.ScalarWords | src/driver/M300/m300_tx_streamer.cpp:457-474 | A scalar step produces the next sample time. |
| M300Packer.PackVector | src/driver/M300/m300_tx_streamer.cpp:88-114 | The vector loop writes exactly the wire image of the largest multiple of four samples. |
| M300Packer.PackScalar | src/driver/M300/m300_tx_streamer.cpp:457-475 | The scalar loop writes the rest. |
| M300Packer.PackPayload | src/driver/M300/m300_tx_streamer.cpp:444-475 | With or without vector support the payload bytes are the same wire image, for every length. |
| M300Tx.PaddingIsShort | src/driver/M300/m300_tx_streamer.cpp:285-288 | Padding comes to whole AXI words and is less than one of them. |
| M300Tx.PacketFits | src/driver/M300/m300_tx_streamer.cpp:131-146 | A packet of at most the configured samples is whole AXI words and no longer than the configured packet size. |
| M300Tx.PacketFor | src/driver/M300/m300_tx_streamer.cpp:433-442 | A packet's header fields, and its payload's length within one AXI word of its samples. |
| M300Tx.SeqAtIsSum | src/driver/M300/m300_tx_streamer.cpp:438 | Sequence numbers are consecutive modulo 2^16. |
| M300Tx.SentByIs | src/driver/M300/m300_tx_streamer.cpp:268-303 | The first k packets of a send hold k times the configured samples, or all. |
| M300Tx.PacketSpelled | src/driver/M300/m300_tx_streamer.cpp:425-487 | Packet i of a send: type 0x5504, the start number plus i modulo 2^16, its length, the start time plus i times the configured samples modulo 2^64, each sample of each channel in its place in the payload, and zeros up to the next multiple of four words. |
| M300Tx.PayloadsAreInput | src/driver/M300/m300_tx_streamer.cpp:280-303 | The payloads of a send, unpadded and put together, are exactly the accepted prefix of the input. |
| M300Tx.PacketFacts | src/driver/M300/m300_tx_streamer.cpp:425-487 | Packet i has the i-th number, the start time plus its sample offset, its samples and fewer than four zero words. |
| M300Tx.StreamParses | src/driver/M300/m300_tx_streamer.cpp:241-316 | The committed bytes split back into the packets if and only if every packet is shorter than 16 MiB. |
| M300Tx.SmallPacketsParse | src/driver/M300/m300_tx_streamer.cpp:131-146 | So every send of a streamer with packets below 16 MiB parses back. |
| M300Tx.PacketShort | src/driver/M300/m300_tx_streamer.cpp:131-146 | No packet of a job is longer than the configured packet size. |
| M300Tx.M300TxStreamer.constructor | src/driver/M300/m300_tx_streamer.cpp:118-147 | The derived sizes leave room: aggregated packets never exceed the transport frame. |
| M300Tx.M300TxStreamer.Configure | src/driver/M300/m300_tx_streamer.cpp:169-188 | Accepts masks 1 and 3 only; the packet size is the requested one clamped to 1 .. what fills the configured packet length with its header; every derived size follows; a refusal changes nothing. |
| M300Tx.M300TxStreamer.Start | src/driver/M300/m300_tx_streamer.cpp:199-207 | Active with sequence number zero. |
| M300Tx.M300TxStreamer.Stop | src/driver/M300/m300_tx_streamer.cpp:209-217 | Inactive. |
| M300Tx.M300TxStreamer.FillPacket | src/driver/M300/m300_tx_streamer.cpp:425-487 | Writes one encoded packet behind what is there and counts the sequence on. |
| M300Tx.M300TxStreamer.AddPacket | src/driver/M300/m300_tx_streamer.cpp:280-303 | There is always room for the next packet; the capacity break is never taken. |
| M300Tx.M300TxStreamer.FillAggregate | src/driver/M300/m300_tx_streamer.cpp:274-303 | A buffer gets at least one packet and then as many as allowed or needed. |
| M300Tx.M300TxStreamer.SendBuffer | src/driver/M300/m300_tx_streamer.cpp:267-314 | Every buffer that is granted is enqueued with at least one packet in it; the no-packet break is never taken. |
| M300Tx.M300TxStreamer.SendBuffers | src/driver/M300/m300_tx_streamer.cpp:265-316 | The enqueued bytes are the printed packets of the accepted samples; short only when no further buffer is granted. |
| M300Tx.M300TxStreamer.SendImpl | src/driver/M300/m300_tx_streamer.cpp:241-350 | For the whole call with its error and null cases: the committed bytes are printed packets each of which is spelled out as in PacketSpelled, from the caller's own entries; as many samples as these packets hold; the number moves on by the packets and the time by the samples; buffers hold the configured number of packets but for the last; short only when no further buffer is granted. |
| M300SendWorker.StepKeeps | src/driver/M300/m300_tx_streamer.cpp:352-409 | Every event keeps the invariant: exclusive claims, nothing lost, the worker's lifecycle. |
| M300SendWorker.WriteKeeps | src/core/xdma_zero_copy.cpp:340-347 | The release writes the oldest pending buffer with the bytes it was enqueued with. |
| M300SendWorker.RunKeeps | src/driver/M300/m300_tx_streamer.cpp:352-409 | Every state of every run satisfies it. |
| M300SendWorker.WritesInOrder | src/driver/M300/m300_tx_streamer.cpp:386-409 | In every reachable state the writes are the first of the enqueued buffers, each once, in order, unchanged. |
| M300SendWorker.SentIsHanded | src/driver/M300/m300_tx_streamer.cpp:377-384 | What is recorded as enqueued is what the calling thread's frames held at each hand-over. |
| M300SendWorker.RestIsWritten | src/driver/M300/m300_tx_streamer.cpp:365-375 | Between a stop and the next start everything enqueued has been written. |
| M300SendWorker.StopDrains | src/driver/M300/m300_tx_streamer.cpp:365-375 | When stop returns the queue is empty, everything enqueued is written and no frame is claimed. |
| M300SendWorker.ClearDiscardsNothing | src/driver/M300/m300_tx_streamer.cpp:352-363 | The clear at start finds an empty queue. |
| M300SendWorker.FillSparesPending | src/core/xdma_zero_copy.cpp:459-467 | Filling a frame leaves the bytes of every pending buffer alone: no frame is refilled before its write. |
| M300SendWorker.SendQueue.constructor | src/driver/M300/m300_tx_streamer.cpp:118-130 | The initial state of the machine. |
| M300SendWorker.SendQueue.Start | src/driver/M300/m300_tx_streamer.cpp:352-363 | The machine's start event. |
| M300SendWorker.SendQueue.GetSendBuff | src/core/xdma_zero_copy.cpp:459-467 | The round-robin frame, if and only if nobody has claimed it; the next frame is tried next, after the last one the first. |
| M300SendWorker.SendQueue.FillFrame | src/driver/M300/m300_tx_streamer.cpp:274-303 | Whatever bytes the calling thread writes, only its own frame's change. |
| M300SendWorker.SendQueue.EnqueueSendBuffer | src/driver/M300/m300_tx_streamer.cpp:377-384 | The machine's enqueue event: the frame, with its length, goes behind the queue. |
| M300SendWorker.SendQueue.FinishWrite | src/core/xdma_zero_copy.cpp:340-347 | The release of the held buffer is the machine's write event: the device gets the first bytes of that frame as they are, and the frame is free again. |
| M300SendWorker.SendQueue.WorkerTurn | src/driver/M300/m300_tx_streamer.cpp:386-409 | A turn is the machine's take and write of the queue's head, or its exit when the queue is empty. |
| M300SendWorker.SendQueue.RunToExit | src/driver/M300/m300_tx_streamer.cpp:386-409 | After a stop request the worker ends the write it is in, if any, drains the queue and exits. |
| M300SendWorker.SendQueue.Stop | src/driver/M300/m300_tx_streamer.cpp:365-375 | Called at any moment, in the middle of a write too: ends with an empty queue and everything sent written. |
| M300Path.DeviceGetsPrefix | src/driver/M300/m300_tx_streamer.cpp:241-409 | In every cycle of start and stop, at any moment, the bytes written to the device since its start are a prefix of the printed packets of the sends since. |
| M300Path.SendMore | src/driver/M300/m300_tx_streamer.cpp:241-350 | The buffers enqueued by one more send, as the contract of send_impl describes it, still spell the packets of all sends since start. |
| M300Path.PacketsRunOn | src/driver/M300/m300_tx_streamer.cpp:199-350 | The packets of all sends between start and stop are sound, numbered consecutively from 0 modulo 2^16, and no longer than configured. |
| M300Path.DeviceGetsPackets | src/driver/M300/m300_tx_streamer.cpp:199-409 | In every cycle of start and stop: once stop returns, splitting the bytes the device got in it by the headers' lengths gives exactly the packets of all its sends, numbered without a gap, for packets below 16 MiB, however the worker was interleaved. |
| M300Path.PacketIsReceived | src/driver/M300/m300_rx_streamer.cpp:591-619 | A receive packet as it is printed is received with its number, time and payload, or skipped if longer than configured. |
| M300Path.EmptyIsReceived | src/driver/M300/m300_rx_streamer.cpp:591-619 | A receive packet that is all header is received, without a word. |
| M300Path.EmptyPacketStalls | src/driver/M300/m300_rx_streamer.cpp:313-378 | With such a packet at the head of the ring a one-buffer receive gives nothing, and so does the next, for every size, format and whatever is behind it. |
| M300Path.OddReadMixes | src/driver/M300/m300_rx_streamer.cpp:199-378 | Two packets of two frames, read with one buffer for one word and then with two buffers for two frames: the rest of the first packet is in the wrong buffers, its last word is lost, and the second packet is where it belongs. |
| M300Path.StreamIsPayloads | src/driver/M300/m300_rx_streamer.cpp:591-619 | The stream of a ring of printed receive packets is their payloads, one behind the other. |
| XdmaRecv.FirstIsUnique | src/core/xdma_zero_copy.cpp:172-183 | There is one first header. |
| XdmaRecv.FindValidHeader | src/core/xdma_zero_copy.cpp:172-183 | The first sixteenth byte at which a valid header starts, or the total when there is none. |
| XdmaRecv.PacketIsRecovered | src/core/xdma_zero_copy.cpp:242-275 | A packet behind left-over bytes is found if and only if it starts at a sixteenth byte and nothing before it looks like a header; it is then delivered whole, or as far as the read went, and parses back. |
| XdmaRecv.MoveDown | src/core/xdma_zero_copy.cpp:264-268 | The overlapping move: the tail of the read comes to the front, the rest of the frame stays. |
| XdmaRecv.RecvFrame.MakeFilled | src/core/xdma_zero_copy.cpp:242-277 | Succeeds if and only if a header is found; the packet's bytes are then at the front of the frame, and the frame stays claimed; otherwise it is released. |
| XdmaRecv.RecvFrame.GetNew | src/core/xdma_zero_copy.cpp:279-319 | Fails on a claimed frame without touching anything; otherwise the index moves on, and the frame stays claimed exactly when a packet was found. |
| M300Demux.DemuxStepIsScalar | src/driver/M300/m300_rx_streamer.cpp:49-62 | A vector step gives each channel its next four samples. |
| M300Demux.ValuesAt | src/driver/M300/m300_rx_streamer.cpp:644-650 | Sample k of a buffer is word k: I from the low half, Q from the high half. |
| M300Demux.CopySamples | src/driver/M300/m300_rx_streamer.cpp:634-660 | The words land behind what the buffer holds, in order: the low half as I, the high one as Q, as signed 16-bit numbers or as the floats that times 32768 are these. |
| M300Demux.DemuxVector | src/driver/M300/m300_rx_streamer.cpp:40-81 | The vector loop fills both buffers for the largest multiple of four samples. |
| M300Demux.DemuxScalar | src/driver/M300/m300_rx_streamer.cpp:733-754 | The scalar loop fills the rest. |
| M300Demux.Demux | src/driver/M300/m300_rx_streamer.cpp:713-756 | With or without vector support, word 2 s + c goes to channel c, sample s, for every length: low half as I, high half as Q, likewise. |
| M300Sequence.CountsDistance | src/driver/M300/m300_rx_streamer.cpp:565-589 | packets + lost_packets is the distance from the first packet to the next expected one, less the multiples of 65536 that the gaps hide. |
| M300Sequence.HiddenIsZero | src/driver/M300/m300_rx_streamer.cpp:574-576 | Nothing is hidden if and only if every gap is below 65536. |
| M300Sequence.LossCountIsExact | src/driver/M300/m300_rx_streamer.cpp:565-589 | Over any run of single and burst notifications the count is exact if and only if every gap is below 65536 packets. |
| M300Sequence.JumpsAreCounted | src/driver/M300/m300_rx_streamer.cpp:565-589 | The jump counter is the number of notices whose position is not, modulo 65536, where the one before ended, and the last number is that of the last packet noted. |
| M300Rx.Decode | src/driver/M300/m300_rx_streamer.cpp:597-605 | A frame is a receive packet exactly when it is long enough, has the receive magic and a length in range. |
| M300Rx.PayloadIsEmpty | src/driver/M300/m300_rx_streamer.cpp:597-619 | A receive packet has no payload word exactly when its header claims none or the frame carries none. |
| M300Rx.DecodedBytes | src/driver/M300/m300_rx_streamer.cpp:591-619 | On the bytes: a frame is a receive packet exactly when it has 16 bytes, type 0x5503 and a length from 16 to the configured one; it then has the number and time in those bytes, and the words up to that length or its end. |
| M300Rx.FullRunIs | src/core/xdma_zero_copy.cpp:600-652 | The packets a burst may take are full ones, and the one behind them is not. |
| M300Rx.TakenIsPrefix | src/driver/M300/m300_rx_streamer.cpp:193-378 | Whatever mix of burst reads, packet reads and partly used packets led here: what was taken is a prefix of the ring's payload stream, what is pending completes it to all frames read, and the callers have what was taken, in order, without what was dropped. |
| M300Rx.DeliveredIsPrefix | src/driver/M300/m300_rx_streamer.cpp:193-378 | The callers have exactly what was taken, a prefix of the stream, if and only if no word was ever dropped. |
| M300Rx.StallsExactly | src/driver/M300/m300_rx_streamer.cpp:610-618 | No place that the receiver's packet reads, copies and bursts reach is stalled if and only if every receive packet has a payload word. |
| M300Rx.CallsAreNotices | src/driver/M300/m300_rx_streamer.cpp:565-589 | The receiver's own calls of note_packet_sequence are notices in order of the packets' true positions; the counters count them, and packets is the number of packets received. |
| M300Rx.LossIsCounted | src/driver/M300/m300_rx_streamer.cpp:565-589 | After any reads, lost_packets is the number of packets missing between the first received and the next expected if and only if no gap between reads hides 65536 packets or more; jumps is the number of reads that do not carry the number expected, and the last number that of the last packet. |
| M300Rx.OwnChannel | src/driver/M300/m300_rx_streamer.cpp:268-271 | With whole-frame packets, every word of a two-buffer read reaches the buffer of its channel if and only if an even number of words was taken before, or no more than one is left of the packet pending. |
| M300Rx.TakenDecides | src/driver/M300/m300_rx_streamer.cpp:268-278 | With whole-frame packets the number of words taken so far says whether a two-buffer read starts at a frame, and what the words left of the packet are. |
| M300Rx.M300RxStreamer.constructor | src/driver/M300/m300_rx_streamer.cpp:85-90 | The start of the ring, nothing pending, fresh counters. |
| M300Rx.M300RxStreamer.NotePacketSequence | src/driver/M300/m300_rx_streamer.cpp:565-589 | The counters advance by the notification. |
| M300Rx.M300RxStreamer.LoadNextPacket | src/driver/M300/m300_rx_streamer.cpp:591-619 | Skips frames that are no receive packets; one poll a frame; fails only after a poll that found nothing or on a packet without payload, which stays pending; delivers nothing. |
| M300Rx.M300RxStreamer.RecvPayloadBurst | src/core/xdma_zero_copy.cpp:600-652 | Delivers the payloads of full packets only, those at the head of the ring, with the time and number of the first; no more than are ready, than fit and than 64, and fewer only in front of a packet that is not full. |
| M300Rx.M300RxStreamer.BurstSingle | src/driver/M300/m300_rx_streamer.cpp:321-342 | The burst branch keeps the call's account: words, times, place in the stream. |
| M300Rx.M300RxStreamer.TakeSamples | src/driver/M300/m300_rx_streamer.cpp:347-373 | Takes exactly the next words of the pending packet, as many as wanted or there are, with their time. |
| M300Rx.M300RxStreamer.CopySingle | src/driver/M300/m300_rx_streamer.cpp:347-373 | The packet branch, likewise, into the buffer; falls short only at the packet's end. |
| M300Rx.M300RxStreamer.RecvSingle | src/driver/M300/m300_rx_streamer.cpp:313-378 | One buffer: the next words of the stream in order, none lost or repeated; each entry pair is the low and the high half of a word that a received packet has at its place; the time is that packet's stamp plus the place over the number of channels, modulo 2^64; short only when the last poll found nothing or a packet without payload is pending, past which no call gets. If the polls do not find the ring empty too early, exactly the words in front of the next packet without payload are delivered, as many as wanted. |
| M300Rx.M300RxStreamer.BurstDual | src/driver/M300/m300_rx_streamer.cpp:216-262 | The two-buffer burst branch keeps the account of both buffers. |
| M300Rx.M300RxStreamer.CopyDual | src/driver/M300/m300_rx_streamer.cpp:268-307 | The two-buffer packet branch keeps the account and makes progress. |
| M300Rx.M300RxStreamer.DropEmpty | src/driver/M300/m300_rx_streamer.cpp:272-278 | A pending packet without a frame left is dropped; with whole-frame packets and no odd read before, without losing a word. |
| M300Rx.M300RxStreamer.RecvDual | src/driver/M300/m300_rx_streamer.cpp:199-311 | Two buffers, from any state: pair j of the buffers is words 2 j and 2 j + 1 of what was taken, half by half, with time as above; each receives its own channel of the next words, all of them, if packets are whole frames; after a one-buffer read of an odd number of words the rest of that one packet goes to the wrong buffers and at most one word is lost; short only as above. |
| UdpTx.FlagsReadBack | src/driver/transport/local_ctrl.hpp:42-66 | The receiver reads back the 12-bit count and every flag; without metadata it sees no flag, whatever the count. |
| UdpTx.SwapTwice | src/driver/transport/super_send_packet_handler.hpp:51-61 | Exchanging I and Q is undone by exchanging them again. |
| UdpTx.CopySwapped | src/driver/transport/super_send_packet_handler.hpp:51-75 | For integers the caller's own entries, Q before I; for floats, Q before I, the nearest integers to 32767 times the entry, ties away from zero, and 32767 or -32767 beyond 1 and -1. |
| UdpTx.FieldFor | src/driver/transport/super_send_packet_handler.hpp:337-342 | A packet's field reads back as its count and the flags its place in the call asks for. |
| UdpTx.PacketsTileInput | src/driver/transport/super_send_packet_handler.hpp:309-369 | What the packets carry, put together, is exactly the part of the input that was sent. |
| UdpTx.PacketFrames | src/driver/transport/super_send_packet_handler.hpp:334-342 | Packet j has count0 + j mod 4096, start-of-burst on the first packet only, end-of-burst on the packet that completes the input only. |
| UdpTx.PacketTimes | src/driver/transport/super_send_packet_handler.hpp:333-365 | Packet j has the tick of its first sample and the length of its payload. |
| UdpTx.PacketSpelled | src/driver/transport/super_send_packet_handler.hpp:333-371 | Packet j of a call, from the caller's buffers: count plus j modulo 4096 with its flag bits, time modulo 2^64, length, and for each sample, which is entry i of buffer b, Q and I in their places. |
| UdpTx.CountsRunOn | src/driver/transport/super_send_packet_handler.hpp:368 | Counts stay consecutive modulo 4096 from call to call, whatever flags the calls carry. |
| UdpTx.TickIsModulo | src/driver/transport/super_send_packet_handler.hpp:371 | Ticks wrap at 64 bits. |
| UdpTx.SendPacketStreamer.constructor | src/driver/transport/super_send_packet_handler.hpp:83-94 | Counter zero, nothing sent. |
| UdpTx.SendPacketStreamer.SendPacket | src/driver/transport/super_send_packet_handler.hpp:329-368 | One packet on the wire and the counter one further. |
| UdpTx.SendPacketStreamer.SendOne | src/driver/transport/super_send_packet_handler.hpp:305-370 | One buffer: sends all its samples, or stops where the turns say; every granted buffer takes as many samples as fit or are left. |
| UdpTx.SendPacketStreamer.SendImpl | src/driver/transport/super_send_packet_handler.hpp:296-373 | Whatever waits, time-outs and aborts happen, the wire grows by the packets of the part sent, each spelled out from the caller's buffers as in PacketSpelled, of exactly the sizes that the granted buffers allow; all is sent if and only if the turns get through the last buffer; counter and time advance by the packets and the samples sent. |
| UdpTx.ShortSendHasReason | src/driver/transport/super_send_packet_handler.hpp:305-370 | A send is complete exactly when its last buffer is done, and gives up only at an abort or at a failed wait that it was asked not to repeat. |
| UdpTx.GrantsAreFilled | src/driver/transport/super_send_packet_handler.hpp:305-370 | Each granted buffer takes a packet as long as it and the caller's buffer allow: one more sample would not fit, or the packet ends a caller's buffer; no granted buffer is left unused unless all is sent or a turn ends the call. |
| UdpTx.AbortStops | src/driver/transport/super_send_packet_handler.hpp:305-320 | After an abort, or a failed wait that is not to be repeated, nothing more is sent. |
| UdpTx.EnoughTurnsComplete | src/driver/transport/super_send_packet_handler.hpp:305-370 | With nothing to stop it and a transport buffer for every sample, it is complete. |
| UhdTx.ClockAt | src/UHD/IQTAXI/iqtaxi_tx_streamer.hpp:165-221 | In every run of send calls the remembered tick is the end of the last call that sent or had a time, and it counts as known exactly when a call so far had a time. |
| UhdTx.EffectiveIs | src/UHD/IQTAXI/iqtaxi_tx_streamer.hpp:128-157 | What a call works with: the time, start and end of burst that it has itself or, with samples, from the cached start, and both burst flags for a timed call when every send is a burst. |
| UhdTx.StartsWherePreviousEnded | src/UHD/IQTAXI/iqtaxi_tx_streamer.hpp:165-177 | In every run of send calls, a call starts where the ticks before it ended if and only if it has no time and need not ask the device's clock, or the time it has or asks for happens to be that tick; any other call starts at its own time. |
| UhdTx.PacketsContinue | src/UHD/IQTAXI/iqtaxi_tx_streamer.hpp:198-211 | And so does every one of its packets. |
| UhdTx.TicksRunOn | src/UHD/IQTAXI/iqtaxi_tx_streamer.hpp:221 | Over any run of untimed send calls, cached starts and one-sample ends of burst included, the ticks go on by all samples transported. |
| UhdTx.TimedSendIsOneBurst | src/UHD/IQTAXI/iqtaxi_tx_streamer.hpp:153-157 | With one burst a send, a completed timed send starts a burst on its first packet and ends it on its last, nowhere else. |
| UhdTx.CachedStartJoins | src/UHD/IQTAXI/iqtaxi_tx_streamer.hpp:128-143 | A start of burst cached from an empty send is on the first packet of the next send with samples, and on no other. |
| UhdTx.TxStreamer.constructor | src/UHD/IQTAXI/iqtaxi_tx_streamer.hpp:364-371 | No time known, nothing cached. |
| UhdTx.TxStreamer.Send | src/UHD/IQTAXI/iqtaxi_tx_streamer.hpp:115-223 | A step of that run, spelled out: what is cached, the merged metadata, the start tick and the running tick after it; the wire grows by the packets of the caller's samples, or of one sample, reported as none, for a zero-length end of burst, with that metadata and start; a cached or unsupported call sends and changes nothing on the wire. |
| FlowControl.StepAgrees | src/driver/transport/super_send_packet_handler.hpp:376-399 | Every event keeps the monitor's numbers in agreement with the true pause history. |
| FlowControl.ReportIsSound | src/driver/transport/super_send_packet_handler.hpp:126-143 | The reported pause is at most the reported elapsed time, and falls short of the pause history by less than a microsecond a pause. |
| FlowControl.RunAgrees | src/driver/transport/super_send_packet_handler.hpp:101-143 | So after every run. |
| FlowControl.GateIsLastWord | src/driver/transport/super_send_packet_handler.hpp:376-399 | The gate is what the last flow-control word says, and open before the first. |
| FlowControl.MonitorsSince | src/driver/transport/super_send_packet_handler.hpp:101-114 | While monitoring, the start noted is the time it began, and the pause count the number of times the gate closed since. |
| FlowControl.ElapsedIsSince | src/driver/transport/super_send_packet_handler.hpp:126-143 | The elapsed time is that since monitoring began, in whole microseconds. |
| FlowControl.LastWordIs | src/driver/transport/super_send_packet_handler.hpp:376-399 | The word reported is the last one since then, or 0. |
| FlowControl.NotMonitored | src/driver/transport/super_send_packet_handler.hpp:116-124 | Before the first begin and after an end nothing is monitored and all numbers are 0. |
| FlowControl.PauseWithinElapsed | src/driver/transport/super_send_packet_handler.hpp:126-143 | In every reachable monitored state, open pause and truncation included. |
| FlowControl.TruthIsClosedTime | src/driver/transport/super_send_packet_handler.hpp:376-399 | The pause history is the number of nanoseconds since monitoring began at which the last flow-control word that had come said pause. |
| FlowControl.ReportIsClosedTime | src/driver/transport/super_send_packet_handler.hpp:126-143 | Against the words that came and nothing else: since monitoring began the gate was closed for the pause time reported, and less than a microsecond more for each pause counted and one that was on at the start; and that time is at most the elapsed time. |
| FlowControl.OnePacketAfterPause | src/driver/transport/super_send_packet_handler.hpp:309-320 | For a single sender at most one packet leaves from a pause word to the next ready word. |
| FlowControl.SendLoopIsOneSender | src/driver/transport/super_send_packet_handler.hpp:305-370 | The turns of send_impl, with their gate checks, are such a sender, and every buffer granted is one packet. |
| FlowControl.SendLoopHonoursPause | src/driver/transport/super_send_packet_handler.hpp:305-370 | Of the packets of a send loop at most one leaves from a pause word to the next ready word. |
| FlowControl.Monitor.constructor | src/driver/transport/super_send_packet_handler.hpp:83-94 | The gate is open and not monitored. |
| FlowControl.Monitor.BeginMonitoring | src/driver/transport/super_send_packet_handler.hpp:101-114 | Zeroes the numbers; a closed gate starts its pause here. |
| FlowControl.Monitor.EndMonitoring | src/driver/transport/super_send_packet_handler.hpp:116-124 | Zeroes the numbers and forgets both times; the gate keeps its state. |
| FlowControl.Monitor.UpdateFlowControlState | src/driver/transport/super_send_packet_handler.hpp:376-399 | Closing counts a pause and notes its start, opening adds its length. |
| FlowControl.Monitor.Receive | src/driver/transport/super_send_packet_handler.hpp:181-201 | Only the words 0x5555 and 0xAAAA, in packets of the two lengths, move the gate: the first closes it, the second opens it. |
| FlowControl.Monitor.Stats | src/driver/transport/super_send_packet_handler.hpp:126-143 | The two reported times: elapsed time since monitoring began, and the pauses added up with the one still open, in whole microseconds. |
| TimeSpec.Init | src/core/time_spec.cpp:66-76 | The result is normal (fraction in [0, 1)) and has the value of the two parts. |
| TimeSpec.NormalIsUnique | src/core/time_spec.cpp:145-149 | Normal times of equal value are equal. |
| TimeSpec.LessIsByValue | src/core/time_spec.cpp:151-156 | The order is that of the values, and equality too. |
| TimeSpec.PlusMinus | src/core/time_spec.cpp:129-143 | Adding and subtracting undo each other; adding commutes and associates. |
| TimeSpec.FromTicksIsExact | src/core/time_spec.cpp:99-107 | from_ticks names exactly ticks / rate. |
| TimeSpec.FastRoundIsNearest | src/core/time_spec.cpp:78-81 | fast_llround rounds half up if and only if its argument is at least -1/2 or a half more is whole; otherwise it is one too high. |
| TimeSpec.ToTicksRounds | src/core/time_spec.cpp:114-122 | For every time and rate, to_ticks is the nearest integer to value times rate, halves up, if and only if what it rounds is at least -1/2 or a half more is whole; otherwise it is one too high. |
| TimeSpec.RoundsCorrectly | src/core/time_spec.cpp:114-122 | It rounds correctly from second 0 on, and at every time for a whole-number rate. |
| TimeSpec.RoundTripExactly | src/core/time_spec.cpp:99-122 | For every tick count, negative ones included, to_ticks(from_ticks(t, r), r) = t if and only if t is not below floor(t / r) times the whole part of r. |
| TimeSpec.NegativeTicksMiss | src/core/time_spec.cpp:99-122 | At 1.5 ticks a second, tick -4 comes back as -3. |
| TimeSpec.TickRoundTrip | src/core/time_spec.cpp:99-122 | to_ticks(from_ticks(t, r), r) = t for every t >= 0 and every real rate r >= 1. |
| TimeSpec.RebasedIsClose | src/UHD/IQTAXI/iqtaxi_impl.cpp:1571-1578 | A rate change is within half a tick of the exact conversion. |
| TimeSpec.RebasedTime | src/UHD/IQTAXI/iqtaxi_impl.cpp:1571-1578 | It moves absolute time by at most half a new tick. |
| TimeSpec.DriftIsBounded | src/UHD/IQTAXI/iqtaxi_impl.cpp:1571-1578 | Over any run of rate changes absolute time drifts by at most the sum of half ticks. |
| TimeSpec.FractionFitsInt | src/core/time_spec.cpp:69 | The 32-bit conversion in time_spec_init does not overflow for what from_ticks passes, below 2^31 seconds. |
| TimeSpec.TimeSpecT.constructor | src/core/time_spec.cpp:88-91 | The normal form of its arguments. |
| TimeSpec.TimeSpecT.Assign | src/core/time_spec.cpp:66-76 | Likewise, in place. |
| TimeSpec.TimeSpecT.AddAssign | src/core/time_spec.cpp:129-135 | The value grows by that of the other, also when both are the same object. |
| TimeSpec.TimeSpecT.SubAssign | src/core/time_spec.cpp:137-143 | The value shrinks by it. |
| ExtioPool.StepKeeps | src/HDSDR/ExtIO_ANTSDR.cpp:601-740 | Every step of either thread keeps the invariant. |
| ExtioPool.RunKeeps | src/HDSDR/ExtIO_ANTSDR.cpp:601-740 | So every state of every run satisfies it. |
| ExtioPool.PoolIsPartitioned | src/HDSDR/ExtIO_ANTSDR.cpp:545-567 | In every state reachable from the reset, each of the four indices is in exactly one of free, filled and the two threads' hands. |
| ExtioPool.ReadingIsStable | src/HDSDR/ExtIO_ANTSDR.cpp:729-738 | No step of the receive thread changes the buffer the callback is reading. |
| ExtioPool.KeptAreSelected | src/HDSDR/ExtIO_ANTSDR.cpp:717-740 | A finished block is kept exactly when a buffer was free at that moment; kept blocks are in order. |
| ExtioPool.BlocksAreSamples | src/HDSDR/ExtIO_ANTSDR.cpp:704-740 | The finished blocks and the partial one are exactly the samples received, in order, without the partial blocks a recovery threw away, cut every `block` entries. |
| ExtioPool.FlatAt | src/HDSDR/ExtIO_ANTSDR.cpp:704-740 | Block j of them is what follows the first j * block entries. |
| ExtioPool.CallbacksSeeKeptBlocks | src/HDSDR/ExtIO_ANTSDR.cpp:601-639 | Over every run, callbacks get blocks of the full length out of the received samples, in order, each once: those for which a buffer was free, but for at most four that still wait. |
| ExtioPool.Pool.constructor | src/HDSDR/ExtIO_ANTSDR.cpp:641-651 | Both threads at rest. |
| ExtioPool.Pool.ResetQueues | src/HDSDR/ExtIO_ANTSDR.cpp:550-564 | Establishes the invariant with all four indices free. |
| ExtioPool.Pool.RxTurn | src/HDSDR/ExtIO_ANTSDR.cpp:704-740 | Appends what was received, as much as the block has room for; a full block goes, as it is, into the free buffer at the head of its queue and that index behind the filled ones, or is dropped if none is free; assembly starts again; the callback's side is left alone. |
| ExtioPool.Pool.CallbackTurn | src/HDSDR/ExtIO_ANTSDR.cpp:606-636 | Delivers the buffer at the head of the filled queue as it is, which is the oldest kept block not yet delivered, and puts its index behind the free ones. |
| FlashUpdate.EraseLater | src/example/m300/m300_flash_update.cpp:473-486 | However long the engine runs on, an erase stays the erase of this block until the block is recorded as erased. |
| FlashUpdate.StaleDoneBit | src/example/m300/m300_flash_update.cpp:467-486 | After a block is erased, the request for the next one finds the done bit set and the engine not busy while the new block is not erased. |
| FlashUpdate.WritingLater | src/example/m300/m300_flash_update.cpp:501-520 | However long it runs on, what it writes stays in erased blocks behind the bytes sent. |
| FlashUpdate.WritesAreRecorded | src/example/m300/m300_flash_update.cpp:501-535 | However long it writes, every byte it changes lies in a block recorded as programmed; as these are erased blocks only, nothing else is changed. |
| FlashUpdate.ReadLater | src/example/m300/m300_flash_update.cpp:230-285 | However long it runs on, a packet answering the read carries the Flash's bytes of that range. |
| FlashUpdate.ReadPacketData | src/example/m300/m300_flash_update.cpp:251-286 | The payload of the answer is the Flash range. |
| FlashUpdate.AnswerBytes | src/example/m300/m300_flash_update.cpp:251-286 | What the readback takes for its answer, byte for byte: the length, stream 0xf1, number 0, type 0x5503, and the address asked for. |
| FlashUpdate.GuardsKeepInside | src/driver/M300/m300_xdma_ctrl.cpp:257-331 | The guards let through exactly: whole erase blocks out of the 256 of the online slot, a program start at one of its 65536 pages, reads of bytes that are in it, reloads at a page below 32 MiB, and every other command. |
| FlashUpdate.Padded | src/example/m300/m300_flash_update.cpp:396-405 | The image, filled up with 0xff to whole chunks by less than one. |
| FlashUpdate.EraseBlockCount | src/example/m300/m300_flash_update.cpp:407-408 | The least number of blocks that cover the image; they stay below 16 MiB. |
| FlashUpdate.Verify | src/example/m300/m300_flash_update.cpp:317-349 | Done if and only if the two are equal byte for byte. |
| FlashUpdate.Board.Send | src/driver/M300/m300_xdma_ctrl.cpp:279-331 | A command outside the controller's guards throws and changes nothing; otherwise the log has it with what became of it: answered, or lost with or without having been carried out. |
| FlashUpdate.Board.WaitStatus | src/example/m300/m300_flash_update.cpp:152-174 | Returns a status that meets the condition, the first that does, or throws: for a failed access, or because the board was slow. |
| FlashUpdate.Board.RequestErase | src/example/m300/m300_flash_update.cpp:468-471 | The erase request passes the guards and is queued. |
| FlashUpdate.Board.AwaitErase | src/example/m300/m300_flash_update.cpp:473-486 | Returns only when this very block has been erased: all 0xff, and nothing else changed. |
| FlashUpdate.Board.EraseBlock | src/example/m300/m300_flash_update.cpp:467-486 | The block is erased by the command sent here, whatever the done bit said before. |
| FlashUpdate.Board.EraseBlocks | src/example/m300/m300_flash_update.cpp:467-493 | All blocks from 0 on are erased by this run and read 0xff, the memory behind them is as before; no guard fails; on a board that answers it returns. |
| FlashUpdate.Board.SendChunk | src/example/m300/m300_flash_update.cpp:176-188 | The chunk follows the bytes sent so far, and the FIFO never holds more than two. |
| FlashUpdate.Board.ProgramChunk | src/example/m300/m300_flash_update.cpp:501-511 | One turn: what has been written are the bytes sent less those in the FIFO, behind them erased bytes, and nothing behind the erased blocks has changed; afterwards at most one chunk waits in the FIFO, and none if the done bit is set. |
| FlashUpdate.Board.ProgramChunks | src/example/m300/m300_flash_update.cpp:499-520 | After the loop all bytes are sent, with the same account, also when it throws; on a board that answers it returns. |
| FlashUpdate.Board.DrainFifo | src/example/m300/m300_flash_update.cpp:522-535 | Ends with an empty FIFO or throws. |
| FlashUpdate.Board.EndProgram | src/example/m300/m300_flash_update.cpp:522-543 | Ends with an idle engine or throws. |
| FlashUpdate.Board.ProgramImage | src/example/m300/m300_flash_update.cpp:496-543 | Done, the Flash holds the transferred bytes from byte 0 on and 0xff behind them up to the last block's end. The programming flag is on exactly when the start command was answered and the image is not done; the engine programs exactly when the start command was carried out and no stop command was. The two differ when the answer to the start command is lost. |
| FlashUpdate.Board.LostStart | src/example/m300/m300_flash_update.cpp:496-497 | That input: the answer to the start command is lost, the engine is left programming and the flag is off. |
| FlashUpdate.Board.ReadChunk | src/example/m300/m300_flash_update.cpp:227-296 | The data returned are the Flash's bytes of the range asked for, even if a stray packet arrives. |
| FlashUpdate.Board.Readback | src/example/m300/m300_flash_update.cpp:202-315 | The readback is the first bytes of the Flash, and the Flash is unchanged. |
| FlashUpdate.Board.SaveAndVerify | src/example/m300/m300_flash_update.cpp:351-363 | Normal return implies that the Flash begins with the image. |
| FlashUpdate.Board.EnterUpdateMode | src/example/m300/m300_flash_update.cpp:437-457 | From any board on which no command waits to be taken up, one that is still programming included: leaves an idle engine in update mode, or throws; the flag is on exactly when the mode command was answered, the device's mode exactly when it was carried out or was on before. |
| FlashUpdate.Board.EraseAndProgram | src/example/m300/m300_flash_update.cpp:466-544 | Only blocks erased by this run are programmed, on every path; done, the Flash begins with the padded image, followed by 0xff to the end of its last block and then by what was there before. |
| FlashUpdate.Board.Update | src/example/m300/m300_flash_update.cpp:459-546 | Normal return implies that the image is in the Flash; a verify-only run changes nothing and sends no erase or program command; the comparison fails only for a Flash that does not begin with the image. |
| FlashUpdate.Board.CleanUp | src/example/m300/m300_flash_update.cpp:555-567 | Sends what the flags ask for; afterwards the engine programs, and the mode is on, exactly if they were before and the clean-up's own command was not carried out; keeps the Flash safe. |
| FlashUpdate.Board.TryProgram | src/example/m300/m300_flash_update.cpp:436-554 | Nothing is reloaded before the image was verified and the device is out of update mode; the log says what became of each mode and program command, and flags, engine and mode follow it, from a board that was programming before, too. |
| FlashUpdate.Board.RunProgram | src/example/m300/m300_flash_update.cpp:394-570 | On every run, whatever an earlier one left at work: no guard ever fails, only erased blocks are programmed, normal return implies that the Flash holds the image, padded if it was programmed, and the update mode is off, and a reload is sent only then, last, once, and if and only if asked for; a verify-only run sends no erase or program command, and an unconfirmed one nothing. A run fails only for a cause: a failed access, a slow board, an overflow, a stray packet, a readback that could not be saved, or, verifying only, a comparison that failed; and on a board that answers every access (Works) it does return. A failed run leaves the engine programming if and only if it was before, or the start command was carried out without an answer, or was answered and no stop command, that of the clean-up included, was carried out; and the mode on likewise. If the engine was programming before, the run fails and sends no start or stop command. |
| FlashUpdate.SomeBoardWorks | src/example/m300/m300_flash_update.cpp:394-570 | For every image size, verify-only or not, there is such a board. |
| FlashUpdate.SettledAgain | src/example/m300/m300_flash_update.cpp:454-463 | However a run ends, one engine step later the board is ready for the next run, programming exactly if it was. |
| FlashUpdate.Board.LostStartForGood | src/example/m300/m300_flash_update.cpp:394-570 | After a lost answer to the start command, any later run fails, sends no stop command and leaves the engine programming and the board ready for another such run. |
| FlashUpdate.Board.LostEnable | src/example/m300/m300_flash_update.cpp:437-452 | The answer to the command that enables the update mode is lost: the run fails and the mode stays on. |
| ControlMatch.CtrlRoundTrip | src/driver/transport/local_ctrl.cpp:174-188 | A header comes back from its words if and only if its length fits 24 bits. |
| ControlMatch.AnswerHeader | src/driver/transport/local_ctrl.cpp:181-188 | The header of an answer parses to the fields the match looks at. |
| ControlMatch.AnswerWords | src/driver/transport/local_ctrl.cpp:228-273 | What an answer to command j that says a is, word for word: length 32, type 0x5502, the number modulo 65536, the time and the value low word first. |
| ControlMatch.AnswerTaken | src/driver/transport/local_ctrl.cpp:251-262 | Waiting for the answer to command k, the answer to command j is taken if and only if k - j is a multiple of 65536. |
| ControlMatch.AcceptedIsOwn | src/driver/transport/local_ctrl.cpp:251-270 | If no answer outlives 65535 later commands, an accepted packet is an answer to the waiting command itself and carries what that answer says. |
| ControlMatch.CommandHeader | src/driver/transport/local_ctrl.cpp:195-213 | The header of a command carries its number, stream id and length. |
| ControlMatch.CommandWords | src/driver/transport/local_ctrl.cpp:195-222 | The eight words of a command: header, operation and kind, register, value; a read names its register in the data. |
| ControlMatch.LocalCtrl.constructor | src/driver/transport/local_ctrl.cpp:72-83 | Counter zero. |
| ControlMatch.LocalCtrl.SendPkt64 | src/driver/transport/local_ctrl.cpp:195-222 | If a buffer is granted the eight words go out, and nothing otherwise; the number is used up either way. |
| ControlMatch.LocalCtrl.WaitForAck | src/driver/transport/local_ctrl.cpp:228-273 | Under any loss, delay, duplication and reordering, a command answered more than once with different values included, a value is returned if and only if an answer to the last command comes in before the first time-out, and it is the first of them. |
| ControlMatch.LocalCtrl.Peek64 | src/driver/transport/local_ctrl.cpp:162-172 | If a buffer is granted, exactly one packet goes out: length 32, type 0x5501 with this command's number, the words 0x10003, addr, 0, 0; the value is what the device first answered to this very read, high word in front of low word, also across the 16-bit wrap, and one is returned if and only if such an answer comes in before the first time-out. |
| ControlMatch.LocalCtrl.Peek32 | src/driver/transport/local_ctrl.cpp:150-160 | The same packet; its answer's low word. |
| ControlMatch.LocalCtrl.PokeAckValue | src/driver/transport/local_ctrl.cpp:126-148 | The same for a write: the words 0x20002, addr, and the data low word first, for every address but 0xFFFF, which names a read. |

## Left out

- RecvWithTimeout: the channel mask is fixed; a mask changed between calls of one epoch changes both tick divisors and is not modelled.
- CounterMatchesFlags: speaks of an epoch that a reset began; a stop without a reset keeps the counters and forgets the consumer's expectation, after which the two need not agree.
- NothingLostOrRepeated: one consumer and no epoch change during a read, as the code assumes.
- UpdateContinuity: last_seq, last_timestamp, last_timestamp_delta and last_packet_samples, which only repeat the last header, and the wrap-around of the 64-bit counters.
- Push: the blocking form with a time-out, which no caller on this path uses.
- FftInplace: exact arithmetic; float rounding and the accuracy of the float twiddles are not the point here. Lengths that are not powers of two are not meant to be passed.
- LaneIsScalar, SampleOnWire and CopySwapped: exact reals, so neither NaN nor the rounding of the product.
- SendImpl: in `M300Tx`, frame identity belongs to `M300SendWorker`; the register writes of the first data and the relatch callback are not modelled. In `UdpTx`, a transport buffer has room for at least one sample and a caller's buffer at least the samples asked for.
- StreamParses: from 16 MiB packets on a stream does not parse back, which the statement says; nothing limits the packet size the constructor accepts.
- Configure: the hardware registers.
- Start: in `M300Tx`, the worker's start and the registers; the worker's part is `M300SendWorker.SendQueue.Start`.
- Stop: in `M300Tx`, the worker's stop and drain and the source register; the worker's part is `M300SendWorker.SendQueue.Stop`.
- DeviceGetsPackets: that the frames a send fills are handed over as they are is its hypothesis about the calling thread; the two classes are joined by it, not by a call. A second start within a cycle, which restarts the numbers, is not covered.
- RecvSingle: 16-bit and float formats; a null buffer or an unknown format makes the code stop copying, and in the burst branch of the two-buffer path an unknown format loses the burst.
- RecvPayloadBurst: the kernel ring hands out full packets in order; the ioctl is not modelled, nor its sequence number when it disagrees with the packets'.
- `prefetch_driver_ring_recv` and `get_driver_ring_recv_buff` of `core/xdma_zero_copy.cpp`, which `get_recv_buff` never calls.
- MakeFilled: which bytes the device leaves in a frame behind a short read.
- Send: in `UhdTx`, the one-sender check, tracing, and the conversion of a time to ticks, which is `ToTicks`.
- SendImpl and Send: the asynchronous burst events that share the flow-control channel.
- OnePacketAfterPause: one sender; several senders can each have passed the gate.
- PauseWithinElapsed: the clock is monotonic and not at its epoch.
- DriftIsBounded: ticks below 2^63 and exact reals instead of doubles; M300 devices, for which no rebase happens.
- PoolIsPartitioned: starts from the queue reset with no index held; `StartHW` starts the receive worker before the reset, and a worker that took an index earlier is not covered.
- CallbackTurn: a callback pointer that is null skips one delivery and is not modelled.
- Send: in `FlashUpdate`, the register writes of one command are one step, and the number of erase blocks, always one, is not kept.
- RunProgram: a run does not begin while a command of an earlier one still waits to be taken up: one engine step passes between two runs (`SettledAgain`), without which the status register shows an idle engine. Each guarded command is one step, although some are two or three register writes. Reading and checking the image file (`read_bin`, `validate_single_image_bin`) is not modelled beyond its size. The board is a model: a mode command takes effect at once, a stopped engine writes what is left in the FIFO, and programming stores a chunk as it is where the bytes are erased. That a run returns is proved for boards that need one engine step for each access and two before a read's packet; a slower board is covered by the causes of failure only.
- ReadChunk: a stray packet does not carry the Flash read's stream id; the restart of the ring before a readback is what the code does to have none.
- WaitForAck: a received datagram is whole words and no longer than the 32-byte buffer it is copied to; `clear_seq`, which nothing calls, is not modelled. A number is used up even when no send buffer was granted.
- Response matching of `m300_xdma_ctrl`, which advances its number on success only, so that a late answer can be taken for a repeated command.
- Sockets, polling, ioctl, thread priorities, sleeps and memory ordering: threads interleave at locks and at hand-overs.
- `copy_channel_samples`, `core/chdr_header.cpp`, setting caches, gain and rate tables, record and replay tools, discovery, GUI, command lines, and the SDR++, SDRangel and GNU Radio plug-ins: easy or repeating members.
- AD9361, GPIO and RF control: the behaviour lies in hardware.
