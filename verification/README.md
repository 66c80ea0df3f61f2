# Verified model of the traffic generator

This project models the transmit and receive paths of the DPDK traffic generator, its flow scheduler, its
connection state machine, its counters and its configuration parser, and proves properties of them in
Dafny. `dafny verify dfyconfig.toml` checks everything.

Every component the program updates in place is a class whose methods do the same updates (buckets,
connections, flow records, the scheduler, buffers, worker, NIC, metrics) or a method over arrays and text
positions (headers, checksums, the mutator, the parser). Each method is proved against a function on
values that says what the call does. The properties are proved about those functions, and about runs built
from them.

| file | content |
|---|---|
| `Words`, `FlowKey` | machine integers, sums, the 5-tuple |
| `TokenBucket` | refill and consumption; upper and lower bounds over unbounded runs |
| `BucketThreads` | N threads on one bucket, interleaved at single loads, stores and swaps |
| `BareBucket` | the same without the scheduler's mutex: exactly which buckets can be overspent |
| `TcpState`, `Rfc793` | the connection machine, its history, and RFC 793 as reference |
| `Checksum`, `Packet`, `PacketProofs` | RFC 1071 sums; templates, copies, rewrite, receive parser |
| `WireFormat` | frames byte by byte, with offsets and values written out, as reference for all of those |
| `FlowScheduler`, `FlowIndex` | flow table, ready loop, 5-tuple index against a scan |
| `Metrics` | per-core counters, aggregation, latency histogram |
| `Worker` | one pass of a worker over real buffers; reception |
| `Reception`, `Latency` | a received frame from its bytes to the connection it moves, and the latency samples of a batch |
| `Pipeline` | everything as one state machine: any number of workers, control calls, traffic |
| `PassRuns` | a pass of the `Worker` class is a run of that machine |
| `RateBound`, `RateExact`, `Restart` | end-to-end rate bounds, exactly when the nominal bound holds, and what a caller can do for it |
| `RateFloor` | what becomes of every token, and half the rate for a flow that is polled often enough |
| `Expiry` | how long a started flow runs, and what that is worth in frames |
| `SizeRuns` | runs to a copy behind its buffer |
| `FrameRuns`, `Delivery` | every frame of every run: lengths, checksums, receive round trip, sequence tiling; delivery to a peer |
| `BufferRuns`, `CounterRuns`, `TrafficRuns`, `TableRuns` | conservation of buffers and counters; every core's traffic; index and connections over runs |
| `ConfigText`, `ConfigParser` | key search, value extraction, parsing, validation |
| `ConfigRoundTrip`, `ConfigExact`, `ConfigOrder`, `ConfigValues` | canonical text, exactly when it parses back, fields in any order, single values |

## What turned out false, and what holds instead

* *Frames since a start are at most burst + floor(rate * time).* False: a grant polled before `start_flow`
  and built after it comes on top (worker.cpp:220-248 between flow_scheduler.cpp:139 and :183).
  `RateExactness.NominalBoundIff`: with a free buffer and a frame that fits, the bound holds for every
  continuation if and only if no worker held a grant of the flow at the start. What a caller can do:
  `Restarts.FirstStartIsNominal` (an id's first start always meets the bound) and
  `Restarts.RestartIsNominal` (so does a restart, once every worker has had nothing waiting since the stop).
  `RateBounds.EndToEndRateBound` holds always, with the grants in flight added.
* *A started flow makes progress.* False for rates 1 to 9, whose burst rounds to 0.
  `RateExactness.ProgressIff` is the exact condition.
* *A rate of 0 sets no limit*, as a reader may expect of a flow without a rate. Such a flow gets 1000 frames per
  start and no more (`RateBounds.RateZeroBound`).
* *A flow gets its rate.* Dropping the remainder on each credit can cost nearly half of it, but no more:
  `RateFloors.FirstStartGetsHalf` for a flow polled at least once per token's time.
* *The receive path finds the flow a scan finds.* False after unsafe adds: of a second flow on one
  connection, or of an id that an index entry still holds for another connection, as entries do after a clear
  (`FlowIndexes.StaleEntryMisleads`). `TableRuns.IndexRefinesScanOnRunsIff` is exact: lookup and scan agree
  throughout a run if and only if every accepted add was safe. Removes and clears never break the agreement;
  symmetry holds always (`TableRuns.SymmetricOnAllRuns`). What a caller can do: never reuse an id and never add on
  a connection in use (`TableRuns.FreshIdsAgreeOnRuns`), or, without clearing tables that hold flows, look at the
  table alone (`TableRuns.TableDecidesOnRunsIff`).
* *A copy stays inside its buffer.* False for sizes of 65536 and more: `packet_size` is an unchecked 32-bit
  number (server.cpp:79), the append takes a 16-bit length (packet_mutator.cpp:31-34), and copy and zero fill
  use the whole size (packet_mutator.cpp:45-50). `PacketProofs.SpillsIff`: the writes leave an empty buffer if
  and only if the size is at least 65536 and its remainder modulo 65536 fits; 65600 does
  (`PacketProofs.SpillsAt65600`). `SizeRuns.OverrunIsReached`: add, start and poll lead there, unless the
  rate is in 1..9.
* *Concurrent consumers share a bucket safely.* True of consumers alone, and of everything under the
  scheduler's mutex; false of the bare bucket. `BareBuckets.BareBucketOverspendsIff`: some interleaving hands
  out more than burst and rate allow if and only if there are two threads or more, the clock can reach the
  first token's time, and the burst is more than the credit then due (for rates up to 10^9: at least two).
* *Segment dispatch follows section 3.9 of RFC 793.* `Rfc793.DispatchMatchesSegmentArrives` says for which
  segments; on all segments it follows at most two edges of Figure 6.
* *The built-in parser fully supports the configuration schema (README.md:140).* Exact condition for the
  canonical text: `ConfigExactness.RoundTripIff`; ordinary strings parse back with the top-level fields in any
  order (`ConfigOrders.RoundTripInAnyOrder`). A path that reads like a later key makes that key read the
  core count, an address with one unmatched opening brace is forgiven, with two it loses the whole object,
  and a value that ends in a backslash runs on.

## Model

| member | source | states |
|---|---|---|
| TokenBuckets.RateBoundFromReset | core/scheduler/token_bucket.cpp:62-97 | from a full bucket, any run of polls with readings up to t hands out at most burst + floor(rate * (t - t0) / 10^9), whatever wraps in 64 bits |
| TokenBuckets.RunPotential | core/scheduler/token_bucket.cpp:15-97 | tokens handed out plus tokens left never exceed tokens at the beginning plus the rate's worth of the time the stamp moved over |
| TokenBuckets.AnyWindowBound | core/scheduler/token_bucket.cpp:68-97 | any window [s, t] without a reset hands out at most burst + 1 + floor(rate * (t - s) / 10^9), although idle time before s may be credited after it |
| TokenBuckets.AnyWindowBoundIsTight | core/scheduler/token_bucket.cpp:78-96 | for every rate below 10^9 and every burst a call can ask for, a run that hands out the extra token |
| TokenBuckets.CreditExactIffNoOverflow | core/scheduler/token_bucket.cpp:87-89 | one credit loses less than one token if and only if the 128-bit quotient fits in 64 bits |
| TokenBuckets.HalfRateLowerBound | core/scheduler/token_bucket.cpp:78-96 | dropping the remainder on each credit never loses more than half the nominal rate over a run |
| TokenBuckets.HalfRateIsTight | core/scheduler/token_bucket.cpp:87-96 | a family of runs of every length that credits one token out of nearly two per poll |
| TokenBuckets.HalfRateDelivered | core/scheduler/token_bucket.cpp:15-97 | a consumer that never lets the cap spill receives at least half the rate |
| TokenBuckets.FrequentPollsGetHalf | core/scheduler/token_bucket.cpp:15-97 | a full bucket asked for one token at least once per token's time hands out at least half the rate, whatever the length of the run |
| TokenBuckets.TokensConserved | core/scheduler/token_bucket.cpp:15-97 | handed out + left + spilled at the cap equals initial + credited, exactly |
| TokenBuckets.ProgressIffBurst | core/scheduler/flow_scheduler.cpp:59-60 | a bucket made for a rate can ever grant if and only if the rate is not in 1..9 |
| TokenBuckets.RateZeroIsThePlainBurst | core/scheduler/token_bucket.cpp:82-85 | at rate 0 tokens are only ever the initial ones |
| TokenBuckets.TimeAtRateZeroIsLost | core/scheduler/token_bucket.cpp:82-85 | time that passes at rate 0 earns nothing after a change of rate |
| TokenBuckets.TokenBucket.UpdateTokens | core/scheduler/token_bucket.cpp:68-97 | the in-place refill: unchanged on a reading not past the stamp, stamp only at rate 0, unchanged on a zero quotient, else capped sum and new stamp |
| TokenBuckets.TokenBucket.TryConsume | core/scheduler/token_bucket.cpp:15-38 | refills, then takes and returns the smaller of request and tokens |
| TokenBuckets.TokenBucket.SetBurstSize | core/scheduler/token_bucket.cpp:44-52 | sets the burst and cuts the tokens to it |
| TokenBuckets.TokenBucket.Reset | core/scheduler/token_bucket.cpp:62-66 | full again, stamped now |
| BucketThreads.WorkersRefineSequentialBucket | core/scheduler/flow_scheduler.cpp:139-173 | every interleaving of N threads at single memory steps, calls under the scheduler's mutex, hands out exactly what the sequential run of the same calls hands out, and obeys the rate bound |
| BucketThreads.RunKeepsInv | core/scheduler/token_bucket.cpp:15-97 | invariant of all those interleavings: one thread past the mutex, memory equal to the sequential bucket at each program point |
| BucketThreads.LockFreeConsumersConserve | core/scheduler/token_bucket.cpp:18-37 | without any mutex, as long as nobody refills, tokens left plus tokens handed out is constant: no token goes out twice |
| BareBuckets.BareBucketOverspendsIff | core/scheduler/token_bucket.cpp:68-97 | without the scheduler's mutex, some interleaving hands out more than burst + floor(rate * time) if and only if there are at least two threads, t0 + ceil(10^9 / rate) is within the clock, and the burst exceeds the credit due then |
| BareBuckets.BareBucketOverspends | core/scheduler/token_bucket.cpp:91-96 | for every such bucket an interleaving in which a refill overwrites a swap, handing out one token too many at the first token's time |
| BareBuckets.UsualRatesOverspendIff | core/scheduler/token_bucket.cpp:78-96 | for rates from 1 to 10^9: exactly the bursts of two tokens and more |
| TcpStates.HistoryInvariant | core/stateful/tcp_state.cpp:5-96 | over every event sequence: active exactly outside CLOSED, SYN_RCVD never reached, completed lifecycles of three shapes, accepted events of the current one are a path to the state |
| TcpStates.LifecycleCounts | core/stateful/tcp_state.cpp:10-93 | each lifecycle accepts exactly one SEND_SYN, RECV_SYN_ACK, local close, RECV_FIN, RECV_ACK, and one TIMEOUT unless it ends through LAST_ACK |
| TcpStates.LifecyclesHappen | core/stateful/tcp_state.cpp:10-93 | and every sequence of the three shapes really is one: a fresh connection accepts all of it and is closed again |
| TcpStates.ActivityIsLastEvent | core/stateful/tcp_state.cpp:5-8 | every event, accepted or not, is the last activity |
| TcpStates.LifecyclesPartitionAccepted | core/stateful/tcp_state.cpp:5-96 | the lifecycles, in order, are exactly the accepted events |
| TcpStates.AtMostSixPerSyn | core/stateful/tcp_state.cpp:5-96 | accepted transitions are at most six times the accepted SEND_SYNs |
| TcpStates.TcpConnection.ProcessEvent | core/stateful/tcp_state.cpp:5-96 | updates state, active and activity time in place as the transition table says; true exactly on a transition |
| TcpStates.TcpConnection.ReceiveSegment | core/scheduler/flow_scheduler.cpp:250-273 | flags, sequence and acknowledgement numbers of a segment applied to the connection |
| Rfc793.AcceptedEventIsAnEdge | core/stateful/tcp_state.cpp:10-93 | every accepted event is an edge of Figure 6 of RFC 793 with that event's meaning |
| Rfc793.TableIsDiagram | core/stateful/tcp_state.cpp:10-93 | and conversely: an event is accepted and leads to a state if and only if Figure 6 has that edge with its meaning, except for three edges listed |
| Rfc793.DispatchFollowsFigure6 | core/scheduler/flow_scheduler.cpp:252-268 | every segment moves the connection along at most two edges of Figure 6, triggered by its own flags, in the order of section 3.9 |
| Rfc793.DispatchMatchesSegmentArrives | core/scheduler/flow_scheduler.cpp:252-268 | the resulting state is that of section 3.9 if and only if a stated condition on state and flags holds |
| Rfc793.FinAckInFinWait1 | core/scheduler/flow_scheduler.cpp:260-267 | FIN,ACK in FIN_WAIT_1 ends in TIME_WAIT |
| Checksums.OnesSumIsFoldedSum | core/packet/packet_mutator.cpp:121-146 | the end-around-carry sum of RFC 1071 is the folded plain sum |
| Checksums.StoredChecksumVerifies | core/packet/packet_mutator.cpp:121-146 | storing the checksum (or all ones for zero) in a zeroed aligned word makes the data sum to 0xFFFF, for even and odd lengths |
| Packets.BuildTemplate | core/packet/packet_builder.cpp:20-107 | the in-place template builder equals the functional template, or refuses exactly when that does |
| Packets.BuildNetworkHeaders | core/packet/packet_builder.cpp:58-73 | Ethernet and IP headers written into the array |
| Packets.BuildIpHeader | core/packet/packet_builder.cpp:128-147 | the ten IP header fields |
| Packets.BuildTcpHeader | core/packet/packet_builder.cpp:149-167 | the nine TCP header fields |
| Packets.BuildUdpHeader | core/packet/packet_builder.cpp:169-181 | the four UDP header fields |
| Packets.CloneAndMutate | core/packet/packet_mutator.cpp:21-91 | sets the length through the 16-bit append, copies the headers, zeroes the payload and stamps lengths, id, sequence number and checksums in the buffer; refuses exactly an empty or truncated template or an append that does not fit, and writes behind the data room exactly when the append fits and the size does not |
| Packets.RecalculateIpChecksum | core/packet/packet_mutator.cpp:121-128 | the header checksum in place, nothing else changed |
| Packets.RecalculateL4Checksum | core/packet/packet_mutator.cpp:130-146 | the TCP or UDP checksum in place over pseudo-header and segment, nothing else changed |
| Packets.RewriteForConnection | core/worker/worker.cpp:268-294 | flags, sequence and acknowledgement numbers and checksum of a tracked flow's frame, and its payload length |
| PacketProofs.TemplateIsBuilt | core/packet/packet_builder.cpp:26-106 | every template carries the key it was asked for in its address, port and protocol fields |
| PacketProofs.TemplateEthernet | core/packet/packet_builder.cpp:109-126 | destination, source, type 0x0800 |
| PacketProofs.TemplateVerifies | core/packet/packet_builder.cpp:76-104 | the checksums the builder itself writes verify: the header's for every size, the TCP or UDP segment's whenever the 16-bit length covers the transport header, so for every size below 65536 |
| WireFormats.TemplateBytes | core/packet/packet_builder.cpp:109-181 | every template byte by byte but for its checksums: Ethernet, IP, and TCP, UDP or echo header, zero payload |
| PacketProofs.SpillsIff | core/packet/packet_mutator.cpp:31-50 | the writes of a copy into an empty buffer leave its data room if and only if the size is at least 65536 and its 16-bit remainder fits; the copy is done exactly for sizes within the data room |
| PacketProofs.SpillsAt65600 | core/packet/packet_mutator.cpp:31-50 | every UDP template of 65600 bytes is built, and its copy leaves any buffer with room for 64 |
| PacketProofs.MutatedFrameCorrect | core/packet/packet_mutator.cpp:39-90 | for every template, size, id and number: lengths match the frame, both sums are 0xFFFF, the key's fields are the template's, the payload is zero |
| WireFormats.CopyBytes | core/packet/packet_mutator.cpp:39-90 | every copy byte by byte but for its checksums: the template's headers, and its own lengths, id and number |
| WireFormats.CopyIsCanonical | core/packet/packet_mutator.cpp:76-88 | of the two encodings of a checksum the stored one is never all ones, and for UDP never zero |
| PacketProofs.SealedVerifies | core/packet/packet_mutator.cpp:76-88 | both checksums verify after sealing and no other byte changes |
| PacketProofs.RewrittenFrame | core/worker/worker.cpp:281-294 | after the rewrite both sums verify again, the numbers are the connection's, and the payload is untouched |
| PacketProofs.RoundTrip | core/worker/worker.cpp:180-203 | the receive parser gives back key, numbers and payload size - 54 of any TCP frame the transmit path builds |
| FlowSchedulers.FlowScheduler.AddFlow | core/scheduler/flow_scheduler.cpp:19-85 | stores the new entry under its id and both directions of its key in the index; refused exactly when no template exists |
| Pipelines.AcceptedEntry | core/scheduler/flow_scheduler.cpp:19-74 | accepted if and only if the protocol is known and the size 0 or enough for its headers; the entry's template size, bucket, connection and counters, written out |
| FlowSchedulers.FlowScheduler.RemoveFlow | core/scheduler/flow_scheduler.cpp:87-103 | erases entry and both keys |
| FlowSchedulers.FlowScheduler.StartFlow | core/scheduler/flow_scheduler.cpp:105-125 | start time, active, full bucket |
| FlowSchedulers.FlowScheduler.GetReadyFlows | core/scheduler/flow_scheduler.cpp:139-173 | the loop over real records equals the functional ready loop, for every iteration order and every clock |
| FlowSchedulers.FlowScheduler.HandleTcpRx | core/scheduler/flow_scheduler.cpp:229-273 | lookup through index and table, then dispatch; everything else untouched |
| FlowSchedulers.FlowScheduler.ClearAllFlows | core/scheduler/flow_scheduler.cpp:308-311 | empties the table and leaves the index |
| FlowSchedulers.FlowRecord.IsExpired | core/scheduler/flow_scheduler.cpp:291-306 | never for duration 0 or start time 0; else elapsed, modulo 2^64, at least the duration |
| Expiries.ActiveUntilDeadline | core/scheduler/flow_scheduler.cpp:291-306 | over every run that leaves a started flow alone: it is active if and only if it has no duration or no poll has looked at it at start + duration seconds or later |
| Expiries.RunsUntilDeadline | core/scheduler/flow_scheduler.cpp:150-159 | the same from any running state, a start at the clock's origin included |
| FlowSchedulers.FlowRecord.Poll | core/scheduler/flow_scheduler.cpp:152-165 | idle flows are passed over, expired ones deactivated, others charged a token |
| FlowSchedulers.ReadyLoopCharges | core/scheduler/flow_scheduler.cpp:150-170 | a pass polls a flow at most once and charges it one token exactly if it lists it |
| FlowSchedulers.ReadyLoopCap | core/scheduler/flow_scheduler.cpp:167-169 | at most max_flows are granted (one, for 0) |
| FlowIndexes.AddAgreesIff | core/scheduler/flow_scheduler.cpp:75-82 | an add keeps the lookup of the receive path in agreement with a scan if and only if it is refused, or no other flow is on the connection and every index entry with the id is for it |
| FlowIndexes.RemoveKeepsAgreement | core/scheduler/flow_scheduler.cpp:94-101 | a remove always keeps the agreement |
| FlowIndexes.ClearAgrees | core/scheduler/flow_scheduler.cpp:308-311 | so does a clear: entries left without a flow resolve nothing |
| FlowIndexes.StaleEntryMisleads | core/scheduler/flow_scheduler.cpp:308-311 | but adding a cleared id again for another connection makes the old connection's frames resolve to it, for all pairs of flows |
| FlowIndexes.ExactIff | core/scheduler/flow_scheduler.cpp:234-242 | the raw index map equals the scan if and only if lookup and scan agree and no entry is left without its flow |
| FlowIndexes.IndexRefinesScanIff | core/scheduler/flow_scheduler.cpp:75-103 | over all sequences of adds, removes and clears: lookup and scan agree throughout iff every accepted add was safe |
| FlowIndexes.FreshIdsAgree | core/scheduler/flow_scheduler.cpp:75-103 | ids never accepted before, on connections no present flow is on, keep the agreement throughout, clears and removes included |
| FlowIndexes.TableDecidesIff | core/scheduler/flow_scheduler.cpp:75-103 | where no table with flows is cleared: agreement throughout iff every accepted add was on a connection of its own, under an id that was new or already stood for it |
| FlowIndexes.RawIndexRefinesScanIff | core/scheduler/flow_scheduler.cpp:75-103 | the raw index map equals the scan throughout iff every accepted add was safe and no table with flows was cleared |
| FlowIndexes.IndexSymmetricOnAllRuns | core/scheduler/flow_scheduler.cpp:75-103 | with no precondition the index is closed under key reversal and maps both directions to one id |
| FlowIndexes.LookupIsScan | core/scheduler/flow_scheduler.cpp:234-242 | under agreement the lookup finds exactly the one flow a scan finds, for a key and its reverse |
| MetricsCollectors.MetricsCollector.Initialize | core/stats/metrics_collector.cpp:24-43 | all counters zero for the given cores; 0 refused |
| MetricsCollectors.MetricsCollector.UpdateTxStats | core/stats/metrics_collector.cpp:45-58 | adds to one core modulo 2^64, drops updates for cores out of range |
| MetricsCollectors.MetricsCollector.UpdateRxStats | core/stats/metrics_collector.cpp:60-67 | the same for received packets and bytes |
| MetricsCollectors.RxAddsUp | core/stats/metrics_collector.cpp:60-67 | received packets and bytes of one core rise by what is counted, modulo 2^64, and nothing else changes |
| MetricsCollectors.MetricsCollector.GetGlobalStats | core/stats/metrics_collector.cpp:91-109 | every aggregated counter is the sum over cores modulo 2^64 |
| MetricsCollectors.MetricsCollector.ResetAllStats | core/stats/metrics_collector.cpp:119-135 | all counters and samples start over |
| MetricsCollectors.MetricsCollector.RecordLatency | core/stats/metrics_collector.cpp:233-250 | one more sample; the counters still agree with the samples |
| MetricsCollectors.MetricsCollector.GetLatencyHistogram | core/stats/metrics_collector.cpp:260-283 | ranges contiguous from 0 to an open end, each count the number of samples since the last reset in its half-open range |
| MetricsCollectors.HistogramMatchesSamples | core/stats/metrics_collector.cpp:233-250 | after any sequence of records and resets every counter agrees with the samples, and the counts add up to their number |
| MetricsCollectors.BucketsPartition | core/stats/metrics_collector.cpp:10-14 | every latency lies in exactly one range, the one the search finds |
| Latencies.RangeOfBucket | core/stats/metrics_collector.cpp:10-14 | the ten ranges, in nanoseconds |
| Latencies.SamplesOfBatch | core/worker/worker.cpp:165-177 | a received batch adds, in order, one sample for each buffer stamped before now, the time since its stamp, and none for any other |
| Latencies.ReportAfterBatch | core/worker/worker.cpp:165-177 | and to the reported count of each range the number of its buffers whose latency lies there |
| Workers.Worker.ProcessFlows | core/worker/worker.cpp:217-320 | a whole pass on real buffers: table, pool, NIC, counters and wire after it are those of ready loop, build loop and transmission, for every pass without a copy behind its buffer |
| Workers.ContainedPassStaysInside | core/worker/worker.cpp:241-315 | which is every pass, whatever is drawn, over a table whose flows' own sizes do not overrun the append |
| Workers.Worker.BuildFrame | core/worker/worker.cpp:259-313 | size choice, copy, rewrite, sequence number and flow counters for one frame |
| Workers.Worker.BuildNext | core/worker/worker.cpp:246-318 | skips gone or stopped flows and failed allocations; a buffer whose frame does not fit goes straight back |
| Workers.Worker.TransmitBurst | core/worker/worker.cpp:108-137 | the NIC takes a prefix, which is counted; the rest is freed once each |
| Workers.Worker.ProcessReceived | core/worker/worker.cpp:149-215 | every buffer of a batch is sampled, counted, dispatched and freed |
| Workers.Nic.TxBurst | core/worker/worker.cpp:113 | hands over the first buffers of the burst, in order |
| Workers.Mempool.Allocate | core/mempools/mempool_manager.cpp:76-83 | a one-buffer allocation with its result read as a count |
| Workers.BuildAllSound | core/worker/worker.cpp:241-315 | a burst never holds one buffer twice, nor a free one, nor more than the burst size |
| Workers.ReceiveAllFreesAll | core/worker/worker.cpp:159-209 | a receive pass frees every buffer of its batch and counts every byte, whatever the frames hold |
| Workers.ChosenSizeHolds | core/worker/worker.cpp:259-267 | whatever 32-bit size is chosen, it holds the template's headers: the payload subtraction cannot underflow |
| Workers.CopyOutcome | core/worker/worker.cpp:259-313 | a copy into an empty buffer is done exactly for sizes within the data room and leaves it exactly for an own size that overruns the append |
| Workers.ChosenSizeSafe | core/packet/packet_mutator.cpp:52-74 | for every size within the data room the length fields match the frame, and a tracked flow's frame can be rewritten |
| Pipelines.SizeSafetyOnAllRuns | core/packet/packet_mutator.cpp:29-50 | for every flow of every reachable state, of every 32-bit size, and every size the IMIX engine may return: headers fit, the copy is done iff the size is within the data room, and leaves it iff the own size overruns the append |
| Pipelines.LengthsOnAllRuns | core/packet/packet_mutator.cpp:52-74 | in every reachable state a frame is built iff its size is within the data room, has that size, and says so in its length fields |
| SizeRuns.OverrunIsReached | core/worker/worker.cpp:217-267 | from every start with an idle worker and a free buffer: add, start and poll of an accepted flow that overruns the append, of a rate not in 1..9, lead to a copy behind the buffer |
| Pipelines.ReachableHealthy | core/scheduler/flow_scheduler.cpp:37-60 | in every reachable state each entry has the template and bucket settings its specification asks for |
| Pipelines.ReachableLabelled | core/scheduler/flow_scheduler.cpp:27-55 | in every reachable state each template has, byte by byte, the headers its specification asks for, from the scheduler's address to the one named (broadcast if none) |
| Pipelines.OtherEventsKeepTable | core/worker/worker.cpp:217-320 | polls, builds, sends, receptions, starts and stops change neither index nor specification nor template |
| PassRuns.PassIsRun | core/worker/worker.cpp:217-320 | the effect proved of the worker's pass is a run of the machine: poll, builds, send |
| RateBounds.PeriodPotential | core/scheduler/flow_scheduler.cpp:139-173 | over any interleaving of workers, frames built are covered by grants held, tokens and elapsed bucket time |
| RateBounds.EndToEndRateBound | core/worker/worker.cpp:217-320 | frames built for a flow after a start are at most the grants in flight + burst + floor(pps * elapsed / 10^9), in every run |
| RateBounds.SentSinceStart | core/worker/worker.cpp:308-313 | the same bound on what `packets_sent` has risen by |
| RateBounds.CountersCountFrames | core/worker/worker.cpp:311-313 | a flow's counters count exactly the frames built for it and their bytes, modulo 2^64, in every run |
| RateBounds.DurationBound | core/scheduler/flow_scheduler.cpp:291-306 | with one clock reading per poll, a flow of duration d > 0 gets at most pps / 10 + pps * d frames per start beyond the grants in flight |
| Expiries.DurationFloor | core/scheduler/flow_scheduler.cpp:139-173 | and the other side: looked at once per token's time up to its end, with nothing dropped, a first start of duration d gets at least (pps * d - 1) / 2 frames |
| RateBounds.RateZeroBound | core/scheduler/flow_scheduler.cpp:59-60 | a flow of rate 0 gets at most 1000 frames per start beyond the grants in flight |
| RateFloors.TokensBecomeFrames | core/worker/worker.cpp:217-320 | over every period of a flow its bucket is the sequential bucket after the polls the run made of it, and grants held + tokens handed out = frames + grants dropped + grants still held, exactly |
| RateFloors.LooksAtAllUnlessFull | core/scheduler/flow_scheduler.cpp:167-169 | the ready loop looks at every flow unless its list is full |
| RateFloors.EndToEndRateFloor | core/scheduler/flow_scheduler.cpp:139-173 | in every run, a started flow of at least 10 per second whose bucket is polled at least once per token's time is granted at least half its rate: frames, drops and grants held, less those held at the start |
| RateFloors.FirstStartGetsHalf | core/worker/worker.cpp:217-320 | ... so an id's first start, with no grant dropped and the workers idle in the end, gets frames for at least half its rate, up to half a frame |
| RateExactness.ReachableBounded | core/scheduler/flow_scheduler.cpp:167-169 | grants and frames of a worker together never exceed the burst size |
| RateExactness.InFlightBreaksBound | core/worker/worker.cpp:220-248 | a grant in flight at the start leads, in no time, to burst + 1 frames |
| RateExactness.DrainBucket | core/scheduler/flow_scheduler.cpp:161-165 | an idle worker can turn every token of a running flow into a frame |
| RateExactness.BurstIsServed | core/scheduler/flow_scheduler.cpp:59-60 | a started flow can be served pps / 10 frames at once, or 1000 at rate 0, in every reachable state with an idle worker, a free buffer and frames that fit |
| RateExactness.NominalBoundIff | core/scheduler/flow_scheduler.cpp:105-173 | with a free buffer and a frame that fits, burst + rate * time bounds every continuation of a start if and only if no worker held a grant of the flow |
| Restarts.FirstStartIsNominal | core/scheduler/flow_scheduler.cpp:105-125 | an id that was never started before gets at most burst + floor(rate * time) frames, in every run and continuation, with nothing added |
| Restarts.RestartIsNominal | core/scheduler/flow_scheduler.cpp:105-137 | the same for a restart, if every worker had nothing waiting at some point between the stop and the start |
| Restarts.NoGrantInFlight | core/worker/worker.cpp:220-248 | a flow that is stopped, with every worker idle at some point since, has no grant in flight until it is started |
| RateExactness.ProgressIff | core/scheduler/flow_scheduler.cpp:59-60 | with an idle worker, a free buffer and a frame that fits, a flow started with no grant in flight can ever get a frame if and only if its rate is not in 1..9 |
| FrameRuns.EveryFrameRight | core/worker/worker.cpp:259-294 | every frame of every run, byte by byte: size (own, drawn, or 64), Ethernet addresses, addresses and ports, lengths, id, a tracked flow's numbers and ACK flag or a stateless one's drawn number, zero payload, verifying checksums |
| FrameRuns.BuildsIff | core/worker/worker.cpp:241-315 | in every run a look at a grant builds a frame if and only if the flow is there and active, a buffer is to be had, and the size is within the data room |
| FrameRuns.WireVerifies | core/worker/worker.cpp:108-113 | at every point of every run, all frames waiting for the NIC verify |
| FrameRuns.ReceivedIsOwn | core/worker/worker.cpp:180-203 | a received frame of a flow parses to its key and payload, and under agreement key and reverse resolve to its id |
| FrameRuns.SequenceTiling | core/worker/worker.cpp:279-292 | over every run each frame of a tracked flow starts where the one before it ended, whatever is drawn or received, and the connection's number stands at the end of the last |
| FrameRuns.SeqAfterIsSum | core/worker/worker.cpp:279-292 | ... that is, at the initial number plus all earlier payload, modulo 2^32 |
| Deliveries.ReceiverTracksSender | core/worker/worker.cpp:189-203 | a tracked flow's frame received by a generator with a flow on the same connection, either direction, reaches that flow and leaves its receive number at the sender's next number and its acknowledgement at the sender's |
| Deliveries.DeliveredTo | core/scheduler/flow_scheduler.cpp:260-272 | the same for any ACK frame of the connection, whatever lies behind it in the buffer |
| Receptions.ParsedFrame | core/worker/worker.cpp:180-203 | the parser answers exactly for TCP over IPv4, with addresses, ports, numbers, payload and the SYN, ACK and FIN bits read from the bytes |
| Receptions.FrameDispatched | core/scheduler/flow_scheduler.cpp:229-273 | dispatch over bytes: a frame moves, as its bits and fields say, the connection of the flow its key resolves to, and nothing else |
| Receptions.DeliveredToOwner | core/scheduler/flow_scheduler.cpp:234-248 | under agreement a frame of a flow's connection, from either end, is delivered to that flow |
| Receptions.StrangersChangeNothing | core/scheduler/flow_scheduler.cpp:234-248 | ... and a frame of no flow's connection changes nothing |
| Receptions.MovedFollowsRfc793 | core/scheduler/flow_scheduler.cpp:250-268 | for all 256 flag bytes: at most two edges of Figure 6 carried by the frame's bits, and section 3.9 if and only if the stated condition holds |
| Receptions.FlagBytes | core/scheduler/flow_scheduler.cpp:250-268 | SYN,ACK in SYN_SENT gives ESTABLISHED, FIN or FIN,ACK in ESTABLISHED gives CLOSE_WAIT, a bare SYN changes nothing, and the like |
| BufferRuns.BuffersConserved | core/worker/worker.cpp:241-319 | over every run each buffer of the pool is in exactly one place (pool, NIC, a burst), and no other appears |
| BufferRuns.IdlePoolIsWhole | core/worker/worker.cpp:127-134 | between passes pool and NIC partition the initial pool, and its size is preserved |
| BufferRuns.DocumentedReadingLosesNothingIff | core/mempools/mempool_manager.cpp:76-83 | if the allocation returned 0 on success, the worker's build loop, over its own flows and draws, would lose no buffer iff a failed allocation directly followed every successful one |
| BufferRuns.DocumentedReadingOfAFullPool | core/worker/worker.cpp:251-258 | ... and with a pool that never runs out it would build and count nothing and lose every buffer |
| BufferRuns.DocumentedReadingPartitions | core/worker/worker.cpp:241-319 | ... and each buffer would end free, in the burst or lost, in one place only |
| CounterRuns.CountersConserved | core/worker/worker.cpp:115-134 | over every run what flows count equals what cores count + freed unsent + uncounted + still held, modulo 2^64, packets and bytes |
| CounterRuns.NothingMissed | core/stats/metrics_collector.cpp:46-48 | nothing goes uncounted when all core ids are in range |
| CounterRuns.SnapshotMatchesFlows | core/stats/metrics_collector.cpp:91-109 | then a global snapshot plus the frames freed unsent equals the flows' sum |
| TrafficRuns.CoreCountsTraffic | core/stats/metrics_collector.cpp:45-75 | over every run each core's counters rise by exactly the frames and bytes its workers sent and the buffers and bytes they received, modulo 2^64; errors never |
| TrafficRuns.SnapshotMatchesReceptions | core/worker/worker.cpp:211-214 | from the start, with core ids in range, a snapshot's receive counters are the buffers of all batches that count and the bytes of all batches |
| TableRuns.SymmetricOnAllRuns | core/scheduler/flow_scheduler.cpp:75-103 | index symmetry in every reachable state of the whole machine |
| TableRuns.IndexRefinesScanOnRunsIff | core/scheduler/flow_scheduler.cpp:234-244 | the receive path's lookup agrees with a scan throughout a run of the whole machine iff every accepted add was safe |
| TableRuns.FreshIdsAgreeOnRuns | core/scheduler/flow_scheduler.cpp:234-244 | over every run of the whole machine fresh ids on unused connections keep lookup and scan in agreement |
| TableRuns.TableDecidesOnRunsIff | core/scheduler/flow_scheduler.cpp:234-244 | over every run that clears no table with flows: agreement throughout iff every accepted add met the condition the table shows |
| TableRuns.RunReplays | core/scheduler/flow_scheduler.cpp:250-268 | where a connection stands after a run is where its machine gets on the events the run raised |
| TableRuns.EveryConnectionFollows | core/stateful/tcp_state.cpp:5-96 | the history invariant from the start: in every reachable state every connection stands where the machine gets to on the events raised since the flow's last accepted add, SYN_RCVD is never reached, active is exactly outside CLOSED, and the accepted events are completed lifecycles and a path to the state |
| ConfigText.FindRawValue | util/config/config_parser.cpp:13-69 | the position loops compute the raw value of a key: the text after the first colon behind its first occurrence |
| ConfigText.QuotedText | util/config/config_parser.cpp:33-41 | up to the first quote no backslash precedes |
| ConfigText.MatchBracket | util/config/config_parser.cpp:42-60 | the bracket that closes the opening one, counting its own kind only |
| ConfigText.SplitObjects | util/config/config_parser.cpp:115-136 | the top-level objects of an array's text, in order |
| ConfigParsers.ParseFromString | util/config/config_parser.cpp:159-211 | always succeeds; every field is the text's value if usable, else the default; lists replace the default lists |
| ConfigValues.DefaultsStay | util/config/config_parser.cpp:254-287 | a text without a key gives the default configuration, written out |
| ConfigValues.EmptyItems | util/config/config_parser.cpp:175-200 | a list item without keys is all zeros |
| ConfigParsers.ParseU16 | util/config/config_parser.cpp:82-91 | a number narrowed to 16 bits, or the old value |
| ConfigValues.DecimalText | util/config/config_parser.cpp:82-91 | a decimal number is its value, and saturates from 2^64 on, whatever follows it |
| ConfigValues.SignedText | util/config/config_parser.cpp:82-91 | a plus changes nothing, a minus negates modulo 2^64 |
| ConfigParsers.ParseBool | util/config/config_parser.cpp:93-105 | true before false, else the old value |
| ConfigParsers.ValidateConfig | util/config/config_parser.cpp:213-252 | accepts exactly the valid configurations: cores, ports and mappings present, queues and descriptors nonzero, every mapping's port exists |
| ConfigValues.ValidationExamples | util/config/config_parser.cpp:213-252 | the default is valid, one queue on either side is enough, and each missing part makes it invalid |
| ConfigRoundTrips.PortReads | util/config/config_parser.cpp:175-184 | a rendered port object parses back |
| ConfigRoundTrips.MappingReads | util/config/config_parser.cpp:192-200 | a rendered core mapping parses back |
| ConfigRoundTrips.ListReads | util/config/config_parser.cpp:107-136 | a rendered list of any length is found whole and split into its objects |
| ConfigExactness.RoundTripIff | util/config/config_parser.cpp:159-211 | for all configurations with quote-free strings the canonical text parses back iff a stated condition on the two strings holds |
| ConfigExactness.RoundTrip | util/config/config_parser.cpp:159-211 | for strings without quotes, backslashes and brackets that name no key it always parses back |
| ConfigOrders.RoundTripInAnyOrder | util/config/config_parser.cpp:159-211 | the same with the top-level fields in any order, even repeated |
| ConfigOrders.RoundTripOfPermutation | util/config/config_parser.cpp:159-211 | in particular for every permutation of the top-level fields |
| ConfigExactness.MisreadRaw | util/config/config_parser.cpp:13-22 | a path that reads like a later key makes that key read the core count |
| ConfigExactness.GrpcReadsIff | util/config/config_parser.cpp:203-207 | the gRPC object parses back iff its address does not end in a backslash, closes no brace it did not open and leaves at most one open |

## Left out

- Workers.Mempool.Allocate: the count reading of the allocation is the one modelled; DPDK documents 0 as success, under which the pass behaves as `BufferRuns` describes.
- TokenBuckets.TokenBucket.TryConsume: the class has no retry loop, because every call is made under the scheduler's mutex; the loop is modelled step by step in `BucketThreads`.
- Workers.Worker.ProcessFlows: a pass with a copy behind its buffer is not modelled past that copy, nor is such a build an event of the machine: what the memory there holds is not part of the model. Data rooms are smaller than 65536 bytes, as the buffer's own 16-bit length has it.
- Workers.Worker.BuildNext: the same for its one copy.
- Workers.Worker.TransmitBurst: lengths are read together with the send; the program reads them from buffers it has already handed to the NIC (worker.cpp:113-121), which may have been freed or reused by then.
- CounterRuns.CountersConserved: for bytes it rests on that, since a core's byte counter adds up those lengths.
- Workers.Worker.BuildFrame: the transmit timestamp (worker.cpp:297-304) is left out, and the stamp of a received buffer is an arbitrary parameter, so latency samples are tied to recorded calls and not to frames.
- FrameRuns.SequenceTiling: a build is one step of the machine, so two workers racing on one connection's unsynchronised `send_seq` are not modelled.
- Pipelines.OtherEventsKeepTable: a worker that still holds a removed flow's record through its shared pointer is not modelled; the record is looked up and used in one step.
- MetricsCollectors.MetricsCollector.RecordLatency: latencies are integer nanoseconds compared with bound * 1000, not doubles; the average is not modelled.
- ConfigExactness.RoundTripIff: strings with quotes are outside the canonical text; the parser does not unescape.
- Rfc793.DispatchMatchesSegmentArrives: RST, sequence acceptability, windows and retransmission are not in the program; every ACK is read as acknowledging our SYN or FIN.
- Workers.Worker.ProcessReceived: reading a header of a received frame shorter than 54 bytes reads stale data room, so the model takes the whole data room and needs it to be at least that long.
- EAL, port and queue set-up, memory pool creation, thread registration, signals and `main.cpp`: foreign calls.
- The gRPC server, its conversions and the Python client: plumbing over the scheduler.
- IMIX profile selection: the random choice is replaced by its contract, a size from 64 to 9000.
- Random IP ids and initial sequence numbers, clock readings, the table's iteration order, allocation results and how many frames the NIC accepts: arbitrary parameters.
- MAC and IP address parsing and formatting, and default MAC addresses: addresses are bytes.
- The ICMP checksum: the builder never computes it, so transport sums are claimed for TCP and UDP only.
- Packet and bit rates, uptime and rate snapshots: wall-clock floating point reporting.
- `update_flow_stats`, `get_active_flows`, `get_all_flows_snapshot`, `get_flow_count` and `build_packet_from_template`: copies or unused variants of what is modelled.
- Relaxed memory ordering and spurious failures of the weak compare-and-swap: steps are sequentially consistent.
- Debug output.
