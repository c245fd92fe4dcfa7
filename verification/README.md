# State machines of a QUIC stack

This project models the self-contained state machines of quic-go-bbr and proves what they promise, in Dafny 4.11. `dafny verify dfyconfig.toml`
checks the whole project.

- **Reassembly** (`byte_intervals`, `frame_queue`, `reassembly`, `frame_sorter`, `reassembly_runs`). Overlapping, repeated and reordered
  pieces of a stream are kept in a list of gaps and a map of entries. The gaps are exactly the bytes never pushed, gaps and entries tile the
  stream, and a whole run delivers the longest prefix without a hole. Every done callback is called once, held once or handed out once.
- **Path MTU discovery** (`mtu_discoverer`, `mtu_bounds`, `mtu_runs`). The search ends for every pattern of acknowledged and lost probes,
  after a number of them that is logarithmic in the range of sizes, tolerates two losses that have nothing to do with the size, and after a
  reset ignores the outcomes of older probes.
- **Sending streams** (`stream_frames`, `stream_frame_wire`, `send_ledger`, `send_spec`, `send_runs`, `send_progress`, `send_writes`,
  `send_resets`, `send_stream`, `send_wakeups`, `send_boundary`, `send_cases`). Each critical section is a step of a state machine; the
  class performs exactly these steps. Nothing written is lost or sent twice, the count of outstanding frames never becomes negative,
  completion means that everything was acknowledged (section 3.1 of RFC 9000) and is reached in the end, Write returns what it has taken,
  and no wake-up of a blocked Write is lost. When a cancelled stream fails to complete is stated exactly.
- **Receiving streams** (`receive_ledger`, `final_sizes`, `receive_events`, `receive_totals`, `receive_stream`, `receive_runs`). In any
  session the reads return a prefix of the stream, the end of the stream is reported at the final offset only, and what is peeked is what is
  read next. A call that blocks is given a script: what happens before each of its wake-ups; that no wake-up is lost is proved for every
  run, up to two exceptions that are stated exactly.
- **ClientHello scrambling** (`client_hello`, `crypto_ledger`, `crypto_stream`, `crypto_runs`, `scrambling_runs`, `scrambling_cases`). The
  ClientHello is sent with the host name and the ECH extension cut out and sent last. The search for them succeeds exactly on well-formed
  messages. From a new stream, every byte is sent exactly once and the receiver reads what was written, if and only if the positions found
  satisfy a condition on numbers.
- **Outgoing streams** (`outgoing_spec`, `outgoing_runs`, `outgoing_answers`, `outgoing_streams`). Calls that wait for a stream are woken up
  through channels. In every interleaving no wake-up is lost, calls are served in order, and limits are respected (section 4.6 of RFC 9000).
- **Incoming streams** (`incoming_spec`, `incoming_runs`, `incoming_answers`, `incoming_streams`). Credit for streams, and the answers to
  all calls in terms of what happened before, in every interleaving.
- **Connection IDs of the peer** (`conn_id_ledger`, `conn_id_repeats`, `conn_id_manager`, `conn_id_runs`, `conn_id_origins`,
  `conn_id_changes`). Order, Retire Prior To, a balance of sequence numbers and reset tokens, where connection IDs and tokens come from,
  when the connection ID is changed, and which repeated frames do harm (sections 5.1.1, 5.1.2 and 19.15 of RFC 9000).
- **Connection IDs of this endpoint** (`conn_id_registry`, `conn_id_generator`). Which IDs are registered with the transport.
- **Token store** (`token_ring`, `token_store`, `token_runs`, `token_answers`). Ring buffers refine bounded stacks; a map and a list of ring
  buffers refine a least-recently-used cache, whose order and contents are those of the last uses in every run.
- **Codecs** (`varint_len`, `varint`, `settings_frame`, `settings_meaning`, `http3_frames`). Round trips of variable-length integers
  (section 16 of RFC 9000) and of HTTP/3 frames (section 7 of RFC 9114), and what every SETTINGS payload means.

Where several goroutines meet, each lock region of the original is one step, and a run is any sequence of steps that are possible: a blocked
call has a position in its code (`Waiting`, `Woken`, `Cancelling`, `Returned`), and its channel holds at most one value.
Random numbers, times, the outcome of probes and what the peer sends are parameters. Callbacks are recorded in fields (`called`, `retired`,
`added`, `removed`, `blocked`, `limits`, `issued`), and histories are ghost.

## Where the code falls short of a property

Each of these has a lemma that shows it, beside the theorem with the condition under which the property holds.

- A Write that is blocked while the stream is cancelled, by CancelWrite or by STOP_SENDING, may find room in the buffer and fill it again.
  The stream then does not complete (`SendCases.CancelDuringWrite`, `SendCases.CancelReliable`, `SendRuns.StuckForever`). This can happen if
  and only if the data of the Write fits an empty buffer at the time of the cancellation (`SendRuns.CancelExactly`); otherwise the stream
  completes in every run (`SendRuns.CancelledCompletesAlways`).
- SetReliableBoundary after a cancellation can break the count of outstanding frames: the next acknowledgement panics
  (`SendCases.BoundaryAfterCancel`), or the stream is never reported as completed (`SendCases.BoundaryBeforeReset`). The count stays right in
  every later run if and only if the boundary does not move, or no reset is queued and one of these holds (`SendBoundary.BoundaryExactly`,
  where `KeepsCount` spells it out): there was reliable data and there is still, and no reset is in flight; there was reliable data, there is
  none any more, and nothing is counted; there was none, and neither a STREAM frame nor a reset that counts before or afterwards is in flight,
  or, after a shutdown, as many of them count afterwards as before. The other runs do not contain a late call.
- CancelRead does not wake up a Read that waits for the reliable data of a stream that the peer has reset, and neither does a second reset
  that gives up this data (`ReceiveRuns.MissedWakeup`, `ReceiveRuns.MissedReset`). In every run, for Read and Peek, these are the only events that lose a wake-up
  (`ReceiveEvents.NoLostWakeup`).
- The scrambler loses data, sends it twice or stops for some ClientHellos: when the second half of the host name is empty, when it touches
  or overlaps the 16 bytes cut out of the ECH extension, and when there is ECH but no host name and the last name of another type has
  less than four bytes (`ScramblingCases`). These are exactly the cases (`ScramblingRuns.LosslessExactly`). An empty Write while just
  the second cut is left searches the ClientHello again, so that data is sent twice (`ScramblingCases.EmptyWriteRepeats`); it is harmless in
  all other cases (`ScramblingRuns.EmptyWrite`).
- Overlapping calls of AcceptStream can leave one of them waiting although a stream could be accepted
  (`IncomingRuns.SecondCallDrainsSignal`, `IncomingRuns.OneSignalForTwo`), by exactly one kind of step (`IncomingRuns.StrandedExactly`).
- A repeated NEW_CONNECTION_ID frame can retire an ID in use, or put one at two places (`ConnIdRuns.RepeatedFrame`), exactly for the three
  positions of its number in `ConnIdRepeats.RepetitionExactly`.
- A connection ID of a preferred address that is added when its number 1 is a number of the past spoils the order
  (`ConnIdRuns.LatePreferredAddress`; `ConnIdManagers.ConnIdManager.AddFromPreferredAddress` has the exact condition), and a second handshake
  token is added without removing the first (`ConnIdRuns.TwoHandshakeTokens`; `ConnIdManagers.ConnIdManager.SetStatelessResetToken` has the
  exact condition). These two are facts about the interface. They do not arise from the present caller, applyTransportParameters, which
  makes each call once when the parameters of the peer are applied (quic-go-bbr/connection.go:2430 and 2435).
- A SETTINGS frame does not parse back to itself exactly if its other settings contain a recognised one, its maximum field section size is
  below -1, or its payload is longer than 8192 bytes (`Http3Frames.SettingsRoundTrip`).

Two more remarks on the text of the source: the comment at quic-go-bbr/mtu_discoverer.go:24-26 speaks of 10 bytes, but the constant is 20, and the
model follows the constant; and the check for a host name at position 0 in quic-go-bbr/sni.go:121 can never be true.

## Model

| member | source | states |
|---|---|---|
| FrameSorting.FrameSorter.constructor | quic-go-bbr/frame_sorter.go:36-43 | nothing has arrived: one gap from 0 to MaxByteCount, which satisfies the reassembly invariant |
| FrameSorting.FrameSorter.Push | quic-go-bbr/frame_sorter.go:45-54 | after any push the gaps are exactly the bytes never pushed; it succeeds if and only if at most 10000 gaps remain, and then gaps and queued entries tile the stream from the read position, every queued byte was pushed for its offset, and every callback is accounted for once |
| FrameSorting.FrameSorter.PushFrame | quic-go-bbr/frame_sorter.go:56-178 | a frame is a duplicate, queued or too fragmented; duplicates leave queue, gaps and read position alone, everything else adds exactly the bytes of the frame |
| FrameSorting.FrameSorter.InsertFrame | quic-go-bbr/frame_sorter.go:78-178 | for a frame located by the two gap searches: it is a duplicate only if every byte of it has arrived, and then nothing changes; otherwise exactly its bytes are added, and the invariant holds unless too many gaps are left |
| FrameSorting.FrameSorter.ReplaceEntries | quic-go-bbr/frame_sorter.go:85-112 | exactly the run of entries that the frame covers is removed and released; a frame that ends inside an entry is cut there, and it is a duplicate if it lies inside the first one |
| FrameSorting.FrameSorter.CloseGaps | quic-go-bbr/frame_sorter.go:114-160 | the gaps become the old ones with the queued range carved out, and no entry remains inside this range |
| FrameSorting.FrameSorter.DropSpannedGaps | quic-go-bbr/frame_sorter.go:132-140 | all gaps between the first and the last one touched are removed, and so are the entries between them |
| FrameSorting.FrameSorter.TrimStartGap | quic-go-bbr/frame_sorter.go:120-130 | the first gap touched is cut off, shortened or removed |
| FrameSorting.FrameSorter.TrimEndGap | quic-go-bbr/frame_sorter.go:148-160 | the last gap touched is shortened, split or removed |
| FrameSorting.FrameSorter.StoreFrame | quic-go-bbr/frame_sorter.go:162-177 | a frame that was cut to less than 128 bytes is copied and its callback called at once; the position is free before, and the push fails exactly if there are too many gaps |
| FrameSorting.FrameSorter.FindStartGap | quic-go-bbr/frame_sorter.go:180-190 | the first gap that does not end before the offset, and whether the offset lies in it |
| FrameSorting.FrameSorter.FindEndGap | quic-go-bbr/frame_sorter.go:192-202 | the last gap that starts at or before the offset, and whether the offset lies in it |
| FrameSorting.FrameSorter.DeleteConsecutive | quic-go-bbr/frame_sorter.go:205-218 | exactly the run of adjacent entries from a position is removed, and each callback in it is called once |
| FrameSorting.FrameSorter.Pop | quic-go-bbr/frame_sorter.go:220-232 | data comes out if and only if the byte at the read position has arrived; it continues what was delivered, its callback is handed out, and the panic is unreachable |
| FrameSorting.FrameSorter.HasMoreData | quic-go-bbr/frame_sorter.go:235-237 | true if and only if some byte has arrived that was not popped |
| FrameSorting.FrameSorter.Peek | quic-go-bbr/frame_sorter.go:245-274 | what is copied was pushed for these offsets; at the read position it succeeds if and only if all n bytes have arrived |
| ReassemblyRuns.Reassemble | quic-go-bbr/frame_sorter.go:45-232 | any pieces of a stream, overlapping, repeated and in any order, with pops in between: what comes out is the longest prefix pushed without a hole; the run fails if and only if the pieces become too fragmented at some point |
| ReassemblyRuns.GapsAreCanonical | quic-go-bbr/frame_sorter.go:56-178 | two gap lists for the same bytes are equal, so the gaps do not depend on the order of the pushes |
| ByteIntervals.CarvedCorrect | quic-go-bbr/frame_sorter.go:120-160 | carving a range out of an ordered list of gaps removes exactly the bytes of this range and keeps the list ordered, separated and non-empty |
| Reassembly.PushReassembling | quic-go-bbr/frame_sorter.go:56-178 | the reassembly invariant after a queued range replaces what it covers |
| Reassembly.PopReassembling | quic-go-bbr/frame_sorter.go:220-232 | the reassembly invariant after a pop; the next gap lies behind the data popped |
| Reassembly.AfterReplacing | quic-go-bbr/frame_sorter.go:85-160 | the range that is queued is non-empty, contains every missing byte of the frame, and does not cut into an entry |
| FrameQueue.ReplaceKeepsTiling | quic-go-bbr/frame_sorter.go:84-178 | replacing all entries and gaps in a range by one entry keeps every byte in exactly one gap or entry |
| FrameQueue.DeleteRunAfterGap | quic-go-bbr/frame_sorter.go:132-140 | deleting the run of entries behind a gap deletes everything up to the next gap |
| FrameQueue.StoreBalanced | quic-go-bbr/frame_sorter.go:162-178 | a callback stored with an entry is held exactly once |
| FrameQueue.ReleaseBalanced | quic-go-bbr/frame_sorter.go:205-218 | a callback called when its entry is deleted was held exactly once and is no longer held |
| FrameQueue.HandOutBalanced | quic-go-bbr/frame_sorter.go:220-232 | a callback handed out by Pop was held exactly once and is no longer held |
| MtuDiscovery.MtuFinder.Init | quic-go-bbr/mtu_discoverer.go:126-135 | the search starts with no loss between start and maximum |
| MtuDiscovery.MtuFinder.Max | quic-go-bbr/mtu_discoverer.go:141-148 | the largest of the three slots that is in use |
| MtuDiscovery.MtuFinder.Done | quic-go-bbr/mtu_discoverer.go:137-139 | the search is over exactly if no size that is still considered is more than 20 bytes above the current one |
| MtuDiscovery.MtuFinder.ShouldSendProbe | quic-go-bbr/mtu_discoverer.go:154-162 | a probe is sent exactly if the search was started, none is in flight, a size more than 20 bytes above the current one is still considered and the delay is over; the probe then lies inside the interval |
| MtuDiscovery.MtuFinder.GetPing | quic-go-bbr/mtu_discoverer.go:164-177 | the probe splits its interval evenly, rounding down: the one between the minimum and the maximum, or after a loss the one between the minimum and the smallest loss |
| MtuDiscovery.MtuFinder.Reset | quic-go-bbr/mtu_discoverer.go:183-189 | a new generation begins with an empty history; the generation is one byte |
| MtuDiscovery.MtuFinder.DropSmaller | quic-go-bbr/mtu_discoverer.go:210-226 | losses at or below an acknowledged size are forgotten, the order of the slots is kept |
| MtuDiscovery.MtuFinder.InsertLost | quic-go-bbr/mtu_discoverer.go:246-252 | a loss is inserted in order into the three slots, the largest entry falls out |
| MtuDiscovery.MtuFinder.OnAcked | quic-go-bbr/mtu_discoverer.go:198-233 | the acknowledged size becomes the minimum, which never sinks, and the maximum stays; an earlier generation changes nothing |
| MtuDiscovery.MtuFinder.OnLost | quic-go-bbr/mtu_discoverer.go:235-253 | the size never changes, and the maximum sinks only on the evidence of three lost probes; an earlier generation changes nothing |
| MtuDiscovery.MtuFinder.CurrentSize | quic-go-bbr/mtu_discoverer.go:179-181 | the start size or the size of an acknowledged probe, at least as large as every acknowledged one, and never above the maximum |
| MtuDiscovery.LossMakesProgress | quic-go-bbr/mtu_discoverer.go:137-253 | a lost probe lowers the measure (interval width, losses inside it, losses at the minimum) |
| MtuDiscovery.AckMakesProgress | quic-go-bbr/mtu_discoverer.go:137-253 | an acknowledged probe lowers the same measure |
| MtuDiscovery.LossKeepsResilience | quic-go-bbr/mtu_discoverer.go:235-253 | every slot is the initial maximum or a lost probe of its own, so a maximum that sinks is backed by three different lost probes that are not larger |
| MtuDiscovery.AckKeepsResilience | quic-go-bbr/mtu_discoverer.go:198-233 | the same after an acknowledgement |
| MtuRuns.Settle | quic-go-bbr/mtu_discoverer.go:198-253 | reporting either outcome of the probe in flight brings the search closer to its end and never lowers the size |
| MtuRuns.Discover | quic-go-bbr/mtu_discoverer.go:112-253 | the search ends for every function that decides which probes are acknowledged, after at most six probes for every time that the range of sizes can be halved, after exactly one if all are acknowledged, and after at most two more for every loss; the result is the start size or an acknowledged size, no acknowledged probe is larger, and the maximum it stopped below is the initial one or was discredited by three lost probes |
| MtuBounds.HeightIsLogarithm | quic-go-bbr/mtu_discoverer.go:137-139 | a range of sizes can be halved at most k times before it is not worth a probe if and only if it has less than 21 * 2^k sizes |
| MtuBounds.OutcomeLowers | quic-go-bbr/mtu_discoverer.go:164-253 | an upper bound on the number of probes left sinks with every outcome of a probe that splits its interval evenly; an acknowledged probe that follows one that was not lost halves the interval |
| MtuBounds.AckAfterLoss | quic-go-bbr/mtu_discoverer.go:198-233 | the case of a probe acknowledged after a loss, including the one in which the minimum and the smallest loss have met |
| MtuRuns.FindPathMtu | quic-go-bbr/mtu_discoverer.go:23-40 | with at most two losses that have nothing to do with the size, the result is never above the path MTU and at most 20 bytes below it (or below the largest size probed) |
| MtuRuns.Report | quic-go-bbr/mtu_discoverer.go:198-253 | the outcome of any probe, reported less than 256 resets after it was sent: it never panics; it counts for exactly the probe in flight if the probe belongs to the current search, and changes nothing otherwise |
| MtuRuns.Migrate | quic-go-bbr/mtu_discoverer.go:164-253 | any order of probes, outcomes and resets, from a new finder: the search takes exactly the course that the events prescribe, the resets are the migrations handled, the outcome of every probe is the first one reported for it after it was sent, and the history of the search is that of the probes sent since the last reset; it stops early exactly at an outcome that comes 256 resets or more after its probe |
| MtuRuns.HandleEvent | quic-go-bbr/mtu_discoverer.go:112-253 | one event: it is refused exactly if it is the outcome of a probe that was sent at least 256 resets before; otherwise the course changes as the event prescribes |
| MtuRuns.ResetsCounted | quic-go-bbr/mtu_discoverer.go:183-196 | on every course the number of resets is the number of migrations |
| MtuRuns.OutcomesReported | quic-go-bbr/mtu_discoverer.go:198-253 | on every course the outcome of a probe is the first one reported for it after it was sent |
| StreamFrames.MaxDataLen | quic-go-bbr/internal/wire/stream_frame.go:136-154 | a frame with this much data fits into the size given, for sizes up to 16383 bytes |
| StreamFrameWire.RoundTrip | quic-go-bbr/internal/wire/stream_frame.go:22-112 | a STREAM frame that was written is read back with its stream, offset, data and FIN if its data fits a packet buffer, and refused otherwise; with a length field whatever follows it |
| StreamFrameWire.AppendFrame | quic-go-bbr/internal/wire/stream_frame.go:86-112 | refused exactly for an empty frame without a FIN; otherwise the type and the fields are written |
| StreamFrameWire.LengthIsWritten | quic-go-bbr/internal/wire/stream_frame.go:114-124 | the length computed for a frame is that of what is written |
| StreamFrames.SplitLeavesRest | quic-go-bbr/internal/wire/stream_frame.go:161-187 | a frame that does not fit is split into two non-empty parts |
| StreamFrames.SplitFrame | quic-go-bbr/internal/wire/stream_frame.go:161-187 | after a split every byte is still in exactly one frame and carries the data sent for it |
| StreamFrames.SplitFin | quic-go-bbr/internal/wire/stream_frame.go:161-187 | after a split the FIN is still on exactly one frame, the one that ends the stream |
| StreamFrames.TruncateAll | quic-go-bbr/send_stream.go:510-535 | dropping everything above the reliable size touches no byte below it |
| SendStreams.SendStream.constructor | quic-go-bbr/send_stream.go:66-83 | a new stream is the initial state of the state machine and satisfies its invariant |
| SendStreams.SendStream.BeginWrite | quic-go-bbr/send_stream.go:107-211 | the checks before the loop of write and its first round are one step of the state machine, and keep its invariant |
| SendStreams.SendStream.WriteRound | quic-go-bbr/send_stream.go:135-211 | one round of the loop in write: data is buffered for the next frame, or the write stops or waits |
| SendStreams.SendStream.StopOrWait | quic-go-bbr/send_stream.go:160-211 | on a deadline exactly the data that was not taken over is dropped from what counts as written; otherwise the write waits, ends, or returns the error of a shutdown or a cancellation |
| SendStreams.SendStream.ResumeWrite | quic-go-bbr/send_stream.go:135-211 | a write that was woken up goes on with another round, and keeps the invariant |
| SendStreams.SendStream.CanBufferStreamFrame | quic-go-bbr/send_stream.go:213-219 | true exactly if the frame that Write would make of the buffered and the new data is not longer than a packet buffer |
| SendStreams.SendStream.PopStreamFrame | quic-go-bbr/send_stream.go:223-238 | which frame comes out, in all cases: the first lost frame, all of it or as much as fits; else new data, as much as the buffer, the window, the packet and the reliable size allow; else the FIN; and none exactly if there is nothing or no room for it; the frame counts as outstanding, nothing else changes, and the invariant is kept |
| SendProgress.LostIsSentAgain | quic-go-bbr/send_stream.go:240-367 | as long as the stream may send, a lost frame is sent again before anything else, if and only if there is room for it or for its header and one byte; it starts with the first byte lost, is all of it with its FIN if it fits, and otherwise leaves at most one byte of room; the rest stays in front of the queue |
| SendProgress.NewIsSent | quic-go-bbr/send_stream.go:240-357 | new data is sent if and only if there is window and room for one byte; the frame carries the next bytes, as many as allowed, and the FIN exactly with the last one of a closed stream |
| SendProgress.FinIsSent | quic-go-bbr/send_stream.go:262-277 | otherwise the FIN is sent exactly if the stream was closed and has not sent it |
| SendProgress.PaysOff | quic-go-bbr/send_stream.go:240-591 | every packet with room lowers what a closed stream, or a cancelled one with reliable data, still has to send, and without losses nothing adds to it |
| SendProgress.ClosedCompletes | quic-go-bbr/send_stream.go:223-411 | in every run after the last loss, once as many packets had room as there are bytes and frames to send and all sent frames are acknowledged, a closed stream was reported as completed, with every byte written and the FIN acknowledged |
| SendProgress.ReliableCompletes | quic-go-bbr/send_stream.go:223-591 | the same for a cancelled stream: all reliable data is acknowledged, and the stream was reported as completed unless it is stuck |
| SendWrites.RoundReturns | quic-go-bbr/send_stream.go:135-211 | a round of Write goes on waiting only with data that does not fit the buffer, on a stream that is neither cancelled nor shut down, before the deadline; otherwise it returns the number of bytes taken |
| SendWrites.BeginReturns | quic-go-bbr/send_stream.go:107-129 | a Write on a cancelled, shut down or closed stream, after the deadline or without data is refused with the right error and takes nothing |
| SendWrites.WriteReturns | quic-go-bbr/send_stream.go:107-211 | in every run, the number that a Write returns is that of the bytes of its data that were added to the stream since it began, from its beginning on; it is all of them unless there is an error |
| SendWrites.EndsFollow | quic-go-bbr/send_stream.go:417-426 | in every run, the stream is closed if and only if Close was called before the connection was shut down, and shut down if and only if it was the other way round |
| SendWrites.KnowsFollow | quic-go-bbr/send_stream.go:395-411 | in every run, the cancellation is flagged if and only if the application has learnt of it: it cancelled the stream itself, or called Write or Close afterwards, or a Write that waited returned the error |
| SendWrites.BoundaryCovers | quic-go-bbr/send_stream.go:447-455 | the reliable boundary is behind everything that Write has taken |
| SendResets.ResetsCarryCode | quic-go-bbr/send_stream.go:476-591 | in every run, the stream is cancelled exactly by the first CancelWrite or STOP_SENDING before a shutdown, and every reset queued or in flight carries the error code of this event and a final size that nothing sent exceeds |
| SendResets.ResetIsOwed | quic-go-bbr/send_stream.go:476-767 | in every run, a reset for the current reliable size of a cancelled stream is queued, in flight or was acknowledged |
| SendResets.ResetIsSent | quic-go-bbr/send_stream.go:593-607 | the reset that is given out is the one that is queued, and it is in flight from then on |
| SendStreams.SendStream.PopNewOrRetransmitted | quic-go-bbr/send_stream.go:240-308 | lost frames go first, then new data at the write offset within the flow control window, then the FIN; after a cancellation only data below the reliable size (the step that SendProgress.PopsExactly describes) |
| SendStreams.SendStream.MaybeGetRetransmission | quic-go-bbr/send_stream.go:359-367 | the first lost frame is sent again as a whole, or its first part if it does not fit (the step that SendProgress.LostIsSentAgain describes) |
| SendStreams.SendStream.PopNewStreamFrame | quic-go-bbr/send_stream.go:312-357 | the buffered frame, or else the waiting data, is sent as far as the size allows; what is left stays at the right offset |
| SendStreams.SendStream.IsNewlyCompleted | quic-go-bbr/send_stream.go:385-411 | completion is reported once, exactly when nothing is buffered, outstanding or to be sent again and the FIN was sent or the cancellation was noticed |
| SendStreams.SendStream.Close | quic-go-bbr/send_stream.go:417-441 | one step of the state machine, which keeps its invariant |
| SendStreams.SendStream.SetReliableBoundary | quic-go-bbr/send_stream.go:447-455 | the boundary is set behind everything sent and buffered; the count of outstanding frames stays right in every later run if and only if the stream is not cancelled, or the boundary does not move, or no reset is queued and nothing in flight is counted differently afterwards; otherwise some run panics, or leaves the stream with a count that is too large |
| SendStreams.SendStream.CancelWrite | quic-go-bbr/send_stream.go:476-540 | data above the reliable size is given up and a reset is queued; the invariant, with its count of outstanding frames, is kept |
| SendStreams.SendStream.KeepReliable | quic-go-bbr/send_stream.go:519-534 | the loop over the lost frames keeps exactly what lies below the reliable size |
| SendStreams.SendStream.HandleStopSendingFrame | quic-go-bbr/send_stream.go:561-591 | everything is given up, also the reliable data, and a reset with reliable size 0 is queued; the invariant is kept |
| SendStreams.SendStream.GetControlFrame | quic-go-bbr/send_stream.go:593-607 | a queued reset is sent and counts as outstanding |
| SendStreams.SendStream.CloseForShutdown | quic-go-bbr/send_stream.go:641-650 | one step of the state machine, which keeps its invariant |
| SendStreams.SendStream.OnAcked | quic-go-bbr/send_stream.go:664-683 | the frame moves from in flight to acknowledged; the count never becomes negative |
| SendStreams.SendStream.OnLost | quic-go-bbr/send_stream.go:685-726 | the frame moves from in flight to the retransmission queue, after a cancellation only what lies below the reliable size; the count never becomes negative |
| SendStreams.SendStream.OnResetAcked | quic-go-bbr/send_stream.go:732-752 | an acknowledged reset is counted only if it carries the current reliable size; the count never becomes negative |
| SendStreams.SendStream.OnResetLost | quic-go-bbr/send_stream.go:754-768 | a lost reset is queued again only if it carries the current reliable size |
| SendSpec.CancelWriteInv | quic-go-bbr/send_stream.go:476-540 | a cancellation keeps conservation, accounting and reporting |
| SendSpec.HandleStopSendingInv | quic-go-bbr/send_stream.go:561-591 | so does STOP_SENDING |
| SendSpec.PopStreamFrameInv | quic-go-bbr/send_stream.go:223-383 | so does sending a frame |
| SendSpec.OnAckedInv | quic-go-bbr/send_stream.go:664-683 | so does an acknowledgement, and the count stays non-negative |
| SendSpec.OnLostInv | quic-go-bbr/send_stream.go:685-726 | so does a loss, and the count stays non-negative |
| SendSpec.OnResetAckedInv | quic-go-bbr/send_stream.go:732-752 | so does the acknowledgement of a reset |
| SendRuns.RunInv | quic-go-bbr/send_stream.go:107-768 | in every run of writes, sends, acknowledgements, losses, cancellations, STOP_SENDING and shutdown the invariant holds and neither the panics about a negative count nor a slice out of bounds can happen |
| SendRuns.RunConserves | quic-go-bbr/send_stream.go:107-383 | without cancellation and shutdown: what was written is what was sent, then what is buffered, then what the writer still holds; every byte sent is in exactly one frame that is acknowledged, in flight or to be sent again, and so is the FIN; the count is the number of frames in flight |
| SendRuns.RunCompletes | quic-go-bbr/send_stream.go:385-411 | completion is reported at most once, and without cancellation exactly when the FIN was sent and nothing is outstanding; then every byte written and the FIN were acknowledged |
| SendRuns.CancelledCompletes | quic-go-bbr/send_stream.go:385-411 | a cancelled stream that is done has all reliable bytes and its reset acknowledged |
| SendRuns.PopsInOrder | quic-go-bbr/send_stream.go:240-357 | new frames start at the write offset and carry contiguous offsets |
| SendRuns.StuckForever | quic-go-bbr/send_stream.go:385-411 | a cancelled stream with data in its buffer that the cancellation does not allow to be sent is never reported as completed, whatever happens, except that STOP_SENDING helps exactly if there was reliable data to give up, and that a shutdown ends it |
| SendRuns.ExcessExactly | quic-go-bbr/send_stream.go:135-211 | of all steps, a cancelled stream gets such data exactly by a blocked Write that continues and whose data fits into the buffer |
| SendRuns.CancelExactly | quic-go-bbr/send_stream.go:476-591 | whether a stream can get stuck is decided when CancelWrite is called or STOP_SENDING arrives: some run from there gets stuck if and only if a Write is blocked then with at most as much data as a packet buffer holds |
| SendRuns.SettledCompletes | quic-go-bbr/send_stream.go:385-411 | once the reset and all reliable data are acknowledged and the application knows, a cancelled stream was reported as completed if and only if it is not stuck |
| SendRuns.CancelledCompletesAlways | quic-go-bbr/send_stream.go:385-591 | a stream that was cancelled while no such Write was blocked is reported as completed in every run, as soon as the reset and the reliable data are acknowledged |
| SendCases.CancelDuringWrite | quic-go-bbr/send_stream.go:135-211 | a run from a new stream that gets stuck, by CancelWrite and by STOP_SENDING |
| SendCases.CancelReliable | quic-go-bbr/send_stream.go:135-211 | a run from a new stream that gets stuck although there is reliable data |
| SendCases.BoundaryAfterCancel | quic-go-bbr/send_stream.go:447-455 | a run from a new stream after which SetReliableBoundary makes the next acknowledgement panic |
| SendCases.BoundaryBeforeReset | quic-go-bbr/send_stream.go:447-455 | a run from a new stream in which SetReliableBoundary is called while the reset is queued: once the reset is sent the count is too large for the stream to be reported as completed |
| SendBoundary.BoundaryExactly | quic-go-bbr/send_stream.go:447-455 | for every state that satisfies the invariant: after SetReliableBoundary the count of outstanding frames is right in every run if and only if the condition on the state before holds; otherwise some run panics or counts too much, and a stream that was not yet reported as completed panics in some run or is stalled in some run |
| SendBoundary.CountingForever | quic-go-bbr/send_stream.go:385-767 | in such a case the count stays right, whatever happens |
| SendBoundary.DifferenceKept | quic-go-bbr/send_stream.go:385-767 | by how much the count is wrong changes only when a reset with an outdated reliable size is sent, or by STOP_SENDING |
| SendBoundary.TooSmall | quic-go-bbr/send_stream.go:664-767 | a count that is too small becomes negative in some run, so that the original panics |
| SendBoundary.StalledForever | quic-go-bbr/send_stream.go:385-411 | a cancelled stream whose count is too large is never reported as completed, whatever happens, unless STOP_SENDING arrives |
| SendWakeups.NoLostWakeup | quic-go-bbr/send_stream.go:107-211 | in every run, a Write that waits without a signal still has data, the stream is neither cancelled nor shut down, and there is no room in the buffer, or there is room but the buffer is not empty |
| SendWakeups.SignalledWhenEmpty | quic-go-bbr/send_stream.go:312-383 | in the latter case the packet that takes the rest of the buffer signals |
| ReceiveStreams.ReceiveStream.Read | quic-go-bbr/receive_stream.go:84-106 | what is returned continues what was read before and has arrived for these offsets; it stops before the buffer is full only where the next byte has not arrived, or with an error that the stream gives reason for: io.EOF exactly at the final offset, and then the stream is completed, the others for a cancellation, an effective reset, a shutdown or the deadline; it waits only as long as the next byte has not arrived, the stream has not ended and is neither cancelled nor shut down, and what happens in the meantime changes the stream as each event prescribes; completion is newly reported exactly by the first Read that returns the end or the reset of a stream whose final offset is known and that the reader has not cancelled |
| ReceiveStreams.ReceiveStream.ReadImpl | quic-go-bbr/receive_stream.go:129-233 | at least one byte is returned unless there is an error; every interleaving of the waiting loop with frames, resets, cancellation and shutdown is covered, and a call that goes on waiting has waited through all of them |
| ReceiveStreams.ReceiveStream.ReadLoop | quic-go-bbr/receive_stream.go:142-232 | the same for the loop that fills the buffer |
| ReceiveStreams.ReceiveStream.ReadRound | quic-go-bbr/receive_stream.go:144-227 | one round of the read loop: a chunk of the current frame, or the reason to stop; only the first round waits |
| ReceiveStreams.ReceiveStream.AwaitFrame | quic-go-bbr/receive_stream.go:152-188 | the waiting loop ends with a frame that has unread data, the end of the stream, or an error with its reason; each time it waited it had to |
| ReceiveStreams.ReceiveStream.DequeueNextFrame | quic-go-bbr/receive_stream.go:356-365 | the buffer of the old frame is released once; there is a next frame if and only if the byte at the read position has arrived |
| ReceiveStreams.ReceiveStream.Consume | quic-go-bbr/receive_stream.go:193-213 | the bytes copied continue what was read, and the rest of the frame remains |
| ReceiveStreams.ReceiveStream.Finish | quic-go-bbr/receive_stream.go:219-226 | the end of the stream: everything up to the final offset was read |
| ReceiveStreams.ReceiveStream.Peek | quic-go-bbr/receive_stream.go:246-354 | nothing is consumed; what is returned are the bytes that follow what was read; all n of them unless there is an error; with io.EOF up to the final offset, after a reset up to the reliable size; the call waits only as long as not all of these bytes have arrived and the stream is neither cancelled nor shut down, and what happens in the meantime changes the stream as each event prescribes |
| ReceiveStreams.ReceiveStream.PeekNow | quic-go-bbr/receive_stream.go:284-328 | the current frame and the queue are combined; the data is the continuation of what was read |
| ReceiveStreams.ReceiveStream.HandleStreamFrame | quic-go-bbr/receive_stream.go:416-432 | it fails if and only if the flow controller refuses the offset or, unless reading was cancelled, too many holes are left; otherwise exactly the bytes of the frame are added, unless reading was cancelled, and a final offset that is known never changes |
| ReceiveStreams.ReceiveStream.AdvanceFlow | quic-go-bbr/receive_stream.go:416-424 | it fails if and only if the flow controller refuses the offset; the final offset is taken over |
| ReceiveStreams.ReceiveStream.HandleResetStreamFrame | quic-go-bbr/receive_stream.go:446-476 | it fails if and only if the stream is not shut down and the flow controller refuses the final size; the final offset is taken over, and never changes; the first reset sets the reliable size, later ones can only lower it; its error code is kept |
| ReceiveStreams.ReceiveStream.CancelRead | quic-go-bbr/receive_stream.go:386-401 | the cancellation is recorded; STOP_SENDING is queued exactly by the first one that comes before an error, a reset and a shutdown |
| ReceiveStreams.ReceiveStream.CloseForShutdown | quic-go-bbr/receive_stream.go:515-520 | the shutdown is recorded, and a waiting call is signalled |
| ReceiveStreams.ReceiveStream.IsNewlyCompleted | quic-go-bbr/receive_stream.go:108-127 | completion is reported at most once, and was reported exactly if the final offset is known and the reader has seen the end or cancelled |
| ReceiveLedger.ReadsPrefix | quic-go-bbr/receive_stream.go:129-233 | for a peer that sends one stream, the bytes read are a prefix of it, and all of it at the end |
| ReceiveLedger.DequeueFaithful | quic-go-bbr/receive_stream.go:356-365 | taking the next frame from the queue keeps the reader faithful to what has arrived |
| ReceiveLedger.PeekFaithful | quic-go-bbr/receive_stream.go:284-328 | the rest of the frame and bytes from the queue are the continuation of what was read |
| ReceiveLedger.PeekedIsRead | quic-go-bbr/receive_stream.go:246-354 | bytes that were peeked are the bytes that later reads return |
| ReceiveEvents.GapsDecide | quic-go-bbr/frame_sorter.go:56-178 | whether too many holes are left depends on what has arrived alone, and is decided by the gaps of the sorter |
| ReceiveEvents.FinalStaysKnown | quic-go-bbr/receive_stream.go:371-476 | a final offset that is known is the one that the flow controller has recorded, and no event changes it |
| ReceiveEvents.SignalledExcept | quic-go-bbr/receive_stream.go:371-528 | for a Read and for a Peek of any length that has to wait: the event lets it return without a signal if and only if it is CancelRead after a reset by the peer (or after the error was read), or another reset that lowers the reliable size far enough |
| ReceiveEvents.NoLostWakeup | quic-go-bbr/receive_stream.go:84-528 | in every run of events and wake-ups, a Read or Peek that waits without a signal has to wait, if and only if no such event happens while there is no signal |
| FinalSizes.ConsistentExactly | quic-go-bbr/internal/flowcontrol/stream_flow_controller.go:49-99 | for all frames of a stream: none is refused if and only if each agrees with those before, that is, no data lies behind a final size, final sizes are equal, none lies in front of data, and new data is within the window |
| ReceiveTotals.FramesTotal | quic-go-bbr/receive_stream.go:371-476 | after any accepted frames, what has arrived is what was in them, the final offset is the one they agree on, and the reliable size is the smallest one announced |
| ReceiveTotals.EndsFollow | quic-go-bbr/receive_stream.go:386-401 | in every run, the stream is shut down if and only if the connection was, and cancelled by the reader if and only if CancelRead was called before that |
| ReceiveRuns.Perform | quic-go-bbr/receive_stream.go:84-520 | one read, peek or event: an event fails exactly if it is refused, and otherwise changes the stream as it prescribes; a read or peek waits as long as it has to, returns the bytes that follow, and stops short only where the next byte is missing or for a reason |
| ReceiveRuns.Session | quic-go-bbr/receive_stream.go:84-520 | any sequence of reads, peeks and events from a new stream: all of them are performed, each from the state that the one before has left, unless a frame closes the connection or io.EOF was read; with a peer that sends the bytes of one stream in any frames and any order, all reads together return a prefix of the stream, every call shows the bytes that follow, and after io.EOF the whole stream up to its final size was read; completion is newly reported by the first Read that tells the reader about the end or the reset, and by no other |
| ReceiveRuns.SessionContent | quic-go-bbr/receive_stream.go:84-528 | for every session, with a peer that sends the bytes of one stream: what was read is a prefix of it, and every call shows what follows |
| ReceiveRuns.WhilePeeking | quic-go-bbr/receive_stream.go:371-528 | a Peek that has to wait is signalled by every event that lets it return, except exactly by CancelRead after a reset by the peer (or after the error was read) and by another reset that lowers the reliable size to where everything has arrived |
| ReceiveRuns.MissedWakeup | quic-go-bbr/receive_stream.go:386-401 | a run from a new stream in which a Read waits for reliable data and CancelRead lets it return without a signal |
| ReceiveRuns.MissedReset | quic-go-bbr/receive_stream.go:446-476 | a run from a new stream in which a Read waits for reliable data and another reset lets it return without a signal |
| ClientHello.FindSniAndEch | quic-go-bbr/sni.go:19-136 | positions are reported if and only if the message is a complete, well-formed ClientHello, and then they are exactly those of the first host name and of the ECH extension among the extensions up to where the search ends |
| ClientHello.LocateMeans | quic-go-bbr/sni.go:19-136 | the same for the function that the search computes: it succeeds exactly if all fields and extensions are in bounds and, up to where both are found, no extension is repeated and every list of names is well-formed |
| ClientHello.ScanMeans | quic-go-bbr/sni.go:80-135 | the part of it over the extensions, from any of them on |
| ClientHello.LocatedOnce | quic-go-bbr/sni.go:27-29 | of all prefixes of a message at most one is a complete ClientHello |
| ClientHello.FindHostName | quic-go-bbr/sni.go:100-120 | a list of names is accepted exactly if every name up to the first host name ends within it; the position is that of the first host name, or none if there is no host name |
| ClientHello.SkipToExtensions | quic-go-bbr/sni.go:31-76 | the extensions start after the version, random, session ID, cipher suites and compression methods, if these fit |
| CryptoStreams.InitialCryptoStream.constructor | quic-go-bbr/crypto_stream.go:114-129 | a new stream has nothing to send and has received nothing |
| CryptoStreams.InitialCryptoStream.HandleCryptoFrame | quic-go-bbr/crypto_stream.go:34-56 | data beyond 16384 bytes is refused, and data above the highest offset after the level was finished; everything else is taken over, and the limit on gaps is never hit |
| CryptoStreams.FewGaps | quic-go-bbr/crypto_stream.go:34-56 | within 16384 bytes there are at most 8193 gaps |
| CryptoStreams.InitialCryptoStream.GetCryptoData | quic-go-bbr/crypto_stream.go:59-62 | the next data in order, if and only if it has arrived |
| CryptoStreams.InitialCryptoStream.FinishReading | quic-go-bbr/crypto_stream.go:64-73 | a level is finished if and only if nothing that has arrived is unread |
| CryptoStreams.InitialCryptoStream.WriteData | quic-go-bbr/crypto_stream.go:140-180 | the data is appended; the buffer is searched exactly until the ClientHello was cut, with the result that the search specifies; slices stay in bounds for every ClientHello, and no byte is lost or duplicated if its positions are good |
| CryptoStreams.InitialCryptoStream.MakeCuts | quic-go-bbr/crypto_stream.go:159-177 | the two cuts are the second half of the host name and 16 bytes from the middle of the ECH extension type, and they are in the order in which they start |
| CryptoStreams.InitialCryptoStream.HasDataToSend | quic-go-bbr/crypto_stream.go:131-138 | in a sound stream, true if and only if some byte written is in no frame yet and the ClientHello is not waited for |
| CryptoStreams.InitialCryptoStream.PopCryptoFrame | quic-go-bbr/crypto_stream.go:182-249 | one frame of the plain or scrambled stream; slices stay in bounds, and soundness (every byte sent is in exactly one frame at its true offset) is kept |
| CryptoStreams.InitialCryptoStream.PopSkipped | quic-go-bbr/crypto_stream.go:187-219 | the skipped parts are sent in order; when none is left, plain sending continues behind the ClientHello |
| CryptoStreams.InitialCryptoStream.PopUpToCut | quic-go-bbr/crypto_stream.go:221-248 | data up to the next cut is sent, and a cut that is reached is skipped |
| CryptoStreams.InitialCryptoStream.PopBuffered | quic-go-bbr/crypto_stream.go:85-95 | the frame continues at the write offset with the front of the buffer, and the rest stays; the encoded frame fits the size for up to 16383 bytes of data and leaves at most one byte of it if data is left; there is no frame exactly if the buffer is empty or no byte fits |
| CryptoLedger.PopSound | quic-go-bbr/crypto_stream.go:182-249 | after every frame sent: frames carry the bytes written, none is in two frames, and those sent are all below the write offset except what is left of the cuts |
| CryptoLedger.PopInBounds | quic-go-bbr/crypto_stream.go:182-249 | sending keeps the bounds that make the next slice valid, whatever the cuts are |
| CryptoLedger.PopProgress | quic-go-bbr/crypto_stream.go:182-249 | as long as there is data and room for a byte, a frame is sent, and less is left to send |
| CryptoLedger.AllSent | quic-go-bbr/crypto_stream.go:182-249 | when nothing is left, every byte written is in exactly one frame |
| CryptoLedger.WriteSound | quic-go-bbr/crypto_stream.go:140-180 | writing keeps soundness if the positions in the ClientHello, when it is complete, are good |
| CryptoLedger.FoundOnce | quic-go-bbr/crypto_stream.go:145-149 | data behind the ClientHello does not make it look complete again |
| CryptoLedger.CutsAreGood | quic-go-bbr/crypto_stream.go:159-177 | whatever was found, the cuts are non-empty, behind the first byte and apart from each other if and only if the second half of the host name is not empty and does not touch the cut through the ECH extension |
| CryptoLedger.MaxDataFits | quic-go-bbr/internal/wire/crypto_frame.go:49-66 | a CRYPTO frame with as much data as is computed fits, and leaves at most one byte |
| CryptoRuns.Deliver | quic-go-bbr/crypto_stream.go:34-62 | frames delivered in any order and any number of times are all accepted, and what is read is what was written up to the first byte not delivered |
| CryptoRuns.Transfer | quic-go-bbr/crypto_stream.go:34-249 | lossless scrambling from a new stream: a ClientHello with good positions is written in any pieces and more data behind it, frames of any sizes are taken out in between whenever there is data, the rest at the end, and every frame arrives at least once in any order; what is read is what was written |
| ScramblingRuns.RunSound | quic-go-bbr/crypto_stream.go:131-249 | every run from a new stream, with writes and frames of any sizes in any order: if the positions in the ClientHello are good, frames carry the bytes written, none is in two frames, and those sent are all below the write offset except what is left of the cuts |
| ScramblingRuns.WaitsExactly | quic-go-bbr/crypto_stream.go:131-180 | in every run that takes frames only while there is data (as it is done when a packet is composed), the stream waits, with nothing sent, exactly as long as no write has ended where a well-formed ClientHello ends |
| ScramblingRuns.LosslessExactly | quic-go-bbr/crypto_stream.go:131-249 | for every ClientHello in which something is found and every split of it into writes: it can be sent so that every byte is in exactly one frame and nothing is left, if and only if there is nothing to cut or the second half of the host name is not empty, not at the start, and does not touch the cut through the ECH extension |
| ScramblingRuns.SilentForever | quic-go-bbr/crypto_stream.go:131-138 | if the first cut is not in use after the ClientHello was cut, the stream never says that it has data, whatever is written |
| ScramblingRuns.BlockedForever | quic-go-bbr/crypto_stream.go:187-219 | an empty cut is never removed, and nothing behind the ClientHello is ever sent |
| ScramblingRuns.DoubledForever | quic-go-bbr/crypto_stream.go:187-248 | a byte that two cuts share, that starts a cut touching the one before, or that is first in the message, was sent twice or still will be, in every run |
| ScramblingRuns.EmptyWrite | quic-go-bbr/crypto_stream.go:140-180 | an empty write breaks a sound stream if and only if just the second cut is left and nothing was written behind the ClientHello |
| ScramblingCases.EmptyWriteRepeats | quic-go-bbr/crypto_stream.go:140-180 | a run from a new stream with a short ClientHello: when just the second cut is left, an empty Write has the ClientHello cut again, and the next frame is sent a second time |
| ScramblingCases.HostNameAlone | quic-go-bbr/crypto_stream.go:131-249 | a ClientHello with one host name and no ECH is sent without loss if and only if the host name is not empty |
| ScramblingCases.HostNameBehindEch | quic-go-bbr/crypto_stream.go:131-249 | a ClientHello with an empty ECH extension in front of one host name is sent without loss if and only if the host name has at least ten bytes |
| ScramblingCases.EchAlone | quic-go-bbr/crypto_stream.go:131-249 | a ClientHello with ECH and without a host name is never sent at all |
| OutgoingStreams.OutgoingStreamsMap.constructor | quic-go-bbr/streams_map_outgoing.go:38-63 | a new map is the initial state of the state machine and satisfies its invariant |
| OutgoingStreams.OutgoingStreamsMap.OpenStreamNow | quic-go-bbr/streams_map_outgoing.go:65-79 | a stream is opened only if nobody waits and the limit allows it; the invariant is kept |
| OutgoingStreams.OutgoingStreamsMap.BeginOpenStreamSync | quic-go-bbr/streams_map_outgoing.go:81-97 | a stream is opened at once, or the call is queued last and STREAMS_BLOCKED announced; the invariant is kept |
| OutgoingStreams.OutgoingStreamsMap.ReceiveSignal | quic-go-bbr/streams_map_outgoing.go:99-112 | receiving from the channel is a step that keeps the invariant |
| OutgoingStreams.OutgoingStreamsMap.ContextEnds | quic-go-bbr/streams_map_outgoing.go:101-102 | the end of the context is a step that keeps the invariant, even if a signal is waiting |
| OutgoingStreams.OutgoingStreamsMap.AfterContextEnds | quic-go-bbr/streams_map_outgoing.go:102-110 | the call leaves the queue and the signal is passed on to the next call |
| OutgoingStreams.OutgoingStreamsMap.AfterReceive | quic-go-bbr/streams_map_outgoing.go:114-126 | the call opens a stream and signals the next one; that there is no stream after all cannot happen |
| OutgoingStreams.OutgoingStreamsMap.DeleteFromQueue | quic-go-bbr/streams_map_outgoing.go:104-106 | exactly the entry of this call is removed |
| OutgoingStreams.OutgoingStreamsMap.SetMaxStreamId | quic-go-bbr/streams_map_outgoing.go:182-195 | limits only grow; the first call is signalled, and STREAMS_BLOCKED is sent if not all calls can be served |
| OutgoingStreams.OutgoingStreamsMap.MaybeUnblockOpenSync | quic-go-bbr/streams_map_outgoing.go:217-230 | the first call is signalled if there is a stream, on a channel that is open |
| OutgoingStreams.OutgoingStreamsMap.MaybeSendBlockedFrame | quic-go-bbr/streams_map_outgoing.go:138-152 | afterwards a STREAMS_BLOCKED frame for the current limit was queued, it is the last one, and there is still at most one per limit |
| OutgoingStreams.OutgoingStreamsMap.DeleteStreamById | quic-go-bbr/streams_map_outgoing.go:168-180 | a stream that exists is deleted; the invariant is kept |
| OutgoingStreams.OutgoingStreamsMap.Close | quic-go-bbr/streams_map_outgoing.go:232-246 | the channel of every waiting call is closed, none of them twice; the invariant is kept |
| OutgoingSpec.FinishCancelInv | quic-go-bbr/streams_map_outgoing.go:102-110 | giving up keeps the invariant: no wake-up is lost |
| OutgoingSpec.FinishReceiveInv | quic-go-bbr/streams_map_outgoing.go:114-126 | opening a stream keeps the invariant |
| OutgoingSpec.SetMaxStreamInv | quic-go-bbr/streams_map_outgoing.go:182-195 | a new limit keeps the invariant |
| OutgoingSpec.WokenIsHead | quic-go-bbr/streams_map_outgoing.go:114-123 | a call that was woken up is the first in the queue and there is a stream for it |
| OutgoingRuns.RunInv | quic-go-bbr/streams_map_outgoing.go:65-246 | the invariant holds in every interleaving of opening, waiting, cancelling, limits and closing |
| OutgoingRuns.NoLostWakeup | quic-go-bbr/streams_map_outgoing.go:81-230 | in every run: if calls wait and a stream could be opened, the first one has a signal waiting, has received it, or is giving up; nobody else has one; the channels in the queue are open |
| OutgoingRuns.OpensInOrder | quic-go-bbr/streams_map_outgoing.go:65-195 | in every run: no panic, stream IDs without gaps and never above the limit, calls served in the order in which they came, at most one STREAMS_BLOCKED per limit, and one for the current limit while calls wait that cannot be served |
| OutgoingAnswers.AnswersExactly | quic-go-bbr/streams_map_outgoing.go:65-136 | in every run, in terms of the events before: which call returns which stream, limit, context or closing error; a stream that is returned is the next one, and is the one that is opened |
| OutgoingAnswers.DeletesExactly | quic-go-bbr/streams_map_outgoing.go:168-180 | a deletion succeeds if and only if the stream was opened and not deleted before |
| OutgoingRuns.OnlyHeadOpens | quic-go-bbr/streams_map_outgoing.go:65-126 | only the first waiting call opens a stream, and others only if nobody waits |
| OutgoingRuns.CloseWakesAll | quic-go-bbr/streams_map_outgoing.go:232-246 | after closing every blocked call can go on and returns |
| OutgoingRuns.Settles | quic-go-bbr/streams_map_outgoing.go:81-230 | left alone, the waiting calls take all streams that are available, first come, first served |
| ConnIdManagers.ConnIdManager.constructor | quic-go-bbr/conn_id_manager.go:45-58 | a new manager knows the first connection ID, and its accounts are balanced |
| ConnIdManagers.ConnIdManager.Add | quic-go-bbr/conn_id_manager.go:64-72 | which of the three errors is returned, exactly; unless there is a conflict, order and accounts are kept, and the connection ID and the token of a frame that is taken in are queued under its number, or active |
| ConnIdManagers.ConnIdManager.AddFrame | quic-go-bbr/conn_id_manager.go:74-130 | an out-of-date connection ID is retired at once; otherwise everything below Retire Prior To is retired, the new one is queued in order, and the active one replaced if it has to be; a conflict is reported exactly if another ID or token was queued for the number; the connection ID and the token of the frame are then queued under its number, or active |
| ConnIdManagers.ConnIdManager.RetirePaths | quic-go-bbr/conn_id_manager.go:90-100 | exactly the paths below Retire Prior To lose their connection IDs, and the accounts stay balanced |
| ConnIdManagers.ConnIdManager.RetireQueued | quic-go-bbr/conn_id_manager.go:103-114 | exactly the queued IDs below Retire Prior To are retired, and the accounts stay balanced |
| ConnIdManagers.ConnIdManager.AddConnectionId | quic-go-bbr/conn_id_manager.go:132-166 | the fast and the slow path both insert the ID at its place in the order; the end of the loop is unreachable |
| ConnIdManagers.ConnIdManager.UpdateConnectionId | quic-go-bbr/conn_id_manager.go:168-186 | the active ID is retired and the first queued one, which has a larger number, takes its place |
| ConnIdManagers.ConnIdManager.AddFromPreferredAddress | quic-go-bbr/conn_id_manager.go:60-62 | the ID with number 1 is queued, and refused exactly if another one is queued for this number; order and accounts are kept if and only if it is refused, queued already, or the first ID is active and no path was given a number above 1 |
| ConnIdManagers.ConnIdManager.Close | quic-go-bbr/conn_id_manager.go:188-198 | every reset token that was added is removed |
| ConnIdManagers.ConnIdManager.SetStatelessResetToken | quic-go-bbr/conn_id_manager.go:210-217 | tokens stay accounted for if and only if no token was set before |
| ConnIdManagers.ConnIdManager.Get | quic-go-bbr/conn_id_manager.go:223-244 | if the ID is to be changed there is one to change to; the active number never sinks |
| ConnIdManagers.ConnIdManager.GetConnIdForPath | quic-go-bbr/conn_id_manager.go:254-277 | a path keeps its ID; a new path gets the first queued one, and the accounts stay balanced |
| ConnIdManagers.ConnIdManager.RetireConnIdForPath | quic-go-bbr/conn_id_manager.go:279-295 | the ID of the path is retired and its token removed |
| ConnIdManagers.ConnIdManager.IsActiveStatelessResetToken | quic-go-bbr/conn_id_manager.go:297-311 | true exactly for the tokens that were added and not removed |
| ConnIdLedger.RetirePriorTo | quic-go-bbr/conn_id_manager.go:74-130 | after a frame that is not out of date no queued, active or probing number is below its Retire Prior To, the new number is active or queued, no other queued ID is lost, and the active number did not sink |
| ConnIdRuns.Run | quic-go-bbr/conn_id_manager.go:60-295 | any events on a new manager, with frames, the preferred address, the handshake token, changes of the initial ID, packets and paths: each of them leads from its state to the next as it prescribes, and the run ends early exactly at the first one that is refused; if none is, order and accounts are kept; every connection ID received is active, queued, used for a path or retired at the end; if none was a harmful repetition, none is at two places or in use although it was retired; after closing no reset token is left |
| ConnIdRuns.Handle | quic-go-bbr/conn_id_manager.go:60-295 | one event is handled if and only if it is not refused (a frame: connection IDs have no length, it is in conflict with the queue, or the queue becomes too long), and then changes the queue, the paths, the active ID and the packet counters as it prescribes |
| ConnIdRuns.HappensKeeps | quic-go-bbr/conn_id_manager.go:60-295 | no event loses a number, every connection ID received is taken in, and only a harmful repetition spoils a manager in which nothing is at two places |
| ConnIdRuns.RunKeeps | quic-go-bbr/conn_id_manager.go:60-295 | for every run: order and accounts are kept, all numbers received were taken in, and without a harmful repetition nothing is at two places |
| ConnIdLedger.FrameHeld | quic-go-bbr/conn_id_manager.go:74-186 | the connection ID and the token that a frame brings are queued under its number, or become the active ones |
| ConnIdOrigins.RunGenuine | quic-go-bbr/conn_id_manager.go:60-295 | in every run, what is active, queued or used for a path under a number is a connection ID and a token that one event has brought together under this number, or stems from the handshake; every reset token added was brought by an event |
| ConnIdChanges.ChangesAfterEnough | quic-go-bbr/conn_id_manager.go:168-244 | in every run, a packet that is built changes the connection ID if and only if the handshake is complete, at least two others are queued, and as many packets were sent since the last change as were drawn then, at least 5000 |
| ConnIdChanges.FirstChange | quic-go-bbr/conn_id_manager.go:223-244 | the first connection ID is changed by the first packet that is built after the handshake with another one queued |
| ConnIdRuns.RepeatedFrame | quic-go-bbr/conn_id_manager.go:74-277 | runs from a new manager with two frames and two paths: repeating the first frame retires an ID that a path uses, repeating the second one queues an ID that a path uses |
| ConnIdRuns.LatePreferredAddress | quic-go-bbr/conn_id_manager.go:60-62 | a run from a new manager: number 1 is active when the preferred address is added, which spoils the order |
| ConnIdRuns.TwoHandshakeTokens | quic-go-bbr/conn_id_manager.go:210-217 | a run from a new manager: of two tokens that are set the first one is never removed |
| ConnIdRuns.NothingLost | quic-go-bbr/conn_id_manager.go:74-295 | a number was taken in if and only if it is active, queued, used for a path or retired |
| ConnIdLedger.RotateKept | quic-go-bbr/conn_id_manager.go:168-186 | replacing the active ID keeps the order and the accounts |
| ConnIdLedger.NothingTwice | quic-go-bbr/conn_id_manager.go:74-295 | a number that was taken in only once is at exactly one place: active, queued, used for one path, or retired |
| ConnIdRepeats.RepetitionExactly | quic-go-bbr/conn_id_manager.go:74-130 | a frame handled without an error retires an ID in use or puts one at two places if and only if its number is that of the active ID while a path was given a later one, that of an ID used for a path, or the last one given to a path while the active one is earlier |
| ConnIdRepeats.FrameTidy | quic-go-bbr/conn_id_manager.go:74-130 | between such frames everything stays at one place, and only numbers of the past are retired |
| ConnIdRepeats.TakenInTwice | quic-go-bbr/conn_id_manager.go:103-129 | a frame that is taken in does harm if and only if it adds a number to the queue that was received before |
| IncomingStreams.IncomingStreamsMap.constructor | quic-go-bbr/streams_map_incoming.go:42-71 | a new map is the initial state of the state machine and satisfies its invariant |
| IncomingStreams.IncomingStreamsMap.BeginAcceptStream | quic-go-bbr/streams_map_incoming.go:73-78 | draining the channel keeps the invariant |
| IncomingStreams.IncomingStreamsMap.LookForStream | quic-go-bbr/streams_map_incoming.go:80-113 | the next stream in order is accepted, and deleted if it was completed before; otherwise the call waits or returns the error |
| IncomingStreams.IncomingStreamsMap.GetOrOpen | quic-go-bbr/streams_map_incoming.go:115-153 | IDs above the limit are refused; otherwise all streams up to the ID are opened; a deleted stream is not returned; a closed map may be asked as long as no stream would be opened, since that panics (IncomingAnswers.AnswersExactly says which answer is given when) |
| IncomingAnswers.AnswersExactly | quic-go-bbr/streams_map_incoming.go:115-199 | in every run, in terms of the events before: an ID is refused if and only if it is above the limit that the peer was told, there is no stream if and only if it was deleted after it had been used, and otherwise the stream is returned; a deletion succeeds if and only if the stream was used and not deleted before |
| IncomingAnswers.AcceptsNext | quic-go-bbr/streams_map_incoming.go:74-113 | in every run, AcceptStream returns the next stream in order if and only if the peer has used it and the map is not closed |
| IncomingAnswers.CallsFollow | quic-go-bbr/streams_map_incoming.go:74-113 | in every run, where each call of AcceptStream is: a call looks when it begins and after a signal, then returns if the map is closed or the next stream was used, and waits otherwise until its context ends; there is a signal if and only if a stream was opened since a call began or received the last one |
| IncomingStreams.IncomingStreamsMap.DeleteById | quic-go-bbr/streams_map_incoming.go:155-199 | a stream not accepted yet is marked once; an accepted one is deleted |
| IncomingStreams.IncomingStreamsMap.DeleteAccepted | quic-go-bbr/streams_map_incoming.go:185-198 | the accepted stream is gone, and the invariant holds again: the limit told to the peer is the maximum number and the streams deleted |
| IncomingStreams.IncomingStreamsMap.Close | quic-go-bbr/streams_map_incoming.go:201-209 | the invariant is kept |
| IncomingSpec.OpenUpToInv | quic-go-bbr/streams_map_incoming.go:138-150 | opening stream by stream keeps the IDs contiguous and within the credit |
| IncomingSpec.LookInv | quic-go-bbr/streams_map_incoming.go:80-113 | accepting keeps the invariant |
| IncomingSpec.DeleteStreamInv | quic-go-bbr/streams_map_incoming.go:168-199 | deleting keeps the invariant |
| IncomingRuns.RunCredit | quic-go-bbr/streams_map_incoming.go:73-199 | in every run there are at most maxNumStreams streams, the limit told to the peer is exactly maxNumStreams and the streams deleted (up to the largest stream number), it never sinks, and streams are accepted once each in order |
| IncomingRuns.StepMonotone | quic-go-bbr/streams_map_incoming.go:73-199 | MAX_STREAMS frames only ever raise the limit |
| IncomingRuns.StrandedExactly | quic-go-bbr/streams_map_incoming.go:73-149 | of all steps, a call is left waiting for a stream that is there, without a signal and with nobody looking, exactly by another call that accepts a stream while the one after it is there as well, no signal is left, and no third call is looking |
| IncomingRuns.RunNotStranded | quic-go-bbr/streams_map_incoming.go:73-149 | as long as calls of AcceptStream do not overlap, this never happens |
| IncomingSpec.GrantCredits | quic-go-bbr/streams_map_incoming.go:186-197 | granting makes up for a stream that was deleted |
| IncomingRuns.SecondCallDrainsSignal | quic-go-bbr/streams_map_incoming.go:73-102 | a run from a new map in which the second of two calls drains the signal meant for the first |
| IncomingRuns.OneSignalForTwo | quic-go-bbr/streams_map_incoming.go:73-102 | a run from a new map in which two calls wait and there is one signal for two streams |
| ConnIdGenerators.ConnIdGenerator.constructor | quic-go-bbr/conn_id_generator.go:60-79 | the first connection IDs are registered |
| ConnIdGenerators.ConnIdGenerator.SetMaxActiveConnIds | quic-go-bbr/conn_id_generator.go:81-97 | as many IDs are issued as the peer stores, at most six, and never fewer than before |
| ConnIdGenerators.ConnIdGenerator.Retire | quic-go-bbr/conn_id_generator.go:99-125 | a number above the highest issued one is refused, and so is the ID that the packet was sent to, and nothing else is; a number retired before changes nothing; otherwise the ID waits to expire and is replaced, except for the first one, and it fails only if no new ID can be generated |
| ConnIdGenerators.ConnIdGenerator.QueueForRetiring | quic-go-bbr/conn_id_generator.go:127-135 | the list stays sorted by time and gains exactly this entry |
| ConnIdGenerators.ConnIdGenerator.IssueNewConnId | quic-go-bbr/conn_id_generator.go:137-151 | the next sequence number is issued and registered |
| ConnIdGenerators.ConnIdGenerator.SetHandshakeComplete | quic-go-bbr/conn_id_generator.go:153-158 | the ID chosen by the client waits to expire |
| ConnIdGenerators.ConnIdGenerator.RemoveRetiredConnIds | quic-go-bbr/conn_id_generator.go:160-171 | exactly the IDs that have expired are removed |
| ConnIdGenerators.ConnIdGenerator.RemoveAll | quic-go-bbr/conn_id_generator.go:173-183 | every ID that was added to the transport is removed |
| ConnIdRegistry.RegisteredSet | quic-go-bbr/conn_id_generator.go:81-183 | an ID is registered if and only if it is the one chosen by the client, active, or waiting to expire, and at only one of these places if it was added once |
| ConnIdRegistry.LaterIsSuffix | quic-go-bbr/conn_id_generator.go:160-171 | in a sorted list the loop that stops at the first later entry leaves exactly the later ones |
| TokenRing.SingleOriginTokenStore.Add | quic-go-bbr/token_store.go:19-23 | the token is pushed on a bounded stack, which drops its oldest one |
| TokenRing.SingleOriginTokenStore.Pop | quic-go-bbr/token_store.go:25-31 | the newest token, or none if there is none; the others stay |
| TokenRing.AddPushes | quic-go-bbr/token_store.go:19-40 | the ring with a wrapping index refines the bounded stack |
| TokenRing.PopPops | quic-go-bbr/token_store.go:25-40 | so does taking the newest token |
| TokenStores.LruTokenStore.Put | quic-go-bbr/token_store.go:70-99 | the map, the list and the ring buffers refine a recency-ordered list of stacks: the origin moves to the front, or the least recently used one is replaced |
| TokenStores.LruTokenStore.Pop | quic-go-bbr/token_store.go:101-116 | the newest token of the origin, which moves to the front or disappears with its last token |
| TokenStores.KeepsMostRecent | quic-go-bbr/token_store.go:70-99 | after any puts the store holds exactly the most recently put origins, as many as there is room for, each with 1 to tokensPerOrigin tokens |
| TokenRuns.OrderedByUse | quic-go-bbr/token_store.go:70-116 | after any puts and pops the origins are in the order of their last use |
| TokenRuns.DropsOldest | quic-go-bbr/token_store.go:91-98 | a token for another origin in a full store drops exactly the origin that was not used for the longest time |
| TokenRuns.KeepsRecent | quic-go-bbr/token_store.go:70-116 | whatever is put and popped, an origin that was just used stays with all its tokens until as many other origins were used as there is room for |
| TokenAnswers.StepTokens | quic-go-bbr/token_store.go:70-116 | putting and popping changes the tokens of the origin as it should, and those of no other one, except that a full store drops the least recently used origin |
| TokenAnswers.HoldsAll | quic-go-bbr/token_store.go:70-116 | as long as there is room for all origins, the tokens of each are those put and not popped, at most as many as allowed, and a pop gives out the newest one |
| TokenAnswers.LatestComesOut | quic-go-bbr/token_store.go:70-116 | the token put last for an origin is the one given out next, as long as fewer other origins were used in between than there is room for |
| TokenStores.PopOkSpec | quic-go-bbr/token_store.go:101-116 | a token comes out if and only if the origin is present |
| TokenStores.MapFinds | quic-go-bbr/token_store.go:70-116 | the map knows exactly the origins in the list, and leads to their elements |
| Varint.Append | quic-go-bbr/quicvarint/varint.go:113-130 | the encoding in the shortest length |
| Varint.AppendWithLen | quic-go-bbr/quicvarint/varint.go:133-159 | the encoding in the length asked for |
| Varint.ByteReader.ReadVarint | quic-go-bbr/quicvarint/varint.go:32-78 | the same value and the same number of bytes as Parse; at the end of the data everything is consumed |
| Varint.ParseMeans | quic-go-bbr/quicvarint/varint.go:82-110 | the first two bits are the length, and the rest is the number in network byte order |
| Varint.ParseEncoded | quic-go-bbr/quicvarint/varint.go:82-159 | Parse inverts the encoding in every length, whatever follows |
| Varint.ParsedIsEncoded | quic-go-bbr/quicvarint/varint.go:82-159 | whatever Parse accepts is the encoding of the value in the length consumed |
| Varint.LenFits | quic-go-bbr/quicvarint/varint.go:164-180 | a number fits into exactly the lengths that are not shorter than Len |
| SettingsFrames.Append | quic-go-bbr/http3/frames.go:263-296 | type, exact length and payload, in whatever orders the map is walked |
| SettingsFrames.PayloadLen | quic-go-bbr/http3/frames.go:265-278 | the length that is computed is that of the payload |
| SettingsFrames.SameLength | quic-go-bbr/http3/frames.go:263-296 | the length does not depend on the order of the walk |
| SettingsFrames.ParseSettingsFrame | quic-go-bbr/http3/frames.go:181-261 | frames longer than 8192 bytes, truncated frames, duplicates and invalid values are refused; otherwise the settings in the payload (SettingsMeaning.ParseMeans says what they mean) |
| SettingsFrames.ParseBuffer | quic-go-bbr/http3/frames.go:192-247 | the loop reads settings one by one until the payload ends or one is refused |
| SettingsMeaning.ParseMeans | quic-go-bbr/http3/frames.go:181-261 | for every payload: the error names the first setting that is repeated or is a flag with a value above 1; otherwise a payload that ends within a setting is refused, and every other one is accepted, with the flags set exactly by the value 1, the size that was given or none, and exactly the remaining settings as others |
| SettingsMeaning.WrittenMeans | quic-go-bbr/http3/frames.go:181-300 | the same for a payload written from any list of settings: it is accepted if and only if no identifier is repeated and the flags are 0 or 1 |
| SettingsFrames.RoundTrip | quic-go-bbr/http3/frames.go:181-296 | a frame parses back to itself, whatever the order of the walk, if no recognised setting is among the others |
| SettingsFrames.NoRoundTrip | quic-go-bbr/http3/frames.go:181-296 | a frame with a recognised setting among the others never does |
| Http3Frames.ParseNext | quic-go-bbr/http3/frames.go:54-139 | the next frame that is not skipped, from what follows its header |
| Http3Frames.SettingsRoundTrip | quic-go-bbr/http3/frames.go:54-296 | a SETTINGS frame parses back to itself if and only if no recognised setting is among the others, its maximum field section size is not below -1, and its payload has at most 8192 bytes |
| SettingsFrames.NoSizeRoundTrip | quic-go-bbr/http3/frames.go:181-261 | no payload is read as a frame with a maximum field section size below -1 |
| Http3Frames.GoAwayRoundTrip | quic-go-bbr/http3/frames.go:302-327 | a GOAWAY frame parses back to itself |
| Http3Frames.DataRoundTrip | quic-go-bbr/http3/frames.go:54-158 | the headers of DATA and HEADERS frames are parsed back, each to its own kind |
| Http3Frames.AppendHeader | quic-go-bbr/http3/frames.go:141-158 | what is appended is parsed as the frame it was written for |
| Http3Frames.ReservedRefused | quic-go-bbr/http3/frames.go:54-139 | the frame types of HTTP/2 are refused |
| Http3Frames.SkipsUnknown | quic-go-bbr/http3/frames.go:54-139 | unknown and unsupported frames make no difference to what is parsed next |
| SendStreams.SendStream.TruncateToReliable | quic-go-bbr/send_stream.go:510-535 | of the buffered and the lost frames exactly what lies below the reliable size is kept |
| SendStreams.SendStream.TakeData | quic-go-bbr/send_stream.go:312-383 | a prefix of the buffered frame, or else of the waiting data, is taken, and the rest stays |
| ReceiveStreams.ReceiveStream.PeekRound | quic-go-bbr/receive_stream.go:264-332 | one round of the peek loop: the loop goes on only if the call has to wait |
| ReceiveStreams.ReceiveStream.PeekData | quic-go-bbr/receive_stream.go:280-332 | the part of it behind the checks for errors |
| ReceiveStreams.ReceiveStream.PeekUpTo | quic-go-bbr/receive_stream.go:305-327 | exactly the bytes up to the reliable size or the final offset, if they have arrived |
| ReceiveStreams.ReceiveStream.PopNext | quic-go-bbr/receive_stream.go:356-365 | the old buffer is released, and the callback of the next frame is held by the stream |
| ReceiveStreams.ReceiveStream.RecordReset | quic-go-bbr/receive_stream.go:450-475 | the reliable size is set by the first reset and lowered by later ones; the error is kept unless reading was cancelled before |
| ReceiveStreams.ReceiveStream.Apply | quic-go-bbr/receive_stream.go:386-520 | whatever happens while a reader waits: it fails if and only if one of the events is refused in the state that it finds; otherwise the stream changes as each event prescribes |
| ReceiveStreams.ReceiveStream.ApplyOne | quic-go-bbr/receive_stream.go:371-528 | one event fails if and only if it is refused, and changes the stream as it prescribes; a Read that has to wait is signalled by every event that lets it return, except exactly by CancelRead after a reset by the peer (or after the error was read) and by another reset that lowers the reliable size to what was read |
| ReceiveStreams.ReceiveStream.PushData | quic-go-bbr/receive_stream.go:427-430 | the bytes of the frame are added to what has arrived; it fails if and only if too many holes are left |
| CryptoStreams.InitialCryptoStream.TakeFromCut | quic-go-bbr/crypto_stream.go:199-210 | a frame with the front of a cut, which is shortened or given up |
| OutgoingStreams.OutgoingStreamsMap.OpenOne | quic-go-bbr/streams_map_outgoing.go:129-134 | the stream ID is new, and if it is within the limit the streams opened are still exactly the first ones |
| IncomingStreams.IncomingStreamsMap.ReceiveSignal | quic-go-bbr/streams_map_incoming.go:96-101 | receiving the signal keeps the invariant |
| IncomingStreams.IncomingStreamsMap.ContextEnds | quic-go-bbr/streams_map_incoming.go:96-98 | giving up keeps the invariant |
| IncomingStreams.IncomingStreamsMap.QueueMaxStreams | quic-go-bbr/streams_map_incoming.go:186-197 | after a deletion that the peer was not told about, the limit is again exactly the maximum number and the streams deleted, up to the largest stream number, and the limits told increase |
| ConnIdManagers.ConnIdManager.RetireBefore | quic-go-bbr/conn_id_manager.go:90-114 | exactly the paths and queued IDs below Retire Prior To are retired, and the accounts stay balanced |
| ConnIdManagers.ConnIdManager.ChangeInitialConnId | quic-go-bbr/conn_id_manager.go:202-207 | the first connection ID is replaced; order and accounts are kept |
| TokenStores.LruTokenStore.constructor | quic-go-bbr/token_store.go:61-68 | an empty store |
| TokenStores.LruTokenStore.Touch | quic-go-bbr/token_store.go:75-79 | an element whose entry has changed is moved to the front, and nothing else changes |
| TokenStores.LruTokenStore.Add | quic-go-bbr/token_store.go:75-79 | the token is pushed on the stack of the origin, which moves to the front; the other ring buffers are not touched |
| TokenStores.LruTokenStore.Take | quic-go-bbr/token_store.go:105-113 | the newest token of the origin; the origin moves to the front, or leaves with its last token |
| TokenStores.LruTokenStore.PushFront | quic-go-bbr/token_store.go:81-88 | a new origin with a ring buffer of its own is put in front |
| TokenStores.LruTokenStore.Unlink | quic-go-bbr/token_store.go:110-113 | an element leaves the list and its key the map, and nothing else changes |
| TokenStores.LruTokenStore.Recycle | quic-go-bbr/token_store.go:91-98 | the element at the back is used for the new origin, and the old origin is forgotten |
| SettingsFrames.AppendPayload | quic-go-bbr/http3/frames.go:279-295 | the settings in order: the recognised ones, then the others as the map is walked |
| SettingsFrames.ReadSetting | quic-go-bbr/http3/frames.go:197-204 | an identifier and a value, as two varints |
| Http3Frames.ReadHeader | quic-go-bbr/http3/frames.go:56-64 | type and length, and the number of bytes that they take |
| Http3Frames.ReadBody | quic-go-bbr/http3/frames.go:66-120 | the four kinds of frames that are returned, and the errors for their payloads and for reserved types |

## Left out

- Congestion control, loss detection, flow control windows, packet packing, the handshake and the wire formats of QUIC frames other than STREAM: the
  model takes from them the lengths of CRYPTO frame headers, and a flow controller that refuses inconsistent final sizes.
- The final size across a cancellation of a sending stream: truncated frames keep their FIN, so there is no single final size to prove.
- RESET_STREAM_AT being enabled after a stream was created: the flag is fixed at creation.
- The notifications of the sender that a stream has data, control frames or window updates, and the hints that there may be more to pop.
- The gap limit as a recoverable error: after it the sorter is not used again, as in the original, where the connection is closed.
- The stream maps telling their streams about a shutdown, window updates and RESET_STREAM_AT, and GetStream of the outgoing one: easy members.
- OutgoingStreams.OutgoingStreamsMap.Close: the error is never nil, as for its callers.
- IncomingStreams.IncomingStreamsMap.GetOrOpen: its two lock regions are one step, since nothing else opens streams.
- TokenStores.LruTokenStore.Put: the elements of the linked list are numbers in a sequence; the links between them are not modelled.
- CryptoStreams.InitialCryptoStream.WriteData: bounds and soundness are not promised for an empty write that has a ClientHello searched again
  after it was cut.
- SendStreams.SendStream.SetReliableBoundary: the whole invariant is not promised when the stream was cancelled and the boundary moves; what is
  promised then is whether the count of outstanding frames stays right.
- Transports that are added to a connection ID generator later, ReplaceWithClosed, and the stateless reset tokens of the IDs issued.
- Logging in the HTTP/3 parser, and the connection error that it raises for reserved frame types.
- Bits set by a logical or in quicvarint are additions here, because they are known to be clear.
- Timers, deadlines as times, contexts and logging: a deadline is a flag that may be set at any step. A Read or Peek looks at it once after each
  wake-up, so it does not pass between two chunks of one Read.
- The BBR and CUBIC senders, the MoQ relay, sockets, servers and the HTTP client: not part of this model.
