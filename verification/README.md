# Verified model of the nRF54L15 sniffer firmware

The firmware captures 802.15.4 or Bluetooth LE traffic and sends it to a host over a
UART, taking commands back over the same link. This project models its data path and
the concurrent control side around it, and proves what the comments in the C sources
claim: about every input, every split of a byte stream, every interleaving of threads
and every history of commands.

## The machines

**Reading the host** (`Wire`, `Parser`, `Streams`, `Reader`, `Resync`). `Parser.Parse` says
in one recursive function what a byte stream means. `Reader.Reassembler` is the reader
thread's 512-byte buffer changed in place (scan, move down, overflow rule, clipped copy)
and is proved to refine it. The fixed buffer loses nothing exactly when no accepted
header declares more than 439 payload bytes. `Resync` says what one lost byte costs.

**Writing to the host** (`TxModel`, `TxProofs`, `TxLink`). Any number of senders, the
thread that feeds the DMA and the UART callback, one step between any two points where
another thread can run. `TxLink.Link` holds the same state as variables changed in place,
one method a step.

**Batching** (`Batch154`, `Batcher154`, `BatchBle`, `BatcherBle`, `Fewest`, `BleRun`,
`Linger`). The two delta-coding batchers write their entries into an array; the decoders
are read off the encoders; the round trips are exact, for one frame and for any run of
the BLE batcher. A batch is closed exactly when the format cannot carry the next packet
in it, so no other way of cutting the packets takes fewer frames (`Fewest`). `Linger`
interleaves adds, explicit flushes, the timer and its handler.

**End to end** (`EndToEnd`). The 802.15.4 batcher composed with the transmit machine and
the host's parser and decoder: what the host decodes is what the ring accepted.

**The Bluetooth controller** (`HciCommand`, `PeriodicSync`, `Follower`, `BigJoin`,
`Controller`, `ScanStart`, `LockOrder`). Matching answers to commands, the one
periodic-sync slot, the broadcast join, START against a controller that may refuse any
command, and the order in which locks are taken.

**Sessions** (`Radio154`, `Session`, `SessionLaws`, `SessionProofs`, `SessionCounts`,
`SessionTwins`, `Control`). The command interpreter over both radios. `Session` is its
specification as functions; `SessionLaws` says, without those functions, what each packet
and each command comes to. `Control.Board` is the switch over statics, built on the
receiver of `Radio154`, the BLE radio of `ScanStart` and the two batchers on their
buffers, and every method of it is proved to be a step of `Session`. The results quantify
over all histories of host frames, packets and timers, and over pairs of them.

## What the code does that its comments do not say

- `src/link.c:208-210` says a lost byte costs one frame. A lost header byte does
  (`Resync.LostHeaderByte`); a lost payload byte has the damaged frame dispatched with the
  next frame's first byte as its last, and loses that next frame too
  (`Resync.LostPayloadByte`).
- A frame of 440 payload bytes has a split into reads that loses a byte, whatever the
  magic number and the checksum (`Reader.LossAt440`, `Reader.LosslessExactly`). The host's
  bursts are far below it.
- `src/control.c:279` speaks of every setting. The accept list and the tuned channel carry
  over (`SessionProofs.FilterAndChannelStay`), and a START with no SET_CHANNEL shows it
  (`SessionProofs.OldChannelShows`). The keys carry over too when the BLE controller never
  came up (`SessionProofs.FreshExactly`).
- `sync_count` goes up after the command is answered, and only if `hci_command` returns 0
  (`src/radio_ble.c:853-855`), while a failure or a loss brings it down when it is read. A
  failed or lost train always gives its slot back (`PeriodicSync.SlotFreed`), timeouts and
  late answers included, on three conditions, and each is needed: nothing is read between
  a command's answer and its count (else `PeriodicSync.SplitLoses`); START comes from a
  stopped scan (else `PeriodicSync.RestartLoses`: its reset takes the sync, START gives up,
  and the scan goes on); and no Create Sync is ever given up on or, failing that, one of
  START's later commands is not (else `PeriodicSync.LagLoses`, where each was given up on
  once). A slot lost stays lost until a STOP or the next scan (`PeriodicSync.LeakIsForGood`).
- A train can also be followed and not counted: when its Create Sync is given up on
  (`PeriodicSync.TimeoutForgets`), or was checked for before a STOP and sent during the
  next START (`PeriodicSync.CrossingForgets`). Without those two, and on the first two
  conditions, `sync_count` is exactly what the controller holds and has to report, whatever
  else is given up on (`PeriodicSync.SlotAgreement`).
- A RESET and a SET_EVENT_MASK given up on, with neither answer read, can have the next
  START succeed with its event mask refused (`ScanStart.CalmExactly`).
- `big_synced` has the same race against the comment at `src/radio_ble.c:475-483`: a join
  that fails before the worker notes that it was taken leaves it set, and no broadcast is
  joined again in that scan (`BigJoin.GoesDeaf`, `BigJoin.DeafExactly`).
- `hci_command` matches answers by opcode alone, so the late answer to a timed-out command
  completes the next command of the same opcode, which then returns 0 unanswered
  (`HciCommand.StaleIsReachable`, `HciCommand.StaleSucceeds`). Without such an earlier
  command it never does (`HciCommand.CleanMatchIsOwn`), nor behind a RESET that was
  answered (`HciCommand.OwnBehindReset`).
- The linger timer's expiry is dropped while a cancelled handler has yet to return. If the
  handler has unlocked and a packet comes in that time, the packet waits for the next add
  or flush (`Linger.Stranded`, `Linger.NotStrandedExactly`, `Linger.NextCallCovers`).
- Above 40959 ms the sixteen-bit cast at `src/radio_ble.c:51` wraps the scan interval, and
  some window then exceeds it (`ScanStart.WindowsFitExactly`).
- SET_RADIO answers OK even when the 802.15.4 driver refuses to stop and goes on running
  (`SessionProofs.SelectingBleStops154`).
- `src/radio_ble.c:336` calls the BLE entry six bytes; the code writes seven
  (`BLE_ENTRY_LEN`), and the model follows the code.

## Assumptions

- `frame.c`, `frame.h` and `commands.h` are not part of this model. The magic number, the
  checksum, the frame-type codes, the command codes and the firmware version are
  parameters, and the results hold for any of them (`Format.Distinct` where two frame
  types must differ). The header layout is the one `drain` reads; the place of the
  sequence number within bytes 3 to 5 is assumed.
- Zephyr: a ring buffer's space counts claimed bytes and its size does not; `tx_ready`,
  `tx_done` and `cmd_done` are binary; a mutex has one holder; a delayable work item may
  fire late, runs again if it fires while its handler runs, and drops an expiry only
  between a cancel of its running handler and that handler's return; a cancel does not
  stop a running handler; a message queue is bounded and first-in first-out.
- An aborted DMA transfer counts as completed, as the callback counts it.
- `bt_send` appends to the controller's input, which it runs in order; answers come back
  with its other events through one FIFO, in order. So what happened before a reset is read
  before the reset's answer. A RESET is not refused in `PeriodicSync` and `ScanStart`.
- An event handler on the forwarding thread is one step. In `PeriodicSync` a command is
  sent, run, answered and returned from in steps of their own, the answer read any time
  later, and the worker's check, command and count are three. In `ScanStart` a command's
  effect is booked where it is sent, and a worker may have checked and still be on its way
  to the command lock. In `BigJoin` the worker's check and its command are one step and
  what follows it (the verdict and the release of `big_pending`) another. In `Session` a
  command, a packet and a timer are each one step.
- Counters wrap at 2^32 and the sequence number at 2^16, and are modelled so.

## Model

| member | source | states |
|---|---|---|
| Wire.EncodeIsGood | src/link.c:215-234 | what the encoder writes passes all three tests of the receiver, and type, length and payload are read back whatever follows |
| Wire.PutLe64 | src/batch.c:105-107 | the shift-and-store loop leaves the timestamp least significant byte first and touches nothing else |
| Parser.ParseAppend | src/link.c:211-253 | bytes that arrive later never change what was already dispatched; parsing goes on from what was left |
| Parser.RestIsSettled | src/link.c:215-242 | what a scan leaves pending holds no further whole frame |
| Parser.BadHeaderSkips | src/link.c:219-234 | ten bytes with a wrong magic number, a checksum that differs from bytes 8 and 9 or a declared length over 4096 lose exactly their first byte |
| Parser.GoodHeaderTaken | src/link.c:219-241 | any other ten bytes are a header: the frame behind it is dispatched when it is whole, and waited for until then |
| Parser.FramesLieIn | src/link.c:219-241 | nothing else is dispatched: every frame lies in the stream behind ten bytes that pass the three tests, in order, no byte in two of them, and the residual behind them all |
| Parser.ParseEncode | src/link.c:215-242 | one encoded frame in front of any bytes is dispatched, and parsing resumes right behind it |
| Parser.RestIsShort | src/link.c:235-247 | if no accepted header declares more than n bytes, fewer than 10 + n stay pending |
| Streams.ParseStream | src/link.c:211-242 | a stream of whole frames in front of any tail is dispatched in order and completely |
| Streams.PrefixGivesPrefix | src/link.c:211-242 | a cut-off stream of frames yields a prefix of those frames and nothing else |
| Reader.Reassembler.MoveDown | src/link.c:244-252 | memmove within the buffer, overlapping ranges included |
| Reader.Classify | src/link.c:216-237 | the verdict on one position: skip exactly when one of the three tests fails, else still in flight or exactly this frame |
| Reader.Reassembler.Scan | src/link.c:213-242 | the loop terminates having dispatched exactly the reference parser's frames, and stops at its residual |
| Reader.Reassembler.Drain | src/link.c:211-253 | the buffer is left holding the residual, or its last ten bytes when it was still full; with no handler nothing is dispatched |
| Reader.Reassembler.Read | src/link.c:261-275 | one read takes what fits, and dispatches and keeps what the reference says |
| Reader.Reassembler.Run | src/link.c:255-276 | any sequence of reads dispatches and keeps exactly what the reference over those reads does, and every frame it dispatches lies in the bytes it took behind a header that passes the three tests |
| Reader.AllLieIn | src/link.c:211-275 | so it is for whole runs, clipped reads and the overflow rule included, wherever the cuts between reads fall |
| Reader.BufferNeverFull | src/link.c:243-273 | between reads fewer than 512 bytes are held, so every read takes at least one; what is held is fully scanned or the ten bytes the overflow kept |
| Reader.ChunkIndependence | src/link.c:211-276 | with headers of at most 439 bytes, any split into reads of 1 to 64 bytes gives the frames and the residual of the whole stream |
| Reader.LossAt440 | src/link.c:269-273 | for every format, a split of a stream with 440-byte frames that loses one byte |
| Reader.LosslessExactly | src/link.c:72-78 | no split loses anything if and only if accepted headers declare at most 439 bytes |
| Reader.IntactFramesArrive | src/link.c:255-276 | frames of at most 439 payload bytes are all dispatched, in order, however they are cut |
| Resync.SkipDamage | src/link.c:219-234 | with no accidental header in between, the scan walks from damage to the next frame start |
| Resync.OnlyTheDamage | src/link.c:206-242 | damage followed by intact frames loses only the damage |
| Resync.LostHeaderByte | src/link.c:208-210 | a byte lost from a header costs that frame and no other |
| Resync.LostPayloadByte | src/link.c:228-242 | a byte lost from a payload dispatches one altered frame, loses the next, and leaves every other unchanged |
| TxModel.StepKeeps | src/link.c:170-202 | every step of any thread keeps the semaphore handshake, byte order, wakeup, reserve and numbering invariants |
| TxModel.RunKeeps | src/link.c:170-337 | so does every interleaving |
| TxProofs.WireIsPrefix | src/link.c:170-202 | completed transfers carry a prefix of the accepted frames, failed starts included, and all of it once the ring is empty |
| TxProofs.SpanIsHeld | src/link.c:192-197 | no step by anyone releases or changes the span the DMA is reading, at most 64 bytes at a time |
| TxProofs.NoLostWakeup | src/link.c:180-184 | a transmit thread about to sleep on a non-empty ring has tx_ready set or a sender about to give it |
| TxProofs.ControlReserve | src/link.c:46-57 | queued data and logs never exceed 7680 bytes, so a control frame fitting 512 beside the queued control bytes is admitted |
| TxProofs.PutStoresWhole | src/link.c:310-321 | the room found by the check is still there at the put: no frame is stored in part |
| TxProofs.NumberedInOrder | src/link.c:315-320 | the k-th accepted frame carries k mod 65536; a refused one changes only frames_dropped |
| TxProofs.AdmittedExactly | src/link.c:303-319 | a frame is refused for room exactly when, with 512 bytes kept for replies and statistics, the ring lacks its ten bytes and payload, and each refusal is counted |
| TxProofs.PutIsCounted | src/link.c:321-332 | a stored frame counts one frame and its bytes, and the high-water mark is the most queued |
| TxProofs.CountersCount | src/link.c:322-323 | in every run, frames_sent and bytes_sent are the frames and bytes stored, mod 2^32 |
| TxProofs.HostSees | src/link.c:170-337 | a host parsing the wire has a prefix of the accepted frames, and all of them once the ring has drained |
| TxProofs.QuietProgress | src/link.c:176-201 | while bytes or a wakeup are outstanding some thread can step |
| TxProofs.Delivered | src/link.c:176-201 | from any reachable state the accepted frames can all be delivered with no further frame admitted |
| TxProofs.QuietIsBounded | src/link.c:176-201 | and any schedule of such steps is bounded, so every fair one delivers |
| TxLink.Link.FrameEncode | src/link.c:303-308 | a payload over 4096 bytes gives 0; otherwise scratch holds the frame |
| TxLink.Link.SendCheck | src/link.c:299-320 | the locked half of a send is the model's admission step; -EINVAL, -ENOMEM or 0 on exactly its conditions |
| TxLink.Link.SendPut | src/link.c:321-334 | the put and its counters are the model's put step |
| TxLink.Link.Send | src/link.c:299-337 | a send stores the whole frame and wakes the thread, or changes neither ring nor sequence number |
| TxLink.Link.TxClaim | src/link.c:176-181 | claiming is the model's step, the empty claim included |
| TxLink.Link.TxWaitReady | src/link.c:182-183 | the wait on tx_ready is the model's step |
| TxLink.Link.TxTakeDone | src/link.c:185 | the first wait on tx_done is the model's step |
| TxLink.Link.TxStart | src/link.c:186-191 | starting the DMA, and giving everything back when it will not start, is the model's step |
| TxLink.Link.UartDone | src/link.c:85-94 | the completion callback is the model's step |
| TxLink.Link.TxTakeDoneAgain | src/link.c:195 | the second wait on tx_done is the model's step |
| TxLink.Link.TxFinish | src/link.c:196-197 | tx_done is given back and the span released, as the model's step |
| TxLink.Link.ResetLinkCounters | src/link.c:342-348 | the counters go to zero and nothing else changes |
| Batch154.RoundTrip | src/batch.c:53-120 | every frame sent decodes to exactly its packets: channel, LQI, RSSI, PSDU and 64-bit timestamp |
| Batch154.PayloadBounds | src/batch.c:18-26 | at most 2048 bytes, a batch frame exactly for two packets or more, and never more bytes than sending each packet alone at 22 bytes of overhead |
| Batch154.AddKeeps | src/batch.c:156-214 | an add keeps one channel, 16-bit deltas, 32 entries and 2048 bytes, and loses, repeats or reorders no packet |
| Batch154.ClosesExactly | src/batch.c:175-214 | a batch is closed early if and only if it and the packet cannot be carried together (one channel, steps of 0 to 65535 us, 32 entries, 2048 bytes), and otherwise only when the packet is its 32nd |
| Batch154.PacketLayout | src/batch.c:70-101 | a packet sent alone: which byte of the metadata is what |
| Batch154.EntryLayout | src/batch.c:190-200 | an entry: the two bytes of delta, then LQI, RSSI, length and PSDU |
| Batch154.BatchLayout | src/batch.c:102-110 | a batch: base time, channel and count, then the entries one behind the other |
| Fewest.Fewest154 | src/batch.c:171-214 | no other way of cutting the packets heard into batches that can be carried takes fewer frames |
| Batch154.Cut | src/batch.c:159-161 | a PSDU keeps its first 127 bytes |
| Batcher154.Batcher.FlushLocked | src/batch.c:53-120 | sends the frame of exactly the open packets or nothing; a refusal is counted in packets |
| Batcher154.Batcher.SingleFrame | src/batch.c:70-101 | the PACKET rebuilt from the one entry in the buffer is that packet's |
| Batcher154.Batcher.Append | src/batch.c:183-201 | the entry written in place extends the open batch by exactly this packet |
| Batcher154.Batcher.Add | src/batch.c:156-214 | the buffer version closes on exactly the four conditions and sends at most one frame |
| Batcher154.Batcher.ResetCounters | src/batch.c:146-149 | the drop counter goes to zero |
| BatchBle.CapturedIsSound | src/radio_ble.c:503-513 | H4 byte first, data cut to 300 in all, orig_len the data's length + 1, flagged exactly when cut |
| BatchBle.RoundTrip | src/radio_ble.c:307-368 | every frame sent decodes to exactly its packets: timestamp, original length, flag and bytes |
| BatchBle.PayloadBounds | src/radio_ble.c:164-181 | at most 2048 bytes, a batch frame exactly for two packets or more, never more bytes than sending each alone |
| BatchBle.AddKeeps | src/radio_ble.c:545-589 | an add keeps the format's limits, no delta or length wraps, and no packet is lost, repeated or reordered |
| BatchBle.ClosesExactly | src/radio_ble.c:545-587 | a batch is closed early if and only if it and the packet cannot be carried together (steps of 0 to 65535 us, 32 entries, 2048 bytes), and otherwise only when the packet is its 32nd |
| BatchBle.PacketLayout | src/radio_ble.c:307-318 | a packet sent alone: which byte of the metadata is what |
| BatchBle.EntryLayout | src/radio_ble.c:559-577 | an entry: delta, original length, flags and length, then the bytes |
| BatchBle.BatchLayout | src/radio_ble.c:353-357 | a batch: base time and count, then the entries one behind the other |
| Fewest.FewestBle | src/radio_ble.c:545-587 | no other way of cutting the packets forwarded into batches that can be carried takes fewer frames |
| BatcherBle.BleBatcher.FlushLocked | src/radio_ble.c:328-368 | sends the frame of exactly the open packets or nothing; forwarded or dropped goes up by the packets in it |
| BatcherBle.BleBatcher.SendAlone | src/radio_ble.c:307-351 | the PACKET rebuilt from the one entry in the buffer is that packet's |
| BatcherBle.BleBatcher.Append | src/radio_ble.c:554-577 | the entry written in place extends the open batch by exactly this packet |
| BatcherBle.BleBatcher.Enter | src/radio_ble.c:545-587 | the buffer version closes on exactly the three conditions and sends at most one frame |
| BatcherBle.BleBatcher.Forward | src/radio_ble.c:501-590 | what the controller handed over is recorded as captured, and counted, and batched |
| BleRun.RunDecodes | src/radio_ble.c:501-590 | after any forwards and flushes, the frames offered, decoded in order, and then the open batch are exactly the packets forwarded |
| BleRun.RunConserves | src/radio_ble.c:358-364 | each packet forwarded is in a frame taken, in one refused, or open, and the three counters are those numbers mod 2^32 |
| BleRun.NeverDearerThanAlone | src/radio_ble.c:334-339 | over every run the frames taken are together no longer than one PACKET frame for each packet in them |
| EndToEnd.BatchArrives | src/batch.c:53-120 | an accepted batch frame gives the host exactly its packets |
| EndToEnd.HostGetsWhatWasTaken | src/batch.c:156-214 | over every interleaving, parsing and decoding the wire gives a prefix of the packets whose frames the ring accepted, and all of them once it drained |
| EndToEnd.Conservation | src/batch.c:111-120 | packets heard are those taken, those lost and those open, in order of batches, and the drop counter is exactly those lost |
| EndToEnd.NeverDearerThanAlone | src/batch.c:59-69 | over every run the frames accepted for packets are together no longer than one PACKET frame for each would be |
| EndToEnd.RunKeepsAll | src/link.c:299-337 | the composed machine keeps all its invariants over every interleaving |
| Linger.NotStrandedExactly | src/batch.c:122-141 | whenever no operation is part-way, an open batch has its timer armed or its handler on the way if and only if no expiry was dropped behind the handler's unlock, although a flush cancels before it locks |
| Linger.DroppedExactly | src/batch.c:122-136 | the one step that strands: the timer expires on an open batch while a cancelled handler has unlocked and not returned, and no flush is coming |
| Linger.NotStranded | src/batch.c:203-211 | no packet is stranded in any run whose handler returns before a timer can expire behind its unlock |
| Linger.Stranded | src/batch.c:131-141 | a reachable state with an open batch and nothing to send it |
| Linger.NextCallCovers | src/batch.c:183-211 | a stranded packet waits for the next add or flush, and no longer |
| Linger.LingerDelivers | src/batch.c:203-211 | timer and handler alone then send an open batch, in at most six steps |
| LockOrder.BlocksOrdered | src/radio_ble.c:241-290 | every function takes its locks in rank order on every thread that runs it |
| LockOrder.NoDeadlock | src/radio_ble.c:543-589 | no reachable state has a cycle of waiters of any length |
| LockOrder.Progress | src/link.c:299-337 | from any thread part-way, following the waits reaches one that can step or one awaiting the controller's answer |
| LockOrder.ForwarderNeverWaitsForCommands | src/radio_ble.c:382-393 | the forwarding thread never waits for the command lock or an answer |
| HciCommand.AnswersAreRead | src/radio_ble.c:204-220 | opcode and status are read at the offsets sections 7.7.14 and 7.7.15 of Bluetooth Core Vol 4 Part E give |
| HciCommand.SuccessIsAnswered | src/radio_ble.c:265-289 | 0 is returned only if an answer with the command's own opcode and status 0 was read after it was armed |
| HciCommand.DoneIsBooked | src/radio_ble.c:224-226 | a set cmd_done means pending_opcode is 0 and pending_status is that answer's |
| HciCommand.AnswerCompletes | src/radio_ble.c:207-226 | an answer with the opcode waited for, whatever its status, ends the wait: hci_command can return at once with that status, and with 0 if it is 0 and -EIO otherwise |
| HciCommand.SilenceTimesOut | src/radio_ble.c:277-289 | with no such answer it can give up: -ETIMEDOUT, status 0xFF, one more timeout counted and nothing left pending |
| HciCommand.WakesExactly | src/radio_ble.c:221-226 | of all steps, the one that ends a wait is the reading of an answer with its opcode |
| HciCommand.OtherOpcodeIgnored | src/radio_ble.c:221-223 | a late answer to another opcode changes nothing the waiter sees |
| HciCommand.CleanMatchIsOwn | src/radio_ble.c:221-226 | with no earlier command of its opcode unanswered, whatever completes a command is its own answer |
| HciCommand.StaleMatchHappens | src/radio_ble.c:221-226 | with one, that stale answer can be read next and completes this command instead |
| HciCommand.WokenSucceeds | src/radio_ble.c:277-289 | and hci_command then returns 0 |
| HciCommand.StaleIsReachable | src/radio_ble.c:265-280 | with answers in order, a command can time out and the next of its opcode be sent with both answers still to come |
| HciCommand.StaleSucceeds | src/radio_ble.c:221-289 | from there the second hci_command can return 0 with its own answer, perhaps a refusal, still unread |
| HciCommand.OwnBehindReset | src/radio_ble.c:749-822 | with answers in order and an earlier RESET's answer read, a command is completed by its own answer if those of its opcode since that RESET were answered |
| HciCommand.CommandPort.LockFor | src/radio_ble.c:246 | taking the command lock is the model's step |
| HciCommand.CommandPort.GetBuffer | src/radio_ble.c:248-253 | with no buffer free, -ENOBUFS and the lock given back with nothing else changed |
| HciCommand.CommandPort.ResetDone | src/radio_ble.c:265 | the semaphore is reset, a step of its own |
| HciCommand.CommandPort.ClearPendingStatus | src/radio_ble.c:266 | the status is set to 0xFF, a step of its own |
| HciCommand.CommandPort.SetPendingOpcode | src/radio_ble.c:267 | the opcode is set last, a step of its own |
| HciCommand.CommandPort.SendBuffer | src/radio_ble.c:269-277 | bt_send's own failure is returned and nothing is waited for |
| HciCommand.CommandPort.Take | src/radio_ble.c:277-280 | the wait ends with the answer or with -ETIMEDOUT and its counter |
| HciCommand.CommandPort.Conclude | src/radio_ble.c:281-289 | 0, -EIO or the earlier error, the status, and pending_opcode cleared |
| HciCommand.CommandPort.NoteCommandResult | src/radio_ble.c:207-227 | the in-place version is the model's handler for every event of two bytes or more |
| PeriodicSync.SlotAccount | src/radio_ble.c:446-474 | in every run, restarts, timeouts and late answers included, sync_count stays in 0..1 and, while scanning, sync_count + uncounted = syncs held + failures and losses unread + leaked |
| PeriodicSync.AgreementExactly | src/radio_ble.c:829-861 | while scanning, sync_count is what the controller holds and has to report if and only if as many are uncounted as leaked |
| PeriodicSync.UncountedExactly | src/radio_ble.c:853-855 | uncounted goes up exactly when the controller accepts a Create Sync, waited for or not, and down exactly when the worker counts |
| PeriodicSync.LeakedExactly | src/radio_ble.c:459-473 | more is leaked exactly when a RESET takes a sync from under the scan or a failure or loss is read with sync_count at 0 |
| PeriodicSync.RestartExactly | src/radio_ble.c:667-683 | a scan starts in agreement if and only if every sync accepted since the last reset has ended and been read, and nothing from before it is unread |
| PeriodicSync.SlotFreed | src/radio_ble.c:446-474 | while scanning, sync_count is at most pending + established + failures and losses unread, in every run with START from a stopped scan, nothing read between answer and count, and either no Create Sync or one of START's later commands never given up on: a failed or lost train always frees the slot |
| PeriodicSync.SlotAgreement | src/radio_ble.c:829-861 | in every run with START from a stopped scan, nothing read between answer and count, no Create Sync given up on and no STOP between check and command, other timeouts and late answers included: sync_count and an acceptance on its way are exactly pending + established + failures and losses unread, and at rest sync_count alone |
| PeriodicSync.SplitLoses | src/radio_ble.c:853-855 | reachable with every other condition kept: a failure read before the count, and the slot lost |
| PeriodicSync.RestartLoses | src/radio_ble.c:749-757 | reachable with every other condition kept: a START while scanning resets the controller and gives up, and the slot is lost |
| PeriodicSync.LagLoses | src/radio_ble.c:221-226 | reachable with START from a stopped scan and counts at once: every answer of a START an older one's, an old acceptance counted for a refused sync, and the slot lost |
| PeriodicSync.LeakIsForGood | src/radio_ble.c:838-840 | with the slot lost, no train is asked for before a STOP or the next scan start |
| PeriodicSync.TimeoutForgets | src/radio_ble.c:277-280 | reachable: a Create Sync accepted and given up on, the train followed and sync_count 0 |
| PeriodicSync.CrossingForgets | src/radio_ble.c:838-855 | reachable: a check before a STOP, its command in the next START, and the scan starts with that sync held and sync_count 0 |
| Follower.ParamsDecode | src/radio_ble.c:842-851 | the Create Sync bytes say the requested train, no skip and ten seconds at the offsets of section 7.8.67 |
| Follower.OneSlot | src/radio_ble.c:835-860 | a refusal lets the next request be put; after an acceptance none is |
| Follower.TrainIsReported | src/radio_ble.c:958-991 | an extended advertising report laid out as section 7.7.65.13 says asks to sync exactly when its interval is not zero and its advertiser not anonymous, and to the address, set and kind of address reported, identities as what they resolve to |
| Follower.TrainFollower.NotePeriodic | src/radio_ble.c:958-991 | counted exactly when a train is announced with an address, queued exactly when there is also room |
| Follower.TrainFollower.SyncOne | src/radio_ble.c:835-856 | one turn takes one request and puts it, byte for byte, exactly while scanning, asked to and with the slot free |
| Follower.TrainFollower.SyncWork | src/radio_ble.c:829-861 | over a queue and flags nothing else touches, empties the queue and puts exactly the requests a free slot allows |
| BigJoin.RequestsAreWhole | src/radio_ble.c:907-953 | every Create Sync sent comes whole from one unencrypted report: its handle, 1 to MAX_BIS streams, numbered from 1 |
| BigJoin.GroupIsReported | src/radio_ble.c:895-945 | a BIGInfo report laid out as section 7.7.65.34 says is joined exactly when it has streams and is not encrypted, with its own sync handle and at most two streams |
| BigJoin.RequestIsHeld | src/radio_ble.c:946-953 | big_params is not written between the winning of big_pending and the worker's release |
| BigJoin.AttemptsAreSpaced | src/radio_ble.c:873-885 | within a scan, two Create Sync commands with no Sync Lost between are at least 5000 ms apart |
| BigJoin.DeafExactly | src/radio_ble.c:475-495 | big_synced comes to be set with no group and no request on its way exactly when success is noted for a group already gone or refused, or the controller is reset under a running scan |
| BigJoin.DeafIsForGood | src/radio_ble.c:903-905 | and then no other broadcast is asked for before a STOP or the next scan |
| BigJoin.SyncedAgrees | src/radio_ble.c:878-883 | with the verdict right behind the command and its own, and scans from a stopped radio, big_synced is set exactly while a group is being joined or joined |
| BigJoin.GoesDeaf | src/radio_ble.c:487-490 | reachable: the join's failure read before its acceptance is noted |
| BigJoin.Joiner.Assemble | src/radio_ble.c:916-944 | the parameter bytes decode, as section 7.8.106 reads them, to the report's group |
| BigJoin.Joiner.NoteBigInfo | src/radio_ble.c:895-954 | a request is written and submitted on exactly the five conditions, else nothing is written |
| BigJoin.Joiner.Judge | src/radio_ble.c:873-885 | joined, or not to be tried for five seconds; the request is released either way |
| ScanStart.WindowsFitExactly | src/radio_ble.c:51 | every window START can be asked for fits the interval, in controller units, if and only if the interval is at most 40959 ms |
| ScanStart.UnitsAreMs | src/radio_ble.c:51 | up to there the units are the milliseconds, 625 us each, rounded down |
| ScanStart.ScansInTime | src/radio_ble.c:717-786 | so every PHY is scanned with the interval asked for, 60 ms for none, and with a window no longer, each less part of a unit; with the legacy commands exactly for no PHY |
| ScanStart.EventsComeThrough | src/radio_ble.c:732-763 | with the two masks every LE event is sent to the host, as sections 7.3.1 and 7.8.1 count the bits; after a reset alone none is |
| ScanStart.ListedSnoc | src/radio_ble.c:1045-1063 | adding a key and setting its privacy mode extends the resolving list by that key, duplicates included |
| ScanStart.ReadBlocks | src/radio_ble.c:796-805 | the controller reads back one identical passive block per PHY bit |
| ScanStart.Radio.SetFilter | src/radio_ble.c:993-1003 | the first eight whole entries of the payload, in order |
| ScanStart.FlatEntries | src/radio_ble.c:995-1002 | the entries stored, one after the other, are the bytes they were cut from |
| ScanStart.Radio.SetKeys | src/radio_ble.c:1005-1025 | all keys in order or, on exactly the malformed payloads, -EINVAL and no change |
| ScanStart.Radio.ApplyKey | src/radio_ble.c:1045-1063 | 0 with no older answer unread means one key is added with a zero local key and its identity set to device privacy mode |
| ScanStart.Radio.ApplyKeys | src/radio_ble.c:1032-1067 | 0 with no older answer unread means the resolving list is the keys in order, device privacy mode, resolution on exactly when there are keys |
| ScanStart.Radio.ApplyFilter | src/radio_ble.c:1071-1092 | 0 with no older answer unread means the keys are listed as ApplyKeys says and the accept list is the filter |
| ScanStart.Radio.StartLegacyScan | src/radio_ble.c:690-710 | 0 with no older answer unread means a legacy scan that never sends a request, with a random own address and the timing asked for, limited to the accept list exactly when one was given |
| ScanStart.Radio.StartExtendedScan | src/radio_ble.c:787-818 | 0 with no older answer unread means every selected PHY scans with the same timing, never sends a request, uses a random own address, and is limited to the accept list exactly when one was given |
| ScanStart.SyncsAtEndExactly | src/radio_ble.c:749-822 | commands led by a RESET, all accepted, can leave a sync in the controller if and only if a scan runs meanwhile or a worker was already on its way |
| ScanStart.OwnAnswer | src/radio_ble.c:221-226 | a command that returns 0 with no older success of its opcode unread was accepted itself, and nothing older is left unread |
| ScanStart.CalmExactly | src/radio_ble.c:749-758 | a refused SET_EVENT_MASK behind START's RESET can return 0 if and only if an older one's success is unread behind an older RESET's answer |
| ScanStart.Radio.Start | src/radio_ble.c:712-822 | 0 from a calm queue of old answers, older timeouts included, means keys, list, masks, PHYs and timing are as asked, an advertiser is reported exactly when the list is empty or has it, no request is ever sent, the own address is a static random one, no older answer is left, and no sync is held if no scan was running and no worker on its way; wherever it stops, a scan it set up never sends a request |
| ScanStart.Radio.Stop | src/radio_ble.c:1094-1120 | keys and running go regardless; 0 means no key, list entry or scan is left in the controller, and no sync unless a worker was already on its way |
| ScanStart.CutBack | src/radio_ble.c:993-1025 | entries of one size are got back from their bytes |
| Radio154.WindowRoundsUp | src/radio154.c:170-176 | milliseconds round up by less than one as far as 65534 and are capped at 65535 behind that, and 32 bits suffice for any command |
| Radio154.Receiver.SetChannel | src/radio154.c:110-122 | only 11 to 26 reach the driver, and only its success moves current_channel |
| Radio154.Receiver.Start | src/radio154.c:124-132 | running exactly follows the driver's success |
| Radio154.Receiver.Stop | src/radio154.c:134-147 | stopped is a success; a refused stop leaves it running |
| Radio154.Receiver.EnergyDetect | src/radio154.c:162-220 | whatever fails, running and current_channel are untouched, the first failure is returned, the window asked for is the rounded one, and each restoring call that works puts its part of the receiver back; a reading is clamped |
| Radio154.Receiver.Gate | src/radio154.c:254-314 | a packet is taken, counted and tagged exactly while capturing and not measuring |
| Radio154.Receiver.BadFcs | src/radio154.c:64-76 | a checksum failure counts exactly while capturing and not measuring |
| SessionProofs.BleRunsOnlySelected | src/control.c:155-166 | over every history, BLE running implies BLE is selected |
| SessionProofs.OneRadioRuns | src/control.c:118-349 | over every history with a driver that stops, each radio runs only while selected and never both |
| SessionProofs.SelectingBleStops154 | src/control.c:159-165 | selecting BLE leaves 802.15.4 running exactly when its driver refused to stop, and answers OK either way |
| SessionProofs.OneReply | src/control.c:104-116 | each command of five bytes or more gets exactly one reply, last, echoing its id; no other frame gets any |
| SessionProofs.StopSendsBatchFirst | src/control.c:86-102 | an 802.15.4 STOP offers the open batch before its reply, which says whether the driver stopped |
| SessionProofs.StopSendsBleBatchFirst | src/radio_ble.c:1102-1119 | a BLE STOP does the same, and its reply says whether the reset was answered |
| SessionProofs.CommandArrives | src/control.c:141-144 | a value packed little-endian by the host is the value acted on |
| SessionProofs.ReplyUnpacks | src/control.c:104-113 | a reply unpacks at the host to id, status and value |
| SessionProofs.SettingsReachStart | src/control.c:124-246 | the keys frame, the filter frame, the timing and the PHYs the host sends are what START hands to the radio |
| SessionProofs.StopBleStops | src/radio_ble.c:1094-1120 | with a controller, BLE stops, its keys go and its batch is emptied whatever the reset answers; without one nothing changes |
| SessionProofs.FreshExactly | src/control.c:259-293 | GET_INFO gives the boot state, accept list and channel apart, if and only if the receiver stops, the antenna can be put back, and BLE came up or holds no keys |
| SessionProofs.FreshSession | src/control.c:259-293 | after GET_INFO any two boards with any histories agree with each other, and with boot, on everything but the accept list and the channel |
| SessionProofs.FilterAndChannelStay | src/control.c:279-286 | the accept list and the tuned channel survive GET_INFO |
| SessionProofs.OldChannelShows | src/control.c:247-249 | START without SET_CHANNEL tags packets with the channel of the session before |
| SessionTwins.SetUpErasesHistory | src/control.c:197-232 | once the host sends its filter and a channel the driver takes, two such boards are the same and answer the same |
| SessionTwins.TwinsSendAlike | src/control.c:118-349 | the same boards under the same events stay the same and send the same frames for good: what was heard and lost before changes nothing |
| SessionTwins.SessionsRepeat | src/control.c:259-293 | two boards with any histories send the same frames, under any further events, after GET_INFO, a filter and a channel the driver takes |
| SessionProofs.HistoryKeeps | src/control.c:146-348 | the one-radio invariants hold over every history |
| SessionLaws.SetChannelTunes | src/control.c:203-232 | with 802.15.4 selected, a channel of 11 to 26 the driver takes is tuned and the receiver started: it runs if it ran or it would start, and the status is OK exactly if it would; any other answers BAD_VALUE and leaves the channel and the receiver as they were |
| SessionLaws.SetChannelFlushes | src/control.c:209 | the open batch is sent first, whatever the driver says |
| SessionLaws.TunedHears | src/control.c:216-232 | a packet heard after it is in the open batch, tagged with the channel asked for |
| SessionLaws.HeardIsKept | src/radio154.c:265-310 | a packet heard while the receiver runs is counted and kept behind all that was open, in a frame sent or in the batch; otherwise nothing happens |
| SessionLaws.BadFcsCounts | src/radio154.c:64-76 | a checksum failure counts exactly while the receiver runs, and changes nothing else |
| SessionLaws.LingerSends | src/batch.c:122-129 | the timer sends the open batch whole |
| SessionLaws.ForwardedIsKept | src/radio_ble.c:605-639 | while BLE runs, isochronous data and every event but the two that answer commands is kept behind all that was open, cut to 300 bytes with the H4 byte in front; nothing else is |
| SessionLaws.ForwardedCounts | src/radio_ble.c:505-577 | and counted, as oversized exactly when cut |
| SessionLaws.KindsCounted | src/radio_ble.c:426-467 | the four counts by kind, at the event codes and offsets of section 7.7.65, and the trains announced |
| SessionLaws.LingerSendsBle | src/radio_ble.c:579-587 | the BLE timer sends the open batch whole |
| SessionLaws.SetRadioSelects | src/control.c:147-166 | 0 and 2 are selected and answered OK, anything else refused unchanged |
| SessionLaws.SetRadioStops | src/control.c:159-163 | only the radio left behind is stopped, its batch sent |
| SessionLaws.PhysAreHeld | src/control.c:168-178 | a byte of PHYs is held, anything more refused unchanged |
| SessionLaws.PeriodicIsHeld | src/control.c:180-185 | following trains goes on for any value but 0 |
| SessionLaws.TimingIsHeld | src/control.c:187-195 | interval and window as the host packed them, sixteen bits each |
| SessionLaws.WrongRadioRefuses | src/control.c:203-206 | with BLE selected, a channel or an energy measurement is refused unchanged |
| SessionLaws.StartAnswers | src/control.c:234-250 | OK exactly when the selected radio started, a missing controller included, and what then runs |
| SessionLaws.StopAnswers | src/control.c:252-257 | OK exactly when the selected radio stopped, its batch sent first |
| SessionLaws.InfoStartsOver | src/control.c:268-286 | GET_INFO starts over, in literal values: settings, counters, flags and batches of both radios; the accept list and the channel stay, and BLE is stopped only if its controller ever came up |
| SessionLaws.InfoAnswers | src/control.c:292 | and answers the firmware version |
| SessionLaws.SetAntennaSwitches | src/control.c:70-84 | 0 is the internal antenna and 1 the external one; nothing else switches |
| SessionLaws.SetAntennaAnswers | src/control.c:295-306 | BAD_VALUE above 1, FAILED when the switch is not ready or refuses, else OK |
| SessionLaws.EnergyIsAnswered | src/control.c:309-342 | BAD_VALUE for a channel outside 11 to 26 or an empty window, FAILED when the driver fails anywhere, else the reading as one byte; nothing of the session changes |
| SessionLaws.TimeoutsAreCounted | src/radio_ble.c:277-280 | what START and STOP wait for in vain is counted |
| SessionLaws.UnknownAnswers | src/control.c:345-347 | an unknown command is answered as such and changes nothing |
| SessionLaws.FilterIsTaken | src/radio_ble.c:993-1003 | the first eight whole entries of seven bytes, and nothing else changes |
| SessionLaws.KeysAreTaken | src/radio_ble.c:1005-1025 | a payload of at most eight whole entries, each of a known address type, is taken; any other changes nothing |
| SessionLaws.OthersAreIgnored | src/control.c:134-139 | every other frame, and a command under five bytes, changes and sends nothing |
| SessionLaws.OffersAreCounted | src/link.c:315-332 | every event counts the frames it had taken, their bytes with ten of header each, and those refused, GET_INFO apart |
| SessionLaws.InfoCountsOver | src/control.c:275-292 | and GET_INFO starts these counters over with its own reply |
| SessionCounts.SessionConserves | src/control.c:268-278 | from boot and across every reset of the counters, for both radios, packets heard = taken + lost + open, and the frames that carried the taken ones cost at most 22 bytes and its data for each |
| SessionCounts.CountersCount | src/batch.c:143-154 | each packet counter is its total less the total at the last GET_INFO, mod 2^32 |
| SessionCounts.SinceReset | src/control.c:268-278 | and what was heard since the last GET_INFO was taken, lost or is open |
| SessionCounts.KindsWithinPackets | src/radio_ble.c:426-499 | before the counters wrap, advertising, periodic, synced and refused counts together never exceed hci_packets |
| SessionCounts.FreshBalances | src/control.c:268-278 | books that balance still balance after GET_INFO, with nothing open and every packet until then taken or lost |
| Control.Board.FlushBatch | src/batch.c:131-141 | the batcher's flush and the link's answer to its frame are the session's step |
| Control.Board.FlushBle | src/radio_ble.c:1105-1108 | so are the BLE batcher's |
| Control.Board.Receive | src/radio154.c:254-314 | gate, count, cut and batch of one packet are the session's step, tagged with the channel tuned |
| Control.Board.BadChecksum | src/radio154.c:64-76 | a bad checksum is counted as the session says |
| Control.Board.NoteCounts | src/radio_ble.c:426-474 | each event is counted as its one kind or none |
| Control.Board.Notice | src/radio_ble.c:517-541 | counts first, then an announcement looked for in the first 32 bytes when following trains |
| Control.Board.TakeHci | src/radio_ble.c:603-640 | what is forwarded, counted and batched, and what is not, is the session's step |
| Control.Board.Reply | src/control.c:104-116 | one six-byte reply offered and counted |
| Control.Board.StopReceiver | src/control.c:98-101 | the receiver stopped and its batch flushed are the session's step |
| Control.Board.StopBle | src/radio_ble.c:1094-1120 | flag, keys, flush and reset in order are the session's step, whatever the controller answers |
| Control.Board.StopRadio | src/control.c:91-102 | either radio, a missing controller included |
| Control.Board.SetAntenna | src/control.c:70-84 | only 0 and 1, only through a ready regulator, and only when it differs |
| Control.Board.SelectRadio | src/control.c:147-166 | the radio left behind is stopped first; Wi-Fi and unknown radios are refused unchanged |
| Control.Board.SetPhys | src/control.c:168-178 | a byte of PHYs is stored, anything more refused unchanged |
| Control.Board.SetPeriodic | src/control.c:180-185 | following trains is switched on exactly by a non-zero value |
| Control.Board.SetTiming | src/control.c:187-195 | interval from the low half of the value, window from the high half |
| Control.Board.ChangeChannel | src/control.c:197-232 | flush, tune and start on the batcher and the receiver, with the status each failure gives (SessionLaws.SetChannelTunes for what that is) |
| Control.Board.StartScan | src/control.c:235-246 | the radio is started with the settings held for it and the session records those; OK from a calm queue of old answers means the controller's lists are the host's last keys and filter frames, every event is unmasked and it scans as asked |
| Control.Board.StartSelected | src/control.c:234-250 | the selected radio is the one started; for BLE, OK means what StartScan says |
| Control.Board.OpenSession | src/control.c:259-293 | GET_INFO over both radios, both batchers and every counter is the session's step |
| Control.Board.Measure | src/control.c:309-343 | an energy measurement borrows the receiver, changes no session state, and answers the reading widened through a byte |
| Control.Board.TakeFilter | src/control.c:124-127 | a filter frame stores as many whole entries as fit |
| Control.Board.TakeKeys | src/control.c:130-133 | a keys frame is stored whole or not at all |
| Control.Board.Perform | src/control.c:146-348 | the whole switch: state, frames, status and value of every command, and what a BLE START answered with OK leaves in the controller |
| Control.Board.HandleFrame | src/control.c:118-349 | filter, keys, short and foreign frames, and commands with their one reply, each the session's step |

## Left out

- PeriodicSync.SlotFreed: with keys or a filter START sends more than the eight commands modelled, some of them under one opcode.
- PeriodicSync.SlotAgreement: for runs that keep to four conditions; AgreementExactly, UncountedExactly and LeakedExactly give the exact condition for all runs, and reachable states show what each of the four is for.
- Linger.NotStranded: for runs whose handler returns promptly; NotStrandedExactly gives the exact condition for all.
- BigJoin.SyncedAgrees: for clean runs; DeafExactly gives the steps that end the agreement in all.
- EndToEnd.HostGetsWhatWasTaken: for the 802.15.4 batcher with the other radio silent; the BLE batcher has its own run-level round trip (BleRun) and is not composed with the ring a second time.
- BatcherBle.BleBatcher.Forward: for controller buffers up to 65534 bytes; the 16-bit length of a longer one would wrap, and the controller's buffers hold a few hundred.
- BigJoin.AttemptsAreSpaced: note_biginfo is one step; the gap between its test of big_synced and its taking of big_pending is not interleaved.
- LockOrder.NoDeadlock: the locks inside Zephyr and the Bluetooth driver are not part of it, and an answer never given is a wait for the controller, ended by its timeout. The main thread appears only as a sender.
- ScanStart.Radio.Start: a START that fails part-way may leave a running flag of an earlier scan set; nothing is claimed of the controller then, nor from a queue that is not calm (CalmExactly). STOP's 0 can come from an older RESET's answer, its own RESET run later.
- Follower.TrainFollower.SyncWork: its turns run with nothing between them; SyncOne is the turn that PeriodicSync interleaves.
- SessionProofs.OneRadioRuns: a packet may pass the running gate just before a stop and be sent just after its reply; a command, a packet and a timer are atomic here.
- Radio154.Receiver.EnergyDetect: the driver's own queue across a retune, so which channel a queued packet was truly heard on, is not modelled.
- Broadcast stream handles and their data paths (`src/radio_ble.c:379-419`): one command per stream, no property beyond ScanStart's pattern.
- The STATS and LINK publication, `sn_radio_ble_get_stats` and the link gauges: copies of counters whose values are accounted for here.
- `src/main.c` and `src/log_backend_sn.c`: boot order, identification frames and log forwarding; LOG frames appear as senders without the reserve.
- DMA receive buffers, the UART errata, baud rate, the bridge's byte loss and the 20 us gap: hardware timing.
- The checksum itself: that it catches damage is the explicit hypothesis NoAccident of Resync.
- The regulator and driver internals, logging texts, stack sizes and build configuration.
