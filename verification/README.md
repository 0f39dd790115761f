# A verified model of UPC

UPC carries packets of any size, in both directions, between a host and a USB device over one bulk
IN endpoint, one bulk OUT endpoint and a handful of control requests.  This project models the
protocol core of the library in Dafny and proves what its documentation promises, or, where the
code does not keep a promise, exactly when it does.

## What is modelled

* **Framing** (`Framing.dfy`, `Senders.dfy`, `Receivers.dfy`).  The host submits a packet as one
  transfer and a conditional zero-length one; the device cuts it into chunks of
  `max_transfer_size` and adds a conditional zero-length packet.  The controller cuts what is on
  the wire into transfers of up to 128 USB packets, each ended by a short packet or a full buffer
  (section 5.8.3 of the USB 2.0 specification); the receivers put transfers together again.
  `JoinDone` at the size of a USB packet is the reference meaning of a wire: split it after every
  short packet.  Framing and splitting are proved to be each other's inverse on every wire, both
  senders to produce the same wire, and the transfer size to be invisible.  The send tasks and both
  `recv` loops are in their own imperative form; a poll that waits leaves everything in the
  receiver, so a cancelled call is a poll that is never resumed.
* **Codec and negotiation** (`Tlv.dfy`, `Capabilities.dfy`).  Tag-length-value entries with the
  16-bit cast of the length, both capability sets with millisecond truncation and `u32`
  saturation, and what the exchange guarantees about the limits the two ends enforce.
* **The device's control loop** (`DeviceControl.dfy`, `DeviceLoop.dfy`).  `Step` says what one turn
  does to the loop's variables and the endpoints; class `Loop` is the loop in its own form, one
  method per branch, each proved equal to `Step`.  A turn may end the loop, panic (the `expect` in
  OPEN), or wait for an endpoint lock whose holder only the loop itself can poll.
* **Host, device and link together** (`Pipeline.dfy`, `Flow.dfy`, `System.dfy`, `SystemProof.dfy`,
  `SystemTheorems.dfy`).  A transition system: the applications on both ends of every connection
  there ever was, the native host's send, receive and status tasks, its half-close handle and its
  connection set-up, the device's loop and sub-tasks, and two USB pipes.  `Run` is any sequence of
  actions from `Start`, and `IsReachable` holds of the states some run leads to.  `SystemInv` is
  proved to hold in all of them (`ReachableInv`), and the theorems are about all of them.
* **That it gets anywhere** (`Progress.dfy`, `Sessions.dfy`).  The system never delivers anything wrong;
  these files show that it also delivers.  From every reachable state of the stated kind a run is
  constructed, out of the system's own actions, that delivers everything accepted, closes a
  direction to the end of its data, or connects; together, that carries any list of connections
  with any packets in both directions, one after another (`Sessions.Service`).
* **Drain, half-close, barrier, ping** (`Drain.dfy`, `HalfClose.dfy`, `Echo.dfy`, `Liveness.dfy`).
* **Resources** (`Pool.dfy`, `DmaBuffers.dfy`, `Guard.dfy`).  The device's receive pool, the
  host's DMA buffers, the registry of interfaces in use.

### Assumptions of the link

Bulk IN and OUT are reliable FIFOs of USB packets with a halt bit each.  After an OUT transfer has
failed, nothing of the host's send task moves any more.  A flush on the device completes only when
the host has taken every packet.  `prepare_in` and the timed flush of the native host are taken to
have emptied their endpoint, which in the code depends on wall-clock silence.  In the whole-system
model `clear_halt` in CLOSE succeeds, while `discard_fifo` may fail.  A control request is one step:
it is served by the device between two polls of its own sub-tasks, or it is not served and the host
sees an error; whether the host learns that its OPEN or its query was served is a choice.  Each
`usize` is a parameter.  The loop of the device may stop or hang at any time.

### Where the code falls short of its documentation

These are stated as lemmas, each with the exact condition.

* **The drain can lose the last packet.**  PROTOCOL.md:148-152 says that the device continues to receive
  until all bytes have arrived.  The count covers payload bytes only, so the receive task may stop
  before the terminator of a packet whose length is a multiple of the transfer size, or before
  trailing empty packets (`Drain.DrainCompleteExactly`, `Drain.LosingRun`).  At 2^64 bytes the count
  starts again, and the task may stop at once (`Drain.WrappedCountExample`).
* **CLOSE_SEND may promise too much.**  After a short completion the close is announced all the same,
  with the count of what was submitted (`Senders.HostOut.Run`).
* **CLOSE does not reset the ping timeout.**  PROTOCOL.md:203-204 asks for default values when the
  capabilities are not exchanged; the timeout of the previous connection stays in force
  (`DeviceControl.PingTimeoutSurvivesClose`).
* **A capabilities query on an open connection can leave a stale timer in charge**
  (`DeviceControl.DeadlineExactly`, `StaleTimerExample`, `StaleTimerReachable`).
* **An `Enable` event while a send task runs blocks the loop for good**
  (`DeviceControl.DeadlockExactly`).
* **A timeout below one millisecond is announced as none** but enforced all the same
  (`Liveness.PollsOftenEnoughExactly`).
* **Values of 65536 bytes and more do not survive the codec** (`Tlv.SingleRoundTrip`).
* **A host with a wider `usize` can be told a limit the device does not accept**
  (`Capabilities.HostToDeviceLimits`), so can a host whose query is not answered
  (`Capabilities.UnansweredLimits`), and a device does not know the limit of a host whose
  announcement is lost (`Capabilities.DeviceToHostLimits`).  `recv` then fails
  (`SystemTheorems.NeverOversize`, `Pipeline.TooLargeFails`).
* **CLOSE_RECV** stops the device's send task but does not halt IN, against PROTOCOL.md:164; the
  model follows the code.

## Model

| member | source | states |
|---|---|---|
| Framing.HostWire | src/host/native.rs:557-569 | The host's single transfer and conditional terminator put on the wire exactly the canonical image of the packet: full USB packets, then one short one. |
| Framing.DeviceWire | src/device.rs:561-587 | The device's chunks and conditional terminator put the same image on the wire, for every length, empty packets and multiples of either size included. |
| Framing.SameWire | src/device.rs:553-594 | For any sequence of packets the two senders are indistinguishable on the wire. |
| Framing.FrameSplit | PROTOCOL.md:251-296 | A packet may be cut anywhere at a multiple of the USB packet size without the wire noticing. |
| Framing.CutJoin | src/device.rs:182-208 | The transfer size is invisible: on any wire, cutting into transfers and joining them again delivers, and leaves over, exactly what splitting the wire after each short packet does. |
| Framing.CutBounds | PROTOCOL.md:251-296 | No receive buffer is ever overfilled, and an open transfer holds whole full USB packets only. |
| Framing.DeframeFrame | PROTOCOL.md:231-330 | Splitting after short packets recovers every packet sequence from its wire image, nothing left over. |
| Framing.FrameDeframe | PROTOCOL.md:231-330 | Conversely every wire stream is the image of the packets it carries and the full USB packets of an unfinished one: framing is a bijection. |
| Framing.FrameAllInjective | PROTOCOL.md:231-330 | Different packet sequences have different wire images. |
| Framing.JoinConcat | src/device.rs:182-208 | Reassembly can be interrupted anywhere and resumed from the buffer. |
| Framing.JoinMonotone | src/host/mod.rs:242-299 | More input never changes or takes back a delivered packet. |
| Framing.RoundTrip | src/host/native.rs:557-569 | Either sender, any cut into transfers, reassembly: exactly the packets sent; buffer and open transfer are empty. |
| Framing.PartialArrival | src/device.rs:182-208 | From any beginning of the wire the receiver has a prefix of the packets, whole ones. |
| Senders.HostOut.SubmitPacket | src/host/native.rs:557-569 | A packet is counted and submitted; at most DMA_BUFFERS + 1 transfers are outstanding. |
| Senders.HostOut.Complete | src/host/native.rs:572-601 | The completion loop ends, takes completions oldest first, and leaves fewer than DMA_BUFFERS pending unless a transfer failed. |
| Senders.HostOut.Loop | src/host/native.rs:535-601 | Under any choice of completions and status, the transfers are those of the packets taken, the count is theirs modulo 2^64, and the loop was ended by the host if and only if no transfer failed and no status stopped it, and then every packet was taken. |
| Senders.HostOut.DrainPending | src/host/native.rs:604-616 | Nothing stays pending; a failure during the drain is noticed. |
| Senders.HostOut.Run | src/host/native.rs:530-619 | Every packet taken was counted and submitted, in order. The error reported is what the completions say (a partial one wins over the first failure, a stall is none); CLOSE_SEND is announced, with the sum of all lengths modulo 2^64 and nothing pending, if and only if no completion failed and no status stopped the task. Without short completions the wire image is that of all packets; with one, less was carried than the count says. |
| Senders.DeviceOut.SendPacket | src/device.rs:561-587 | A packet goes out as its chunks and terminator, and fails if and only if an endpoint call failed; what went out is then a beginning of that. |
| Senders.DeviceOut.Run | src/device.rs:553-594 | The task ends well if and only if no endpoint call failed, and then everything was sent and flushed; in any case the wire image is a beginning of that of the packets. |
| Senders.SentPrefix | src/device.rs:553-594 | A beginning of the transfers is a beginning of the wire image. |
| Receivers.DeviceReceiver.Recv | src/device.rs:178-209 | A poll delivers a packet exactly when one has ended in the channel, fails exactly when the packet in progress is too large, and splits the reassembly of the channel into what it delivered and what is still to come. |
| Receivers.HostReceiver.Batch | src/host/mod.rs:258-268 | For any times of arrival a batch is a run of full transfers ended by a short one or by an empty channel. |
| Receivers.HostReceiver.Append | src/host/mod.rs:270-286 | Adopting the first packet's memory or copying makes no difference to the buffer. |
| Receivers.HostReceiver.Recv | src/host/mod.rs:242-299 | For every schedule of arrivals a batched poll delivers the packet that taking one transfer at a time delivers, and splits the reassembly of everything ahead likewise. |
| Receivers.HostReceiver.Receive | src/host/mod.rs:242-299 | Any number of batched polls, resumed or cancelled, with any arrivals in between, form such a chain: a prefix of the packets sent, all once nothing is ahead, no failure within the limit. |
| Receivers.DeviceReceiver.Receive | src/device.rs:178-209 | The same for the loop that takes one transfer at a time, so the two receivers deliver the same packets. |
| Receivers.RightMore | src/device.rs:178-209 | What is further behind does not change what a poll may do. |
| Receivers.JoinHead | src/host/mod.rs:242-299 | The packet in progress and the rest account for all of the reassembly. |
| Receivers.PacketTaken | src/host/mod.rs:258-298 | Full transfers and one short one are one packet; what follows is untouched. |
| Receivers.PollsExact | src/host/mod.rs:242-299 | Any chain of polls delivers a prefix of the packets sent, all of them once nothing is ahead, and no poll fails, for packets within the limit. |
| Tlv.LittleEndianRoundTrip | src/lib.rs:113-118 | An integer that fits its bytes is read back. |
| Tlv.FromLittleEndianRoundTrip | src/lib.rs:123-138 | Bytes read as an integer are written back. |
| Tlv.Buffer.Append | src/lib.rs:113-118 | Appends one entry, with the length cast to 16 bits. |
| Tlv.DecodeLoop | src/lib.rs:123-140 | The loop over positions computes the recursive decoder, errors included. |
| Tlv.DecodeAppend | src/lib.rs:123-140 | Entries in front of any input are decoded first and do not affect the rest. |
| Tlv.DecodeExact | src/lib.rs:113-140 | Decoding yields given entries if and only if the input is their encoding and each is shorter than 65536 bytes. |
| Tlv.DecodeFailsExactlyOnTruncation | src/lib.rs:123-140 | Decoding fails exactly on what is no concatenation of well-formed entries. |
| Tlv.SingleRoundTrip | src/lib.rs:113-118 | The codec is exact for an entry if and only if its value is shorter than 65536 bytes. |
| Capabilities.EncodeDeviceInto | src/lib.rs:185-206 | The four appends produce the encoding the other lemmas are about. |
| Capabilities.DecodeDeviceLoop | src/lib.rs:208-237 | The loop over entries computes the decoder, short and unknown entries included. |
| Capabilities.DeviceRoundTrip | src/lib.rs:185-237 | The host decodes what the device encoded, with the timeout in whole milliseconds. |
| Capabilities.DeviceRoundTripExact | src/lib.rs:185-237 | Exactly which timeouts cross unchanged: none, or a positive number of whole milliseconds that fits 32 bits. |
| Capabilities.WireFormatExample | src/lib.rs:185-206 | The bytes of each entry: tag, length, value with the lowest byte first. |
| Capabilities.LastEntryCounts | src/lib.rs:208-237 | Of several entries for one field the last counts. |
| Capabilities.HostRoundTrip | src/lib.rs:271-295 | The host's capabilities cross unchanged. |
| Capabilities.EncodedSizes | src/lib.rs:143-160 | Both encodings fit the 256 bytes that are requested. |
| Capabilities.UnknownEntriesIgnored | src/lib.rs:208-237 | Inserting or removing entries the decoder does not know, anywhere, never changes what is decoded. |
| Capabilities.OnlyKnownMatter | src/lib.rs:208-237 | Decoding a sequence of entries is decoding the known ones among them. |
| Capabilities.HostToDeviceLimits | src/host/native.rs:450 | What the host accepts is within what the device accepts if and only if the advertised size fits the device's usize or the host's is no wider. |
| Capabilities.UnansweredLimits | src/host/native.rs:376-389 | Without an answer the limits agree if and only if the default is covered by the device's maximum and usize. |
| Capabilities.DeviceToHostLimits | src/device.rs:694-696 | What the device accepts is within what the host announced; if the announcement was lost, if and only if the host's limit is no less than the default or than the device's usize. |
| DeviceControl.DeadlockExactly | src/device.rs:632-926 | One turn waits for the loop's own sub-task if and only if it is an Enable event while a send task holds the lock of the IN endpoint; every other lock is free. |
| DeviceControl.InvStep | src/device.rs:620-926 | Each turn keeps: a direction is open exactly while its real sub-task is installed, the tasks belong to the newest connection, the close count goes to the installed receive task. |
| DeviceControl.InvRun | src/device.rs:620-926 | The same over any run. |
| DeviceControl.NeverDeadlocks | src/device.rs:620-926 | A run whose Enable events come with the send direction closed never waits for its own sub-task. |
| DeviceControl.StatusSound | src/device.rs:855-865 | In every reachable state STATUS reports RECV_CLOSED if and only if no receive task is installed. |
| DeviceControl.OnlyOpenReopens | src/device.rs:685-754 | Only an OPEN that finds both directions closed opens one, and it makes a new connection; limits do not change while one is open. |
| DeviceControl.CloseEnds | src/device.rs:728-754 | After a served CLOSE, whichever resets failed, and until the next OPEN, whatever arrives late: no sub-task, both directions closed, no error set, no count taken. |
| DeviceControl.IdleUntilOpen | src/device.rs:632-926 | The same for a device that is idle for any other reason, such as Disable or the ping timeout. |
| DeviceControl.CountIsLast | src/device.rs:756-767 | As long as a receive task runs, it sees the count of the last CLOSE_SEND of at least eight bytes served meanwhile, and nothing else. |
| DeviceControl.HaltsExactly | src/device.rs:891-925 | IN is halted exactly when the send task ends by itself, OUT exactly when the receiver is dropped; only CLOSE and Disable end a halt. |
| DeviceControl.DirectionsExactly | src/device.rs:632-926 | A direction is open from the OPEN that makes the connection until its own end (CLOSE_RECV or the end of the send task; the end of the receive task) or CLOSE, Disable or the timer. |
| DeviceControl.ConnectionsExactly | src/device.rs:685-726 | Each OPEN on a closed loop makes one connection, with the limits of that moment; only the timer sets an error, and only on the newest. |
| DeviceControl.InQueueExactly | src/device.rs:632-926 | What is queued on IN is touched by nothing but an echo, which comes behind it, and by an end of the send direction from outside, which drops it. |
| DeviceControl.StopsExactly | src/device.rs:632-926 | The loop ends exactly on unbind or when an endpoint call of the turn fails, and panics exactly on an OPEN before the packet size is known. |
| DeviceControl.EchoesArrive | src/device.rs:796-816 | Over any run of an idle device without OPEN, CLOSE and Disable, IN holds what it held before, followed by the markers in order, and nothing else. |
| DeviceControl.SetupRuns | src/device.rs:685-754 | CLOSE, the capability exchange and OPEN succeed from every state with a known packet size, whichever resets fail and whatever the device does in between, and lead to a state given in full. |
| DeviceControl.SetupForgetsHistory | src/device.rs:685-754 | Two loops with any histories look the same to a connection set up by CLOSE, capabilities, OPEN: no close count, error, limit or deadline is left, and a halt or a full IN FIFO exactly if the reset that removes it failed. |
| DeviceControl.PingTimeoutSurvivesClose | src/device.rs:728-754 | Without a capability exchange the timeout in force is the previous connection's: it is the default if and only if there was none, and otherwise the old timeout is what can close the new connection. |
| DeviceControl.SetupAgreesOnLimits | src/device.rs:694-696 | After a full set-up the device's send limit is within the host's; the host's is within the device's if and only if the advertised size fits the device's usize or the host's is no wider. |
| DeviceControl.DeadlineExactly | src/device.rs:714-717 | While open, the deadline is the last STATUS or OPEN plus the timeout, and a turn breaks this if and only if it is a capabilities query on an open connection that changes the timeout in force to another one, or turns it on when the timer was left elsewhere. |
| DeviceControl.StaleTimerExample | src/device.rs:842-853 | A concrete failing case: after such a query the loop gives up a connection it has just heard from. |
| DeviceControl.StaleTimerReachable | src/device.rs:842-889 | That case is reached from the initial state. |
| DeviceLoop.Loop.Run | src/device.rs:632-926 | The loop in its own form, over any inputs, does what the runs of `Step` do, so that every lemma about runs is about it, and keeps the invariant at each loop head. |
| Pipeline.RecvKeeps | src/device.rs:178-209 | Receiving moves packets without changing which ones are on the way. |
| Pipeline.ArriveKeeps | PROTOCOL.md:251-296 | So does a USB packet that completes, or does not complete, a transfer. |
| Flow.OutTake | src/host/native.rs:540-569 | Framing a queued packet keeps what will arrive, and the count. |
| Flow.OutArrive | src/device.rs:504-543 | Receiving a transfer on the device keeps what will arrive, and the count. |
| Flow.OutDrained | src/device.rs:504-509 | When the count is reached with fewer than 2^64 bytes in flight, only an end of the stream is missing: one packet of a multiple of the transfer size and empty ones. |
| Flow.InComplete | src/device.rs:589-593 | After the flush, a host that sees the halt has everything. |
| SystemProof.Keeps | src/host/native.rs:298-660 | Every action of applications, host, link and device keeps the invariant, failed exchanges, a stopped and a hanging device included. |
| SystemProof.ReachableInv | src/host/native.rs:298-660 | It holds in every state that some run from the start leads to. |
| SystemProof.StartOk | src/device.rs:620-631 | It holds at the start. |
| SystemTheorems.PrefixSafety | src/device.rs:178-209 | In every run, on every connection and in both directions, the packets received are a prefix, in order and whole, of those that `send` accepted, and a half-assembled packet is the beginning of the next and is not delivered; whatever the exchange of limits came to. |
| SystemTheorems.NeverOversize | src/host/mod.rs:289-292 | In every run, a connection on which `recv` found a packet too large was opened after an exchange that does not fit: unanswered, lost, out of date, or between unequal usizes. |
| SystemTheorems.LimitsExactly | src/host/native.rs:376-398 | The two ends' limits agree, in each direction, if and only if the exchange fits. |
| SystemTheorems.ExchangeFits | src/host/native.rs:376-398 | After two served exchanges and with an unchanged maximum, device to host always fits, and host to device if and only if the maximum fits the device's usize or the host's is no wider. |
| Pipeline.TooLargeFails | src/device.rs:196-202 | A packet above the limit is found too large on whatever transfers it arrives, and nothing of it is delivered. |
| SystemTheorems.QuietMeansDelivered | src/host/native.rs:535-618 | In every reachable state with nothing on the way and an undisturbed host, everything accepted has arrived. |
| SystemTheorems.DrainGuarantee | src/device.rs:494-547 | In every run, a device application that has read to the end after a drained half-close misses nothing, or one packet of a multiple of the transfer size and empty ones behind it; nothing if the last packet is not such a multiple. |
| SystemTheorems.DeviceToHostComplete | src/host/native.rs:481-522 | In every run, if the device's send task ended well and the host saw the halt, a host application that reads the end of the stream has every packet. |
| SystemTheorems.RecvClosedSound | src/host/native.rs:640-648 | The host's belief that the device has closed its receive direction is true, of this connection. |
| SystemTheorems.FreshStart | src/host/native.rs:351-417 | A connection starts on an empty link, with new channels, no count, no error, no halt. |
| SystemTheorems.OldConnectionsFrozen | src/device.rs:685-754 | In every run no task of host or device has to do with an earlier connection: every action leaves it alone but its own applications, reading what is in its queues. |
| SystemTheorems.ClosedOnce | src/host/native.rs:269-277 | In every run: at most one CLOSE_SEND and one CLOSE_RECV per connection, exactly one CLOSE once both tasks have ended, last. |
| SystemTheorems.CloseSendExact | src/host/native.rs:604-618 | CLOSE_SEND is attempted only with nothing pending, no failure, everything taken, and carries the sum of all accepted lengths modulo 2^64. |
| SystemTheorems.CloseSendAnnounced | src/host/native.rs:535-618 | CLOSE_SEND is attempted if and only if the send loop ended at the end of its data and no transfer has failed by then, whatever happens in between; a device that serves it and still receives then has exactly that count. |
| SystemTheorems.CloseRecvAnnounced | src/host/native.rs:481-525 | CLOSE_RECV is attempted if and only if the receive loop ended because the application dropped its receiver; a device that serves it has no send task any more. |
| SystemTheorems.StatusLearns | src/host/native.rs:640-660 | After a served STATUS the host knows exactly whether the device still receives; one that fails makes it give the device up. |
| Progress.OutwardProgress | src/host/native.rs:535-618 | From every reachable state in which both ends serve a connection, some run delivers to the device's application everything the host has accepted, and leaves nothing on the way. |
| Progress.InwardProgress | src/device.rs:553-594 | The same from device to host. |
| Progress.OutwardCloses | src/host/native.rs:535-618 | Once the sender is dropped, some run delivers everything, announces the count of exactly that, ends the drain with nothing on the way, and lets the application read the end of the stream. |
| Progress.InwardCloses | src/host/native.rs:481-525 | The same from device to host: flush, halt, end of the stream, and CLOSE if the other direction was closed before. |
| Progress.HostDropStops | src/host/native.rs:481-525 | A host application that drops its receiver can stop the device's send task through CLOSE_RECV. |
| Progress.DeviceDropStops | src/device.rs:891-915 | A device application that drops its receiver halts OUT, and the next STATUS lets the host's send task stop. |
| Progress.Absorbed | src/host/native.rs:525 | A receive task that has left its loop does not hold up the device's flush: what is on the way can be taken. |
| Progress.NobodyWaits | src/device.rs:855-926 | In every run a device application waiting on the newest connection has a receive task behind it or a closed channel, and a closed channel when the loop stops. |
| Progress.Connects | src/host/native.rs:351-417 | A host that may claim the interface can connect to a device that is ready, whatever earlier connections left behind; the connection is fresh, served in both directions, and has the limits of its exchange. |
| Sessions.Session | src/host/native.rs:298-660 | From every such state, for any packets within the limits: some run opens a connection, delivers exactly these packets both ways and the ends of both streams, attempts exactly CLOSE_SEND with the byte count and CLOSE, leaves earlier connections as they were, and leaves the host able to start again. |
| Sessions.Sessions | src/host/native.rs:298-660 | So any list of connections can be carried one after another, and nothing of one is lost or appears in another. |
| Sessions.Service | src/device.rs:620-926 | In particular from the start, for every packet size and every two usizes. |
| Sessions.Recovers | src/host/native.rs:328-417 | From every reachable state whose device loop still turns, a host that gives up what it was doing, or dies, can carry the next connection in full. |
| Drain.InTask.Run | src/device.rs:494-550 | The loop under any schedule is the function the other lemmas are about; it reports a close by the host exactly when its counter equals the count, and otherwise the schedule holds the dropped receiver or the failure that its verdict names. |
| Drain.OutcomeExact | src/device.rs:494-550 | Under every schedule transfers are queued in order, none is lost, the counter is the number of bytes modulo 2^64, and the close is reported exactly at the count. |
| Drain.EndsAnywhere | src/device.rs:511-549 | In every run that has not ended: a dropped receiver, at either await, ends the task without error and without a close by the host, a failure at the data await ends it with an error, and the transfers queued before stay queued. |
| Drain.VerdictExact | src/device.rs:511-549 | Conversely, for every schedule: a good end short of the count means that the task had read up to a dropped receiver, a bad one up to a failure at the data await, and no end that it has used the schedule up. |
| Drain.StopsWhereReached | src/device.rs:506-509 | The task stops only where the count matches, having queued exactly the transfers before. |
| Drain.StopsAnywhere | src/device.rs:506-509 | Wherever the count matches, some schedule makes the task stop there. |
| Drain.ArrivalsExact | src/device.rs:494-550 | The transfers that arrive carry exactly the packets and exactly their bytes. |
| Drain.StopMisses | src/device.rs:506-509 | Of fewer than 2^64 bytes, wherever the wrapped count matches, what is missing is at most one packet of a multiple of the transfer size and empty packets behind it. |
| Drain.LastArrival | src/device.rs:506-509 | The last transfer is empty exactly when the last packet's length is a multiple of the transfer size. |
| Drain.DrainCompleteExactly | src/device.rs:506-509 | Of fewer than 2^64 bytes, every run of the task that reports the close delivers everything if and only if nothing was sent or the last packet's length is not a multiple of the transfer size. |
| Drain.LosingRun | src/device.rs:506-509 | Whenever the condition fails, some run loses exactly the last packet. |
| Drain.WrappedCountExample | src/device.rs:504-509 | If the bytes sent are a multiple of 2^64, a run stops before the first transfer and loses everything. |
| Drain.LostPacketExample | src/device.rs:506-509 | The run that loses a packet of exactly one transfer: received, then the count, then the task stops before the terminator and nothing is ever delivered. |
| HalfClose.HalfCloseHandle.CloseSend | src/host/native.rs:224-244 | After any calls in any order, the requests attempted so far are the ones `EveryOrder` describes; the send direction counts as ended. |
| HalfClose.HalfCloseHandle.CloseRecv | src/host/native.rs:250-267 | The same for the receive direction. |
| HalfClose.EveryOrder | src/host/native.rs:224-278 | For any calls in any order, the complete list of requests: each direction announced by its first call, if that asked for it, in the order the calls came, then CLOSE, once, exactly if both have ended. |
| Echo.EchoArrives | src/device.rs:796-816 | A marker ends the transfer that is open, stale bytes included. |
| Echo.MatchIsLast | src/host/web.rs:471-486 | With distinct markers, a transfer equal to the newest one is the last of the stream, and was not glued to stale bytes. |
| Echo.Barrier.Round | src/host/web.rs:453-490 | One round sees the transfers in order up to the marker or the timeout, losing none. |
| Echo.Barrier.EchoRequest | src/device.rs:796-816 | A marker served by the loop of an idle device comes behind everything that is queued, sent or half received. |
| Echo.Barrier.Run | src/host/web.rs:446-494 | At most 50 rounds, and it gives up only after 50; with distinct markers a match leaves the IN stream empty for every stale stream; with a timely transport that serves the requests it comes in round one, or in round two if the stale stream ended without a short packet; if the first marker is among the stale transfers, it is matched and the stream is not empty. |
| Echo.FalseMatchExample | src/host/web.rs:471-486 | A run of the barrier that is fooled by a stale transfer equal to the first marker. |
| Liveness.PollsOftenEnoughExactly | src/host/native.rs:400-410 | Every host polls at most half the device's timeout apart if and only if the timeout is at least one millisecond. |
| Liveness.IntervalExactly | src/host/native.rs:400-410 | The host polls as often as it was asked to and as the device needs, and never more often than both; not at all exactly if neither asks, or without STATUS. |
| Liveness.GapBelowTimeout | src/host/native.rs:626-637 | With delays below half the timeout two STATUS requests arrive less than the timeout apart. |
| Liveness.TimerSilent | src/device.rs:880-889 | Until the next request in time, a run with timer events is the run without. |
| Liveness.NeverTimesOut | src/device.rs:855-889 | Over any number of polls: the device never times out a host whose two delays around each interval stay below half the timeout, whatever other requests, data, half-closes and timer events come in between, except an OPEN or a query that changes the timeout. |
| Liveness.OpenSets | src/device.rs:714-717 | OPEN, at the end of any set-up, starts the timer that the runs rely on. |
| Pool.BytesPool.Chunk | src/device.rs:263-270 | A chunk never exceeds the capacity, is disjoint from all earlier ones, and follows the previous one unless a new allocation came between. |
| Pool.BytesPool.Run | src/device.rs:263-270 | n chunks use exactly as many allocations as the pool size requires. |
| DmaBuffers.Buffers.Turn | src/host/native.rs:481-522 | With the receiver at work at both awaits: the turn delivers, is interrupted, or ends on a failed transfer or a closed channel exactly as these happen; in every case each buffer is in one place, the one submitted was read by nobody, and DMA_BUFFERS are pending again or the task has ended. |
| DmaBuffers.Buffers.Obtain | src/host/native.rs:484-488 | A returned buffer is reused first; a new one is in no other place. |
| DmaBuffers.Buffers.Discard | src/host/native.rs:499-521 | A failed transfer's buffer is freed, one the channel does not take goes back. |
| DmaBuffers.Buffers.Take | src/host/mod.rs:258-268 | A transfer moves from the channel to the batch. |
| DmaBuffers.Buffers.Finish | src/host/native.rs:51-64 | A buffer that has been read is adopted or returned, or freed when the task is gone. |
| DmaBuffers.Buffers.Stop | src/host/native.rs:525 | At shutdown what is pending is freed and what the receiver holds stays readable. |
| Guard.InUse.New | src/host/guard.rs:16-27 | Succeeds exactly when nobody holds a guard for the interface. |
| Guard.InUse.Drop | src/host/guard.rs:29-35 | When the last clone goes, nobody holds the interface, so the next attempt succeeds. |
| Guard.GuardRun | src/host/guard.rs:16-35 | In every run an interface is registered exactly while one guard for it is held, by one guard only. |
| Guard.ReleasedForGood | src/host/guard.rs:29-35 | A guard that nobody holds any more is never held again. |
| Guard.HeldUntilDropped | src/host/guard.rs:29-35 | Over any run in which a holder does not drop its guard, it holds it, new attempts are refused, and its CLOSE is logged. |
| Guard.CloneCounts | src/host/web.rs:407-442 | So in every run a clone made for a task keeps the interface in use until that task drops it. |
| Guard.NoLateClose | src/host/web.rs:398-444 | In every run, no CLOSE of an earlier attempt is sent once a later attempt at the same interface has got past its guard. |
| Guard.ExclusiveWhileHeld | src/host/web.rs:287-303 | While a connection lasts no other gets past. |

## Left out

- USB libraries, descriptors, endpoint discovery and kernel AIO: replaced by the link described above.
- `prepare_in` and the timed flush of the native host: their effect depends on wall-clock silence; taken to have emptied the endpoint.
- The web host's send task and its status polling, which starts before OPEN, are not in the whole-system model; neither is ECHO, which has its own model of the stream.
- Reassembly after an oversize error: the buffer is cleared in the middle of a packet and the two receivers differ; `Recv` of the whole-system model is not called again after one.
- A partial OUT completion only records an error; the sender model has that, the whole-system model assumes whole completions.
- The choice of error kinds, tracing, `Sink` and `Stream` wrappers, options builders, `PROBE`, `INFO`, `find_interface`, `Class` and `InterfaceId`: no hard claim.
- The command line program, examples and hardware harnesses.
- The interleaving inside one poll of a task and the wakers of the runtime: a blocking await is a poll that makes no progress.
- SystemProof.ReachableInv: control requests are atomic, so a request the device serves after the host has given up on it is not modelled, except for OPEN and the query; the capabilities are not queried on an open connection.
- SystemTheorems.PrefixSafety: for a receiver up to the first packet it finds too large; what it would read after that is not modelled.
- SystemTheorems.DrainGuarantee: for fewer than 2^64 bytes in flight when the count is reached, since the count wraps there.
- Echo.Barrier.Run: markers are random in the code; the guarantee is for markers that differ from each other and from the stale transfers.
- Pool.BytesPool.Chunk: an allocation is taken to have exactly the capacity asked for.
- Sessions.Service: that runs exist which get there, not that a scheduler takes them; fairness is not modelled.
- Liveness.NeverTimesOut: times are given by the run; nothing is said about the clock.
