# Verified model of the two-core RPC stack

The system is a remote-procedure-call stack between Linux on the application cores and a real-time
core, over shared memory, with two device protocols on the real-time side. This project models its
protocols, codecs, rings and arithmetic in Dafny and proves what they are relied on for. `dafny verify
dfyconfig.toml` checks everything.

| files | what they are about |
|---|---|
| Basics, Bytes, Modular, Machine | shared types, byte encodings of numbers, remainders, runs of a machine |
| BusyProtocol, BusyRuns, BusyOrder, BusyProgress, WakeupK3, WakeupQemu, QemuDelivery | the BUSY flag and doorbell protocol, with a store buffer per core; in which order it receives; how each board parks the server task, and that it comes to rest with everything delivered |
| Framing, RpcServer, RpcServerCode, RpcClient, Rpc, RpcRoom | responses on the wire, the server's passes over its channels, the client's response buffer, the two together, and the room in CH1 |
| Descriptor, DescriptorCode, DescriptorGrammar, Utf8 | the service descriptor |
| SpscRing, UartWait | the three single-producer single-consumer rings; waiting for a received byte |
| SoftUart, BitTiming, Wire8N1 | the bit-banged transmitter, its bit clock, and an independent 8N1 receiver |
| FrameParser, Transact, Acall, AcallOrder | the chassis frames, waiting for an answer, and requests answered later, with what and in which order |
| ClockChoice, Reconcile | the UART clock divisor; the benchmark's cross-check of counters |

Concurrent code is modelled as a machine whose steps are single loads, stores and fences, and theorems
speak of every state of every run. Code that one thread runs to completion is a method or a class,
proved to compute a specification function, and the lemmas are about that function. The rest of the
system (what arrives, when, what the service makes of a request, how a message was discovered) is an
input over which every theorem quantifies.

## Where code and documentation differ

The model follows the code. Each difference is a theorem.

- `kick` of the soft UART says it cannot find the ring empty. In a send it can exactly when the machine
  was running at the call: the interrupt may then send everything and stop before `send` tests RUNNING
  (`SoftUart.KickDecides`, with a run in `KickFindsNothing`). The branch is needed.
- On the QEMU board the interrupt handler and the poll look only at REQ, so an urgent request can be
  left behind by a parked task (`WakeupQemu.GateDecides`, `UrgentMissed`).
- The client is rung without having been sent anything exactly for a one-way INIT with the notify flag
  whose descriptor fits (`RpcServer.SilentBellDecides`, `SilentBell`).
- `process_all` says it returns the number of messages processed. It counts those that are serviced:
  deferred, with a result that fits, or one-way and done. It reports all it consumed exactly when all are
  serviced, and 0, after consuming any number, exactly when none is (`RpcServer.CountDecides`,
  `QuietCountDecides`, with a case in `CountMissed`). The K3 board's `drain_all`, said to be the same,
  counts all.
- `recv` says it takes responses in order. After a `recv_for`, which moves the last entry into the hole,
  it does so exactly when the entries behind the match were all alike; with different rids, when it
  matched one of the last two (`RpcClient.SwapKeepsOrder`).
- `recv_raw_for` says that entries need no explicit clearing. rtsh uses nothing else, so a wait succeeds
  exactly when its response is among the first eight ever delivered (`RpcClient.WaitDecides`), and of any
  number of requests answered at once exactly eight get their answer (`FirstEightAnswered`).
- The benchmark says that the path counters must add up to the messages counted. They do exactly when
  the rounds that read the path counters met the same correction in both snapshots
  (`Reconcile.PathsDecide`, with a case where they do not in `PathsMissed`).
- `dll_for` says it finds a divisor within 2%. From 65535.5 times 1843200 Hz on, 65535 can be within
  2% and is not found (`ClockChoice.DivisorDecides`, `DivisorMissed`).

## Model

| member | source | states |
|---|---|---|
| BusyProtocol.CoreInvStep | modules/ov-rpc/src/client.rs:136-211 | every step of any client, of the server and of a store buffer keeps: at most one buffered request per client and only before its fence, rings hold requests their client sent, and BUSY in memory with the buffered stores agrees with where the server is |
| BusyProtocol.ServerLooks | apps/rt-async-k3/src/intercom.rs:1770-1831 | a server step that passes a channel without leaving a later look at it has just seen that channel empty |
| BusyProtocol.ServerTakes | apps/rt-async-k3/src/intercom.rs:1848-1857 | a server step takes nothing or exactly the oldest request of one ring |
| BusyProtocol.ConservedStep | modules/ov-rpc/src/client.rs:116-134 | no step loses or duplicates a request between store buffers, rings and the server |
| BusyProtocol.IssuedOnceStep | modules/ov-rpc/src/client.rs:116-134 | requests sent are all different |
| BusyRuns.WithoutFence | modules/ov-rpc/src/client.rs:144-149 | with either fence left out there is a run in which the server returns with REQ empty and afterwards a settled request lies in REQ, with no doorbell |
| BusyOrder.UrgentThenReq | apps/rt-async-k3/src/intercom.rs:1848-1857 | while nothing arrives the server receives, from the start of a pass on, all of URGENT and then all of REQ, each oldest first, whatever the clients, the spin limit and the fences |
| BusyOrder.UrgentFirst | apps/rt-async-k3/src/intercom.rs:1770-1831 | whatever arrives: between any server step that takes nothing (setting BUSY, a look that finds a ring empty, a hit, the recheck) and the next step that shortens REQ, URGENT is empty at some moment |
| BusyOrder.WindowQuiet | apps/rt-async-k3/src/intercom.rs:1780-1806 | BUSY is cleared only behind a window of exactly spinLimit looks at each ring, all of which found it empty |
| BusyOrder.LooksAfterTake | apps/rt-async-k3/src/intercom.rs:1770-1806 | a counted message is followed by another pass and a whole window before BUSY is cleared, an uncounted one by the rest of its pass and the window |
| BusyOrder.ClearedOnce | apps/rt-async-k3/src/intercom.rs:1816-1831 | once BUSY has been cleared the call neither stores to it again nor goes back to spinning |
| BusyOrder.OrderStep | modules/ov-rpc/src/client.rs:116-134 | with the client fence no step breaks the order in which each client sent on a channel |
| WakeupK3.NoLostWakeup | apps/rt-async-k3/src/intercom.rs:1754-1831 | any clients, any run: if the server is parked with its latch clear and no doorbell in flight, BUSY reads 0 and what is in REQ and URGENT belongs to clients that have yet to read BUSY or ring |
| WakeupK3.FencesDecide | apps/rt-async-k3/src/intercom.rs:1814-1823 | for every number of clients and every spin limit, that holds in all runs if and only if both sides fence |
| BusyProgress.ServerDescends | apps/rt-async-k3/src/intercom.rs:1770-1831 | each server step takes a message or comes nearer to returning, whether or not the drain counts the message |
| WakeupK3.SilenceEnds | apps/rt-async-k3/src/intercom.rs:1770-1831 | while clients are silent the system makes at most Budget moves, a bound computed from what is queued and the spin limit |
| WakeupK3.RestIsSleep | apps/rt-async-k3/src/intercom.rs:1754-1831 | a state from which no such move is possible has the server parked and all store buffers empty |
| WakeupK3.RestMeansDelivered | apps/rt-async-k3/src/intercom.rs:1754-1831 | at rest, with every call finished, both rings are empty and the server has received each request sent exactly once |
| WakeupK3.SentOrder | modules/ov-rpc/src/client.rs:116-134 | in every run with the fences, of two requests that a client sent on one channel the earlier one has been received first |
| WakeupQemu.SlotSafe | apps/rt-async-app/src/ipc_wait.rs:24-71 | no run reads or drops an uninitialised waker or overwrites one; with interrupts enabled and no handler running the slot is initialised if and only if has_waker |
| WakeupQemu.NoLostReq | apps/rt-async-app/src/intercom.rs:137-198 | a parked task with no wake, handler or doorbell under way has missed no REQ request |
| WakeupQemu.UrgentMissed | modules/ov-rpc/src/server.rs:501-505 | a run in which a settled urgent request is left behind |
| WakeupQemu.ReqMissed | apps/rt-async-app/src/intercom.rs:176-187 | a run in which a REQ request is left behind for want of either fence |
| WakeupQemu.GateDecides | apps/rt-async-app/src/ipc_wait.rs:24-38 | for every number of clients, no wake-up is lost on a channel if and only if the channel is REQ and both sides fence |
| QemuDelivery.SilenceEnds | apps/rt-async-app/src/intercom.rs:137-198 | while clients are silent the system makes at most Budget moves of its own, waker slot and handler included |
| QemuDelivery.RestIsSleep | apps/rt-async-app/src/ipc_wait.rs:45-71 | a state from which no such move is possible has the task parked, nothing under way and all client buffers empty |
| QemuDelivery.RestMeansDelivered | apps/rt-async-app/src/intercom.rs:137-198 | at rest, with every call finished, REQ is empty and each REQ request has been received exactly once; an urgent one has been or lies in its ring |
| QemuDelivery.SentOrder | modules/ov-rpc/src/client.rs:116-134 | likewise for the QEMU board |
| Framing.Response.WriteRaw | modules/ov-rpc/src/server.rs:119-135 | succeeds if and only if the bytes fit 2028; then the buffer holds rid and bytes, otherwise what it held |
| Framing.AnswerReads | modules/ov-rpc/src/server.rs:202-212 | for every rid and result that fits: one block if and only if 8+n <= 255, read back with the rid and the result before any stale tail; otherwise 2 to 8 blocks, no more than the bytes need, read back exactly |
| Framing.EntryDecides | modules/ov-rpc/src/client.rs:244-272 | for every message: it becomes an entry if and only if it is one block of a request or response, or a multi-block response whose announced length is 8 to 2036 and all there; rid and data are then exactly those bytes |
| Framing.PoisonReads | modules/ov-rpc/src/server.rs:221-226 | a longer result becomes a poison with the same rid that no varint reader and no descriptor parser accepts |
| Framing.NotConfused | modules/ov-rpc/src/client.rs:244-272 | equal wires answer the same request; a stream frame carries one result, and two results sharing a block differ only in what one leaves unwritten |
| Framing.CodecSurvives | modules/ov-rpc/src/client.rs:66-69 | every self-delimiting codec decodes from the entry the value encoded |
| Framing.DiscoveryDecides | modules/ov-rpc/src/client.rs:335-340 | the answer to INIT yields the server's method table if and only if the encoded table has at most 2028 bytes |
| RpcServer.ModeDecides | modules/ov-rpc/src/client.rs:157-211 | for every method: a call or call_poll is answered with its rid unless deferred, a send or urgent never; only a call whose result fits is rung for |
| RpcServer.JudgeDecides | modules/ov-rpc/src/server.rs:321-433 | a response is offered if and only if the request is two-way and not deferred, and it is the result that fits or else a poison, with the request's rid; exactly when Handled(Notify), Handled(OneWay), NotRpc and Unhandled are returned, and with which method or message |
| RpcServer.LifeExplains | modules/ov-rpc/src/server.rs:451-491 | over any number of passes each channel is consumed once and in order, and CH1 holds the undelivered end of what was sent |
| RpcServer.LifeOrderly | modules/ov-rpc/src/server.rs:451-491 | offers are those owed to the messages taken, in order; each doorbell directly follows the offer of the result it announces, except for a one-way INIT |
| RpcServer.LifeAccounts | modules/ov-rpc/src/server.rs:321-491 | any life of the server, whatever the rest of the system does: conservation and order on all three channels, exactly one offer per two-way request that is not deferred and none for others, every offer sent or counted as failed, doorbells as owed, what is no request passed on in order |
| RpcServer.UrgentFirst | modules/ov-rpc/src/server.rs:458-489 | in a pass every urgent message is taken before URGENT is observed empty, every normal one after |
| RpcServer.SilentBellDecides | modules/ov-rpc/src/server.rs:348-362 | no response and Handled(Notify) if and only if the request is a one-way INIT with the notify flag and the descriptor fits |
| RpcServer.SilentBell | modules/ov-rpc/src/server.rs:348-362 | such a request |
| RpcServer.CountDecides | modules/ov-rpc/src/server.rs:445-491 | process_all's count is the number of Serviced messages among those taken; it is all of them if and only if all are Serviced, and zero if and only if none is |
| RpcServer.QuietCountDecides | modules/ov-rpc/src/server.rs:445-491 | when nothing arrives meanwhile the messages taken are those that waited, so the same is decided by what waits in URGENT and REQ before the call |
| RpcServer.CountMissed | modules/ov-rpc/src/server.rs:395-411 | one request with bad arguments is consumed and the count is 0 |
| RpcServerCode.Server.Answer | modules/ov-rpc/src/server.rs:332-432 | the branches of process_channel return the verdict and offer the reply of the specification, and count failures |
| RpcServerCode.Server.ProcessChannel | modules/ov-rpc/src/server.rs:321-433 | new channels, log, failure count and result are those of the specification |
| RpcServerCode.Server.ProcessAll | modules/ov-rpc/src/server.rs:451-491 | performs exactly the specified pass and returns the number of handled results |
| RpcServerCode.Server.DrainAll | apps/rt-async-k3/src/intercom.rs:1848-1857 | performs the same pass and returns the number of messages consumed |
| RpcClient.PollTakes | modules/ov-rpc/src/client.rs:230-279 | what a poll removes from the front of CH1 is what it appends to the buffer, in order, messages without a rid dropped, never past a broken chain |
| RpcClient.Accounting | modules/ov-rpc/src/client.rs:230-355 | over any run: drained = consumed + buffered as multisets, at most 8 buffered, and drained is, in order, what the messages taken from CH1 stand for |
| RpcClient.Fifo | modules/ov-rpc/src/client.rs:290-300 | without recv_for, consumed followed by buffered is drained |
| RpcClient.SwapKeepsOrder | modules/ov-rpc/src/client.rs:307-321 | for every buffer: recv_for removes the first matching entry and no other, and keeps the others' order if and only if all behind the match are alike; with different rids, if and only if it matched one of the last two |
| RpcClient.BrokenStalls | modules/ov-rpc/src/client.rs:242-245 | a broken chain at the head of CH1 stays and nothing is drained from then on |
| RpcClient.LookingFreesNothing | modules/ov-rpc/src/client.rs:347-355 | with recv_raw_for alone the buffer only grows, and once full it is fixed while CH1 fills |
| RpcClient.AtMostEightFound | modules/ov-rpc/src/client.rs:347-355 | such a client finds the answers to at most eight requests in its life |
| RpcClient.EightAnswers | user-apps/rtsh/src/lib.rs:295-331 | so do the calls of rtsh, however many and whatever arrives |
| RpcClient.WaitDecides | user-apps/rtsh/src/lib.rs:306-331 | a wait returns the data of the first entry with its rid among the first eight of the buffer, then CH1, then what arrives by the first 65 wake-ups, up to a broken chain; it fails if and only if there is none or no wake-up comes |
| RpcClient.FullDecides | user-apps/rtsh/src/lib.rs:306-331 | on a full buffer a wait succeeds if and only if a wake-up comes and the rid is buffered; the buffer stays and CH1 only grows |
| RpcClient.FirstEightAnswered | user-apps/rtsh/src/lib.rs:295-331 | of n calls whose correct answers arrive at once exactly the first eight are answered |
| RpcClient.PromptFull | user-apps/rtsh/src/lib.rs:306-331 | the ninth fails with its answer in CH1 |
| RpcClient.Client.PollResponses | modules/ov-rpc/src/client.rs:230-279 | buffer and channel become those of the specification; the count is the growth |
| RpcClient.Client.Recv | modules/ov-rpc/src/client.rs:290-300 | takes the first entry, keeps the order of the others |
| RpcClient.Client.RecvFor | modules/ov-rpc/src/client.rs:307-321 | takes the first entry with the rid and leaves the specified buffer; otherwise changes nothing |
| RpcClient.Client.RecvRawFor | modules/ov-rpc/src/client.rs:347-355 | the data of the first entry with the rid, if there is one |
| RpcClient.WaitRaw | user-apps/rtsh/src/lib.rs:306-331 | the loop returns and leaves what the specification says, giving up after 65 polls |
| Rpc.RepliesRead | modules/ov-rpc/src/client.rs:230-279 | replies on CH1 become entries one for one, in order, with their rids and results |
| Rpc.AnswersArrive | modules/ov-rpc/src/server.rs:451-491 | while no response fails and nobody else answers, the client drains, in order, the answers to the two-way requests the server took |
| RpcRoom.RoomDecides | modules/ov-rpc/src/server.rs:202-226 | a response is appended, and not counted as failed, if and only if the bytes of the blocks of the messages in CH1 and its own are at most 255 times the ring's blocks |
| RpcRoom.RefusedOnlyWhenFull | modules/ov-rpc/src/server.rs:321-491 | over any life of the server CH1 is what it was, changed by what was taken off and put in, and each response offered is accepted if and only if its wire fits behind those of the responses then in CH1 |
| RpcRoom.EmptyRingAnswers | modules/ov-rpc/src/server.rs:411-416 | in an empty CH1 of at least eight blocks a two-way request that is not deferred leaves exactly its response, and no failure is counted |
| Utf8.ValidIsEncoding | modules/ov-rpc/src/descriptor.rs:172 | the validity test accepts exactly the encodings of sequences of Unicode scalar values |
| Bytes.TakeLeb | modules/ov-rpc/src/descriptor.rs:179-195 | take_varint reads back what put_varint wrote, for every u64, wherever it lies |
| Bytes.LebByte | modules/ov-rpc/src/descriptor.rs:46-54 | byte i of the encoding is group i of seven bits, the eighth set on all but the last, and there are no more groups than the number needs |
| Bytes.LeByte | modules/ov-rpc/src/server.rs:119-135 | byte i of a rid or length on the wire is its i-th byte, lowest first |
| Bytes.TakeFromIsU64 | modules/ov-rpc/src/descriptor.rs:179-195 | what take_varint returns fits 64 bits whatever the bytes |
| Descriptor.NextEntry | modules/ov-rpc/src/descriptor.rs:163-177 | the iterator reads back an entry wherever it lies |
| Descriptor.RoundTrip | modules/ov-rpc/src/descriptor.rs:223-249 | for every method table and every tail, parse succeeds and the iterator yields the table |
| Descriptor.ParseCovers | modules/ov-rpc/src/descriptor.rs:223-249 | whatever parse accepts has exactly the announced number of entries, and they end where desc_len says |
| Descriptor.PaddingIgnored | modules/ov-rpc/src/descriptor.rs:216-222 | bytes behind an accepted descriptor change nothing |
| DescriptorGrammar.TakeDecides | modules/ov-rpc/src/descriptor.rs:179-195 | a number is read from pos up to n if and only if those bytes are one to ten groups of seven bits, all but the last with the eighth bit set, and it is their value modulo 2^64 |
| DescriptorGrammar.ParseDecides | modules/ov-rpc/src/descriptor.rs:163-249 | for every byte string and method table: parse succeeds and the iterator yields the table if and only if the string is version 1, the body's length, the number of entries and exactly those entries, names in UTF-8, whatever follows |
| DescriptorCode.VarintLen | modules/ov-rpc/src/descriptor.rs:37-44 | the number of bytes put_varint writes |
| DescriptorCode.PutVarint | modules/ov-rpc/src/descriptor.rs:46-54 | appends the encoding at pos and keeps what was before |
| DescriptorCode.EncodedLen | modules/ov-rpc/src/descriptor.rs:64-73 | the length of the encoded table |
| DescriptorCode.Encode | modules/ov-rpc/src/descriptor.rs:77-107 | fills an array of that length exactly with the encoded table |
| DescriptorCode.TakeVarint | modules/ov-rpc/src/descriptor.rs:179-195 | the value and position of the specification |
| DescriptorCode.MethodIterator.Advance | modules/ov-rpc/src/descriptor.rs:166-176 | yields the entry at pos and moves past it, or yields nothing and stays |
| DescriptorCode.CoveredBy | modules/ov-rpc/src/descriptor.rs:234-249 | true if and only if count entries cover the area |
| DescriptorCode.ParseDescriptor | modules/ov-rpc/src/descriptor.rs:223-249 | parse |
| SpscRing.StepRefines | apps/rt-async-k3/src/robot.rs:428-452 | every load, store and slot access of either side refines a bounded FIFO queue; refusal and emptiness are judged on the queue as it was when the other side's index was loaded |
| SpscRing.RunIsFifo | modules/chip-k3-rt24/src/soft_uart.rs:184-215 | from the empty ring, over any interleaving and any number of wrap-arounds: sent = received + queued, at most the usable capacity queued |
| SpscRing.FirmwareFifo | apps/rt-async-app/src/uart_wait.rs:31-63 | so for the three rings of the firmware |
| SpscRing.Overwritten | apps/rt-async-k3/src/robot.rs:436-439 | for every ring that does not meet the condition of CapacityDecides, a run in which what comes out is not what went in |
| SpscRing.CapacityDecides | apps/rt-async-k3/src/robot.rs:428-452 | every run of a ring is FIFO if and only if its capacity divides the counters' range or it admits no more items than that division leaves; for a ring using all its slots, if and only if it divides |
| SpscRing.CounterRing.Push | apps/rt-async-k3/src/robot.rs:428-439 | appends unless full, then refuses and changes nothing |
| SpscRing.CounterRing.Pop | apps/rt-async-k3/src/robot.rs:442-452 | removes the first item, or nothing when empty |
| SpscRing.MaskedRing.PushByte | apps/rt-async-app/src/uart_wait.rs:52-63 | appends unless 255 are queued, then drops the byte |
| SpscRing.MaskedRing.PopByte | apps/rt-async-app/src/uart_wait.rs:41-50 | removes the first byte, or nothing when empty |
| UartWait.SlotSafe | apps/rt-async-app/src/uart_wait.rs:65-106 | no run reads or drops an uninitialised waker or overwrites one; with interrupts enabled and no handler running the slot is initialised if and only if has_waker |
| UartWait.NoLostByte | apps/rt-async-app/src/uart_wait.rs:65-106 | accepted bytes are received, in the task's hand or queued, in order; a parked task with no handler and no wake under way has received them all |
| UartWait.DroppedOnlyWhenFull | apps/rt-async-app/src/uart_wait.rs:52-63 | a byte is refused if and only if 255 accepted bytes have not been received |
| UartWait.ByteReceived | apps/rt-async-app/src/uart_wait.rs:65-106 | in every reachable state in which poll has not disabled interrupts, parked or not: a byte that comes and finds room can be received behind all earlier ones by the moves of the handler, the wake it causes and the task alone |
| SoftUart.LineCarries | modules/chip-k3-rt24/src/soft_uart.rs:264-373 | for every interleaving of sends and interrupts an 8N1 receiver on the line sees no framing error and reads the accepted bytes in order, none lost or repeated |
| SoftUart.BackToBack | modules/chip-k3-rt24/src/soft_uart.rs:327-373 | since the machine was last started the line has carried the frames of the bytes received since then without a gap, then the frame under way, or only idle levels once stopped |
| SoftUart.RestIsQuiet | modules/chip-k3-rt24/src/soft_uart.rs:264-366 | outside send, stopped means ring empty, compare off, line high, mailbox on and everything accepted received; running means compare on and mailbox masked |
| SoftUart.DeadlinesExact | modules/chip-k3-rt24/src/soft_uart.rs:368-373 | however late interrupts are taken, the stored deadline is that of the bit on the line, exactly |
| SoftUart.SendAccepts | modules/chip-k3-rt24/src/soft_uart.rs:264-285 | for any interleaving: since its call a send has accepted a prefix of its bytes, in order; past its pushes it is all of them unless, and only unless, a load of the ring's indices found 128 bytes in it |
| SoftUart.ConsumersExclusive | modules/chip-k3-rt24/src/soft_uart.rs:299-321 | kick and the interrupt never take from the ring at the same time |
| SoftUart.KickDecides | modules/chip-k3-rt24/src/soft_uart.rs:264-305 | in every reachable state outside send: some send from here gets to kick with the ring empty if and only if RUNNING is set at the call |
| SoftUart.KickFindsNothing | modules/chip-k3-rt24/src/soft_uart.rs:301-305 | a reachable state and such a send |
| SoftUart.Driver.Kick | modules/chip-k3-rt24/src/soft_uart.rs:299-321 | the state after it is that of the machine's steps from popping to enabling the interrupt |
| SoftUart.Driver.TimerInterrupt | modules/chip-k3-rt24/src/soft_uart.rs:327-373 | the state after it is the machine's interrupt step |
| SoftUart.Driver.WriteMatchGuarded | modules/chip-k3-rt24/src/soft_uart.rs:247-256 | the compare register gets the guarded deadline |
| BitTiming.NoDrift | modules/chip-k3-rt24/src/soft_uart.rs:219-231 | after n bits the deadline is t0 + floor(n * 2000000 / 115200) modulo 2^32 with remainder 41600 n modulo 115200 |
| BitTiming.ErrorBelowOneTick | modules/chip-k3-rt24/src/soft_uart.rs:219-223 | the deadline lies within one tick of the true bit edge for every n |
| BitTiming.GuardAhead | modules/chip-k3-rt24/src/soft_uart.rs:244-256 | the compare value is 2 to 2^31 ticks ahead of the counter and is the deadline itself if and only if that is, otherwise 2 ticks ahead |
| Wire8N1.ReceiveFrame | modules/chip-k3-rt24/src/soft_uart.rs:335-344 | a receiver reads a frame of start bit, eight bits lowest first and stop bit back as its byte, and part of it as pending |
| FrameParser.ParseSound | apps/rt-async-k3/src/robot.rs:130-168 | the input is dropped bytes, then the frame as build_frame writes it, then what stays; without a frame at most 16 bytes stay |
| FrameParser.ParseExtends | apps/rt-async-k3/src/robot.rs:130-168 | appending bytes never changes a decision already taken |
| FrameParser.ChunkingIrrelevant | apps/rt-async-k3/src/robot.rs:115-168 | however a stream is cut into chunks, the frames and the undecided bytes are those of one scan |
| FrameParser.LoopComplete | apps/rt-async-k3/src/robot.rs:115-168 | once the parser finds nothing more, every frame of the stream has been returned and the buffer holds the undecided bytes |
| FrameParser.Recovered | apps/rt-async-k3/src/robot.rs:97-168 | behind any noise without a header a built frame is found and exactly the suffix stays |
| FrameParser.BuildParses | apps/rt-async-k3/src/robot.rs:97-109 | a built frame parses back if and only if its payload has at most 12 bytes |
| FrameParser.ChecksumIsParity | apps/rt-async-k3/src/robot.rs:97-109 | bit i of a built frame's last byte is set if and only if an odd number of command, length and payload bytes have bit i set |
| FrameParser.AcceptedDecides | apps/rt-async-k3/src/robot.rs:130-168 | a complete frame at the front with at most 12 payload bytes is taken as it stands if and only if its last byte is the parity of every bit |
| FrameParser.DropsNoFrame | apps/rt-async-k3/src/robot.rs:130-168 | at every byte dropped, by header, length or parity, no frame stands, and where the parser stops one does or still may |
| FrameParser.BuildFrame | apps/rt-async-k3/src/robot.rs:97-109 | writes the specified frame and returns its length |
| FrameParser.ParseFrame | apps/rt-async-k3/src/robot.rs:130-168 | returns what the specification finds and leaves what it leaves |
| Transact.DrainUart | apps/rt-async-k3/src/robot.rs:115-126 | moves bytes in order until the buffer is full or none is left |
| Transact.AwaitFrame | apps/rt-async-k3/src/robot.rs:178-193 | the frame returned is the first of the bytes received; if no poll finds more than 16 new bytes, it is the first of all that arrived |
| Acall.ExactlyOnce | apps/rt-async-k3/src/robot.rs:282-302 | under any preemption each accepted INIT, GRAB or RELEASE has been answered or is in exactly one place on its way, each refused one has been answered 0xFFFFFFFF, and results and arguments belong to their request |
| Acall.AllAnswered | apps/rt-async-k3/src/robot.rs:471-506 | with nothing under way every call has had exactly one answer |
| AcallOrder.AnsweredInOrder | apps/rt-async-k3/src/robot.rs:282-302 | in every run the INITs that found none pending, the arm commands that found fewer than eight queued and the requests refused are, each in order, those answered so and those under way; and INITs are answered, in order, 1 if both INIT and CONFIG were acknowledged and 0 otherwise |
| AcallOrder.SleepsCount | apps/rt-async-k3/src/robot.rs:471-506 | in every run the sleeps of the arm's sequences are three for each grab and one for each release answered, and those of the one under way |
| AcallOrder.EveryCallAnswered | apps/rt-async-k3/src/robot.rs:282-302 | from every reachable state the handlers and tasks, left alone, can get to rest, and then every request has had exactly as many answers as calls |
| Acall.WithoutPriorities | apps/rt-async-k3/src/robot.rs:540-549 | a run that overwrites an accepted request when a handler may run inside the chassis task |
| Acall.PrioritiesDecide | apps/rt-async-k3/src/robot.rs:540-573 | exactly-once completion holds if and only if the scheduler keeps the priorities |
| ClockChoice.DivisorDecides | modules/chip-k3-rt24/src/ap_uart.rs:169-182 | a divisor is found if and only if one of 1..65535 is within 2% and f is below 65535.5 * 1843200; it is then the nearest integer |
| ClockChoice.DivisorMissed | modules/chip-k3-rt24/src/ap_uart.rs:174-176 | a register content for which 65535 is within 2% and none is found |
| ClockChoice.NoOverflow | modules/chip-k3-rt24/src/ap_uart.rs:146-155 | products and errors stay below 2^63 |
| ClockChoice.ChosenSuits | modules/chip-k3-rt24/src/ap_uart.rs:162-204 | for every register content the choice is in range, nearest and within 2% for the registers as they are afterwards; source 2 is chosen if and only if it serves and is selected or source 1 does not serve; SUCCR is written only if neither serves, and then the rate is 14745600 and the error zero |
| ClockChoice.ChoiceOnFields | modules/chip-k3-rt24/src/ap_uart.rs:146-204 | with num and den the fields of the chosen source's register afterwards and fin 153.6 or 614.4 MHz, no divisor brings 2 * num * 1843200 * divisor nearer to fin * den, and it is within 2% up to the rounding of one division; on fields too: source 2 is chosen if and only if it serves and is selected or source 1 does not serve, and SUCCR is written if and only if neither serves |
| ClockChoice.ChoiceStands | modules/chip-k3-rt24/src/ap_uart.rs:162-204 | choosing again changes nothing and chooses the same |
| ClockChoice.Mmio.Choose | modules/chip-k3-rt24/src/ap_uart.rs:162-204 | the branches of choose_clock make that choice |
| Reconcile.Counters.Serve | apps/rt-async-k3/src/intercom.rs:1865-1889 | a STATS message reads its counter before it is counted; MSGS = D1+D2+D3+D4 after it |
| Reconcile.Bench.Snapshot | user-apps/user-test-bench/src/main.rs:765-782 | each path counter read is the count up to its own round, MSGS all rounds but its own, and the mark all rounds |
| Reconcile.SnapTotal | user-apps/user-test-bench/src/main.rs:765-782 | a snapshot's path counters add up to MSGS - 4 plus the correction of the three rounds from the one that read D1 |
| Reconcile.PathsDecide | user-apps/user-test-bench/src/main.rs:1274-1294 | path deltas add up to the message delta if and only if both snapshots met the same correction |
| Reconcile.PathsMissed | user-apps/user-test-bench/src/main.rs:44-47 | two snapshots for which they do not |
| Reconcile.PathSum | user-apps/user-test-bench/src/main.rs:1286-1289 | the sum of the four saturating deltas |
| Reconcile.Measure | user-apps/user-test-bench/src/main.rs:1269-1294 | snapshot, rounds, snapshot: messages and rounds always agree, paths if and only if the corrections do |

## Left out

- The shared-memory ring crate is not part of this model: REQ, URGENT and CH1 are FIFO queues whose sends and receives are atomic, CH1's room is counted in 255-byte blocks, and a stream frame is a 4-byte little-endian length, the bytes, and whatever fills the last block.
- BusyProtocol.CoreInvStep: rings are unbounded, because a refused send publishes nothing and its caller returns before the fence.
- The wake-up protocol, the waker slot, the soft UART and the deferred requests are machines of atomic steps and not classes, because their code is interleaved; the soft UART's kick and interrupt handler exist in both forms.
- QemuDelivery.SilenceEnds: interrupts without a doorbell and polls that nobody asked for are not counted, since the model lets them happen at any time.
- UartWait.NoLostByte: pushes and pops are single steps there, which SpscRing shows them to refine; the interrupt handler that calls push_byte is not part of this model and is taken to call notify_from_isr after its pushes.
- Executor, interrupt controllers and scheduler: a boolean latch, a wake flag, a doorbell that is eventually delivered, and the stated priorities.
- RpcServer.LifeAccounts: the service's own effects are not modelled; what it makes of a request is part of the request. The answers of deferred requests enter CH1 as completions by others.
- Validity of the shared window (magic numbers, re-initialisation, the watchdog): re-initialisation discards messages by design; the window is taken to stay valid, so receivers and senders are always obtained.
- postcard: results are bytes, and CodecSurvives is about any self-delimiting codec. Response::write, which serialises into the buffer, leaves it empty exactly like write_raw when the result is too long.
- RpcClient.EightAnswers: time is a number of wake-ups before the deadline; errors of ppoll end the wait like a timeout.
- FrameParser.ChunkingIrrelevant: chunks need not fit the buffer; Transact models the 32-byte limit.
- AcallOrder.SleepsCount: how long the arm sleeps is not modelled.
- Chassis set-points, stop requests and telemetry, servo angles, the poses of a grab: they answer no request and add only easy members.
- Reconcile.Measure: counters are unbounded, so a wrap at 2^64 and a reset of the core in mid-measurement are not modelled.
- Memory benchmarks, litmus tests, latency statistics, device registers, boot, consoles and shells: measurement and plumbing.
