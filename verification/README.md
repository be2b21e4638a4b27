# turbo-net: the protocol logic, verified

turbo-net holds several implementations of one length-prefixed protocol over TCP: bind, request and
response packets with 32-bit sequence numbers and timeouts. This project models their protocol logic in
Dafny and proves what it keeps over every run.

Asio is a scheduler here. Each strand handler, each block under a mutex and each timer tick is one atomic
step; a socket is a reliable FIFO of bytes; time is an integer in milliseconds (seconds for the qwen
server). Callbacks, the clock, authentication decisions, padding bytes and the order in which a hash map is
walked are parameters or arbitrary choices of a step, so every theorem holds for all of them.

| file | what it models |
|---|---|
| `Bytes.dfy` | bytes, 32-bit words, big-endian encoding, wrapping sequence counters |
| `Packets.dfy`, `Decoder.dfy` | the claude packet, its serialization and the incremental reader |
| `WritePump.dfy` | the strand-serialised write queue of the claude client and server connection |
| `Requests.dfy` | expiry sweeps; pending requests of the claude client |
| `EndToEnd.dfy` | client, two byte streams and echoing server as one transition system |
| `ServerTimeouts.dfy` | the flag-driven timeout timer of the claude server |
| `ThreadPool.dfy` | the thread pool of claude/server.cpp |
| `ResponseIndex.dfy` | map, lazy-deletion queue and sweep timer of the turbonet client |
| `Gateway.dfy` | sequence rewriting between many producers and one downstream connection |
| `TurboNet.dfy` | turbonet framing in both directions, session authentication |
| `Smpp.dfy` | SMPP PDU framing, section 3.2 of SMPP v3.4 |
| `Qwen.dfy` | session accounting and broadcast correlation of the qwen server |

Each component is a class with the fields of the source and one method per handler or locked block. A method
is proved against a step function on values, and the lemmas are about all runs of those steps.

Where the code does not meet what its comments or names suggest, the model follows the code:

- `sizeof(PacketHeader)` is 12, not the 10 of the comment; the two padding bytes are a header field of
  arbitrary value.
- An empty packet is delivered with the last nonempty payload, because `current_payload_` is never cleared
  (`Decoder.StalePayload`). `EndToEnd.EndToEndIntegrity` states exactly when an empty request still gets an
  empty answer.
- The claude client sends a request before it registers it, so a response can come too early and is then lost
  for good (`EndToEnd.EarlyResponseIsReachable`, for any nonempty data within the size limit).
  `EndToEnd.AnsweredExactly` states the exact condition: a request is answered if and only if its response was dispatched and found it pending.
- The flag reset in the server's `checkTimeouts` sits in a lock scope of its own. A `sendRequest` that tests
  the flag in between leaves its request without a timer, unless another caller is still to test it
  (`ServerTimeouts.RaceIsReachable`). `TimerIffNoRace` proves that requests always have their timer if and only
  if the last caller under way never tests the flag in that gap with something pending. A later caller can heal
  the loss, so the latency of one request has a condition of its own: after any history it is reported in time
  if and only if the clock does not pass the time it is due with no timer set (`ReportedInTime`), which cannot
  happen unless a caller loses the timer while it is pending. From such a step, `RaceBreaksBound` and
  `OrphanIsNeverReported` lead past the bound.
- `startResponseTimer` re-arms the one sweep timer on every send, so a request can fire after its own
  deadline (`ResponseIndex.LateFiringIsReachable`). `FiringTime` gives the exact time. `cancelResponseTimer`
  has no caller in the repository; the model allows it at any time.
- The sweep of the turbonet client looks at the queue under the mutex and sets the timer outside it. A request
  that gets in after the handler has found the queue empty has its timer overridden and waits for a day, if no other is sent
  (`ResponseIndex.LossIsReachable`). `SweepArming` proves that this is the only way to lose the
  sweep, and `Quiescent` that after the last request nothing is left over if and only if it was not lost since.
- The turbonet server session subtracts ten from the length field in 32-bit arithmetic, which undoes the
  wrap, so frames towards the server survive up to 2^32 - 1 body bytes. Only the client reader, which refuses
  lengths below ten, stops at 2^32 - 11 (`Framing.FramingRoundTrip`).
- A refused bind removes the session from the server's set, but its read loop goes on, so a later bind on the
  same connection can still succeed (`Sessions.AuthenticationTrace` covers it).
- Removing a qwen session twice takes the active counter below the number of sessions
  (`SessionAccounts.DoubleRemoval`).
- `emplace` in the gateway does not overwrite, so of two producers using one sequence number at a time the
  second gets no reply (`Gateway.CollisionDropsReply`). A reply that overtakes the stashing of its request is
  dropped too, and the entry then blocks its number (`Gateway.EarlyReplyBlocks`).

Uniqueness of sequence numbers rests on fewer than 2^32 being drawn, which is part of the enabling condition
of the steps that draw one. The end-to-end system assumes that no packet is 2^32 bytes or longer, where the
length field would wrap, that the client sends REQUEST packets through `sendRequest` only, and that the server
sends RESPONSE packets only as echoes; packets of every other kind may come from either side at any time, and
oversized ones, write failures and a disconnect are among its steps.

## Model

| member | source | states |
|---|---|---|
| `Bytes.BigEndianRoundTrip` | turbonet_client.cpp:12-19 | `ntohl` after `htonl` is the identity on 32-bit words |
| `Bytes.BigEndianOfParsed` | turbonet_client.cpp:12-19 | and the other way round, on any four bytes |
| `Bytes.BigEndianPlaces` | turbonet_client.cpp:12-19 | the highest byte comes first on the wire |
| `Bytes.CounterLaw` | claude/asio_client.cpp:626-628 | a sequence counter starts at 1, goes up by one and comes back to 0 behind 2^32 - 1 |
| `Packets.HeaderRoundTrip` | claude/asio_client.cpp:23-46 | a header in network byte order parses back to itself, padding included |
| `Packets.HeaderRoundTripBytes` | claude/asio_client.cpp:23-46 | any twelve bytes are the serialization of the header they parse to |
| `Packets.CreatedIsHonestIffNoWrap` | claude/asio_client.cpp:53-62 | the length field states the size exactly when header and payload stay below 2^32 bytes |
| `Packets.FrameLayout` | claude/asio_client.cpp:53-86 | the wire format of a created packet, field by field: length at 0, packet id at 4, status at 5, sequence at 8, payload at 12 |
| `Decoder.PacketReader.HeaderComplete` | claude/asio_client.cpp:360-392 | the branch on a complete header: refuse the length, start a payload, or dispatch an empty packet with the payload left over |
| `Decoder.PacketReader.FillHeader` | claude/asio_client.cpp:352-358 | a partial read lands behind the header bytes already there |
| `Decoder.PacketReader.OnHeaderRead` | claude/asio_client.cpp:349-403 | a header read of any size up to the rest leaves state and dispatches as byte-by-byte feeding does |
| `Decoder.PacketReader.OnPayloadRead` | claude/asio_client.cpp:406-435 | likewise for payload reads |
| `Decoder.FeedAppend` | claude/asio_server.cpp:627-712 | feeding two stretches of bytes is feeding their concatenation |
| `Decoder.FeedIsOneShot` | claude/asio_client.cpp:349-442 | the read loop dispatches the packets and reaches the state of a parser that has the whole stream |
| `Decoder.ChunksAreOneShot` | claude/asio_server.cpp:627-723 | so does every split of every stream into partial reads |
| `Decoder.StreamRoundTrip` | claude/asio_client.cpp:72-86 | serialized packets come back with exact headers, own payload if nonempty, else the last nonempty one; an oversized packet halts the reader |
| `Decoder.SizeLimit` | claude/asio_client.cpp:362-372 | a packet of up to 16384 bytes in all is dispatched, one byte more ends the connection |
| `Decoder.StalePayload` | claude/asio_client.cpp:384-391 | an empty REQUEST behind a one-byte BIND is dispatched with that byte |
| `Decoder.PartialStream` | claude/asio_server.cpp:627-712 | whatever part of a stream has arrived, a prefix of the deliveries has happened |
| `Decoder.DeliveredAt` | claude/asio_server.cpp:714-723 | delivery number i has header i and the last nonempty payload up to i |
| `Decoder.LastPayloadEmpty` | claude/asio_server.cpp:662-670 | nothing is carried over exactly when no payload was seen at all |
| `WritePump.WriteQueue.SendPacket` | claude/asio_client.cpp:184-191 | posting a frame |
| `WritePump.WriteQueue.RunNext` | claude/asio_client.cpp:184-191 | the posted closure queues its frame and starts a write exactly if the queue was empty |
| `WritePump.WriteQueue.OnWritten` | claude/asio_client.cpp:564-581 | completion pops and goes on; an error leaves the queue as it is |
| `WritePump.StepEmits` | claude/asio_server.cpp:748-765 | a write in progress adds its own bytes to the socket, no other event adds any, and none are added after a failure |
| `WritePump.EmittedIsPrefix` | claude/asio_server.cpp:596-609 | what is in the socket is a prefix of all that was posted, and all of it once the queues are empty |
| `WritePump.PumpLaw` | claude/asio_client.cpp:184-191 | in every run completed frames, queue and posted closures are the posted frames in order, cut where as many writes have completed and closures have run; the socket holds as many bytes as were written, from the front; one write at most is outstanding, and without a failure one is exactly if the queue is nonempty |
| `WritePump.FailureIsForever` | claude/asio_client.cpp:576-579 | after a failed write no later post puts another byte into the socket |
| `Expiry.CollectExpired` | claude/asio_client.cpp:522-526 | the loop collects exactly the expired sequence numbers, in map order |
| `Expiry.EraseExpired` | claude/asio_client.cpp:529-531 | the loop erases exactly those |
| `Requests.TcpClient.GetNextSequence` | claude/asio_client.cpp:626-628 | the counter starts at 1 and wraps at 2^32 |
| `Requests.TcpClient.SetConnected` | claude/asio_client.cpp:294-321 | connecting clears the flag and leaves the pending requests; success sets it |
| `Requests.TcpClient.RegisterRequest` | claude/asio_client.cpp:252-255 | the request becomes pending |
| `Requests.TcpClient.CancelRequest` | claude/asio_client.cpp:264-267 | the request leaves the map and says whether it was there |
| `Requests.TcpClient.CheckTimeouts` | claude/asio_client.cpp:513-541 | exactly the expired requests leave the map and are reported, each once |
| `Requests.TcpClient.ProcessPacket` | claude/asio_client.cpp:438-468 | a RESPONSE for a pending request answers it; nothing else changes the map |
| `Requests.TcpClient.HandleDisconnect` | claude/asio_client.cpp:593-607 | all pending requests are dropped, once |
| `Requests.OutcomeHasItsCause` | claude/asio_client.cpp:197-267 | an outcome is recorded exactly when its event happens to a request it can happen to |
| `Requests.StepKeeps` | claude/asio_client.cpp:223-267 | every step keeps each issued request in exactly one class and the log growing at its end |
| `Requests.DataOf` | claude/asio_client.cpp:223-234 | the data under a number is that of the `sendRequest` call that drew it |
| `Requests.PendingIffRegistered` | claude/asio_client.cpp:252-267 | a request is pending if and only if some event registered it and no cancel, sweep, RESPONSE or disconnect took it out since; it expires as that event says |
| `Requests.BatchLaw` | claude/asio_client.cpp:522-541 | a sweep or a disconnect ends its requests in the order in which it lists them |
| `Requests.SingleOutcome` | claude/asio_client.cpp:451-468 | over every run each issued request is in exactly one class, and what ended it is recorded once and never changes |
| `Requests.PromiseSetOnce` | claude/asio_client.cpp:197-220 | an answered request has no other outcome and is not pending, so the promise is set at most once |
| `Links.GotIsPrefix` | claude/asio_server.cpp:596-765 | pump, socket and reader composed: the far end has dispatched a prefix of what the sent packets deliver |
| `Links.DrainedGotAll` | claude/asio_server.cpp:596-765 | once drained, every packet within the limit has been dispatched |
| `EndToEnd.RepliesEcho` | claude/asio_server.cpp:726-745 | the server answers each REQUEST with one RESPONSE of the same sequence number and payload, in order, and nothing else with a RESPONSE |
| `EndToEnd.RepliesBind` | claude/asio_server.cpp:726-745 | every BIND gets one BIND_RESP of its sequence number with the server's identifier, all replies have status 0, and there are no others |
| `EndToEnd.PayloadsFit` | claude/asio_server.cpp:643-656 | dispatched payloads fit the buffer, so echoing never wraps the length field |
| `EndToEnd.NextKeeps` | claude/asio_client.cpp:349-468 | every step of client, server and socket keeps the system invariant |
| `EndToEnd.DataOf` | claude/asio_client.cpp:223-234 | the data of a request is the payload of the call that drew its number, for good |
| `EndToEnd.SentUpLaw` | claude/asio_client.cpp:176-191 | what the client hands to its write queue is what its callers submit while it is connected, in order, each request with its own data |
| `EndToEnd.SentDownLaw` | claude/asio_server.cpp:726-745 | the server posts one packet for each BIND and REQUEST it dispatches and what it sends on its own, nothing else |
| `EndToEnd.AnswerProvenance` | claude/asio_client.cpp:451-468 | every recorded answer is traced to one request packet of the client and one response packet of the server |
| `EndToEnd.EndToEndIntegrity` | claude/asio_client.cpp:223-261 | in every interleaving the callback for s gets a RESPONSE for s, once at most, with the data given to the very call of `sendRequest` that drew s if that is nonempty; for empty data exactly when nothing nonempty was sent before either way |
| `EndToEnd.EveryRequestEchoed` | claude/asio_server.cpp:739-744 | once both directions have drained, every request sent has come back: with the data given to the call that drew its number if nonempty, and with an empty payload exactly if nothing nonempty was sent before either way |
| `EndToEnd.ResponsesInRequestOrder` | claude/asio_client.cpp:564-581 | responses are dispatched in the order in which the requests were submitted, no request is sent twice, and after draining none is missing |
| `EndToEnd.OneResponse` | claude/asio_server.cpp:739-744 | the client never dispatches two responses with one sequence number |
| `EndToEnd.AnsweredExactly` | claude/asio_client.cpp:451-468 | in every interleaving a request is answered if and only if a response for it has been dispatched and none found it missing from the map |
| `EndToEnd.NoAnswerLost` | claude/asio_client.cpp:233-255 | after draining, a request that was sent is answered if and only if its response did not miss it, and for one still pending the response was dispatched between its sending and its registration |
| `EndToEnd.DrainProgress` | claude/asio_client.cpp:564-581 | without a failed write or an oversized packet, as long as something is under way a write or read that gets something done is possible |
| `EndToEnd.DrainCompletes` | claude/asio_client.cpp:349-581 | and under every scheduler such steps come to an end within a bounded number, with both directions drained |
| `EndToEnd.EarlyResponseIsReachable` | claude/asio_client.cpp:233-255 | for any nonempty data within the size limit, a run that ends drained with the request pending and nothing ever answered |
| `ServerTimeouts.TcpServer.RegisterRequest` | claude/asio_server.cpp:288-307 | the first locked block of `sendRequest` |
| `ServerTimeouts.TcpServer.ScheduleCheck` | claude/asio_server.cpp:310-320 | the timer is armed exactly if the flag is clear |
| `ServerTimeouts.TcpServer.CheckTimeouts` | claude/asio_server.cpp:326-370 | exactly the expired requests are reported and erased, and the timer is re-armed exactly if some remain |
| `ServerTimeouts.TcpServer.ClearFlag` | claude/asio_server.cpp:371-374 | the flag reset in its own lock scope |
| `ServerTimeouts.TcpServer.SettleRequest` | claude/asio_server.cpp:378-401 | cancel and response both erase the request |
| `ServerTimeouts.PendingIffRegistered` | claude/asio_server.cpp:288-401 | a request is pending if and only if some event registered it and no cancel, response or sweep that reports it came since; it expires its timeout after that event |
| `ServerTimeouts.SettledIsNotReported` | claude/asio_server.cpp:378-401 | an answered or cancelled request is not reported until it is registered again |
| `ServerTimeouts.ReportLaw` | claude/asio_server.cpp:334-360 | the reports are those of the sweeps, in order, each with the times of the events that registered, expired and reported it |
| `ServerTimeouts.TimerLaw` | claude/asio_server.cpp:310-370 | an armed timer was set exactly 100 ms ahead, by a caller or by the last sweep |
| `ServerTimeouts.BoundedLatency` | claude/asio_server.cpp:299-375 | no request is ever reported before its expiry; unless the clock passes a pending request that is due with no timer set, each report comes at most 100 ms after the request was due and nothing pending is overdue; runs without the losing step are among those, and there pending requests mean a timer due within 100 ms |
| `ServerTimeouts.ReportedInTime` | claude/asio_server.cpp:288-363 | after any history, racing or not, a request neither answered nor cancelled has been reported between its expiry and 100 ms after it was due, once the clock is past that, if and only if the clock did not pass the due time with no timer set; so it has if no caller lost the timer while it was pending |
| `ServerTimeouts.TimerIffNoRace` | claude/asio_server.cpp:310-374 | in every run pending requests always have their timer, once their callers have returned, if and only if the last caller under way never tests the flag in the gap with something pending |
| `ServerTimeouts.RaceBreaksBound` | claude/asio_server.cpp:361-374 | from a losing step, in whatever run, the flag reset and the passing of time alone leave every pending request behind, past its limit |
| `ServerTimeouts.OrphanIsNeverReported` | claude/asio_server.cpp:361-374 | without a timer nothing is reported however late it gets, until another request is sent |
| `ServerTimeouts.RaceIsReachable` | claude/asio_server.cpp:310-374 | a run of seven steps that ends there |
| `ThreadPool.Workers.TryEnqueue` | claude/server.cpp:58-67 | a task is accepted with one notification, or refused once stopped |
| `ThreadPool.Workers.HoldMutex` | claude/server.cpp:39-50 | a worker under the mutex sleeps, returns, or takes the oldest task |
| `ThreadPool.Workers.TaskReturns` | claude/server.cpp:51-52 | the worker goes back to the mutex |
| `ThreadPool.Workers.SetStop` | claude/server.cpp:70-73 | the stop flag |
| `ThreadPool.Workers.NotifyAll` | claude/server.cpp:74 | every sleeper wakes |
| `ThreadPool.Progress` | claude/server.cpp:39-67 | a queued task means an awake or running worker or an undelivered notify, and while a worker sleeps every queued task has a wake-up of its own under way |
| `ThreadPool.NobodySleepsAfterNotifyAll` | claude/server.cpp:69-74 | after `notify_all` no worker is or falls asleep |
| `ThreadPool.StoppedStepDecreases` | claude/server.cpp:36-52 | after the stop flag every step but a refused call decreases a measure of tasks, wake-ups and workers |
| `ThreadPool.ShutdownCompletes` | claude/server.cpp:69-78 | under every scheduler the workers take a bounded number of steps, and when none is left all have returned and every task offered ahead of the stop flag has run exactly once |
| `ThreadPool.ExactlyOnce` | claude/server.cpp:36-67 | the tasks taken and the queue behind them are the tasks offered ahead of the stop flag, in that order, and those are the finished, running and queued ones; with a worker, all returned means each has run once |
| `ThreadPool.NoWorkers` | claude/server.cpp:33-34 | without a worker an accepted task is never run |
| `ResponseIndex.ResponseTimers.PushRequest` | turbonet_client.cpp:240-247 | counter, map and queue of a new request |
| `ResponseIndex.ResponseTimers.ArmSweep` | turbonet_client.cpp:248-251 | its timer, set outside the mutex |
| `ResponseIndex.ResponseTimers.CancelResponseTimer` | turbonet_client.cpp:254-257 | the map entry goes, the queue entry stays |
| `ResponseIndex.ResponseTimers.PopDue` | turbonet_client.cpp:265-269 | the pop loop fires exactly what a scan of the deadlines selects, once each, by nondecreasing deadline, and leaves the map and queue of that scan, whatever the heap does with ties |
| `ResponseIndex.ResponseTimers.CheckAndFire` | turbonet_client.cpp:259-273 | the sweep up to its second locked block |
| `ResponseIndex.ResponseTimers.LookAtTop` | turbonet_client.cpp:274-279 | the locked look at the queue: the earliest deadline, or a day ahead |
| `ResponseIndex.ResponseTimers.SetSweep` | turbonet_client.cpp:280-283 | the timer, set outside the mutex |
| `ResponseIndex.PoppedIsScan` | turbonet_client.cpp:265-269 | with nothing due left, what was popped is what the scan selects |
| `ResponseIndex.SweepSafety` | turbonet_client.cpp:240-273 | in every run live requests are queued, none fires before its deadline and none twice, and the handlers are called by nondecreasing deadline, within a sweep and from one to the next |
| `ResponseIndex.LiveIffStarted` | turbonet_client.cpp:240-273 | a request is live if and only if some event started it, with timeouts on, and no cancel or sweep that fires it came since; it is due one timeout after that event |
| `ResponseIndex.FiredLaw` | turbonet_client.cpp:271-273 | the handler calls are those of the sweeps, in the order of `expired`, each with the times of the events that started and fired it |
| `ResponseIndex.ResetToEarliest` | turbonet_client.cpp:274-283 | a sweep that found the queue nonempty leaves the timer at the earliest deadline queued, one that found it empty a day after it began |
| `ResponseIndex.SweepArming` | turbonet_client.cpp:274-283 | in every run the timer stands at the deadline of a queued entry, whenever no handler or caller is half way, if and only if no `expires_at` overrides a request that came after the handler had found the queue empty |
| `ResponseIndex.LossNeedsLateSend` | turbonet_client.cpp:274-283 | without a send between the empty look and the setting of the timer nothing is lost |
| `ResponseIndex.LossIsReachable` | turbonet_client.cpp:274-283 | a run that leaves a request due at 20 with the timer a day ahead |
| `ResponseIndex.Quiescent` | turbonet_client.cpp:242-283 | after any history, once the last request is sent, the clock has passed the last queued deadline and no sweep is due: every request was fired or cancelled and none is left if and only if the sweep was not lost after that request; if it was, everything not cancelled still waits |
| `ResponseIndex.FiringTime` | turbonet_client.cpp:248-251 | with timely ticks, from the start or any later send that sets the timer until a sweep is lost, a request due one timeout after its own send fires exactly one timeout after the last send that set the timer; so at its own deadline if and only if every send in between came at the same time as its own |
| `ResponseIndex.LateFiringIsReachable` | turbonet_client.cpp:248-251 | a request due at 10 that fires at 15 |
| `Gateway.PendingMap.ForwardRequest` | gateway.cpp:63-65 | a request goes down under a fresh sequence number |
| `Gateway.PendingMap.StashRequest` | gateway.cpp:66-70 | the entry is stored exactly if its upstream number is free |
| `Gateway.PendingMap.OnDownstreamReply` | gateway.cpp:31-51 | the scan, in whatever order, finds the one entry of that number, relays it and erases it |
| `Gateway.UniqueHolder` | gateway.cpp:36-43 | whichever matching entry the scan meets, the outcome is the same |
| `Gateway.NeverMisroutes` | gateway.cpp:30-71 | in every run a relayed reply goes to the producer and sequence number of the upstream request that drew its downstream number, at most once |
| `Gateway.OriginOf` | gateway.cpp:63-69 | a downstream number keeps the producer and upstream number of the request that drew it |
| `Gateway.InHandIff` | gateway.cpp:63-70 | a request is in the hands of its handler exactly between its downstream send and its stash |
| `Gateway.HeldIffStored` | gateway.cpp:35-70 | an entry is in the map exactly if it was stored, when nothing held its upstream number, and not replied to since |
| `Gateway.DeliveryLaw` | gateway.cpp:35-50 | a reply is relayed if and only if its entry was stored before and not used up, and then to the producer and number of the request that drew it |
| `Gateway.RelayLaw` | gateway.cpp:30-71 | over a whole run a downstream number stored and then replied to is relayed exactly once, however many replies came, to the producer and number of the request that drew it; any other is never relayed |
| `Gateway.EveryStashedReplyRelayed` | gateway.cpp:30-71 | if no producer uses a sequence number again before it has been answered, each request stashed before a reply to it is answered exactly once |
| `Gateway.CollisionDropsReply` | gateway.cpp:69 | of two producers using one sequence number at once the second gets no reply |
| `Gateway.EarlyReplyBlocks` | gateway.cpp:63-70 | a reply between the downstream send and the stash is dropped, and the entry then blocks its upstream number |
| `Framing.BuildFrame` | turbonet_client.cpp:94-107 | the buffer filled piece by piece is the encoded frame |
| `Framing.FrameLayout` | turbonet_client.cpp:94-107 | the wire format of a frame: length at 0, packet id at 4, status at 5, sequence at 6, body at 10 |
| `Framing.ShortLength` | turbonet_client.cpp:147-157 | on a length field below ten the client goes on with the next header, the server waits for nearly 2^32 bytes |
| `Framing.ParseSize` | turbonet_client.cpp:147-181 | no reader makes more out of a stream than it holds |
| `Framing.FramingRoundTrip` | turbonet_server.cpp:31-51 | concatenated frames are read back with nothing left over if and only if every body is below 2^32 bytes (server) or 2^32 - 10 (client) |
| `Framing.ClientReader.OnReadHeader` | turbonet_client.cpp:147-157 | the header fields kept and the body length asked for, or another header |
| `Framing.ClientReader.OnReadBody` | turbonet_client.cpp:167-181 | the packet handed over |
| `Framing.ClientReader.ReadLoop` | turbonet_client.cpp:139-181 | over any stream the handler gets the parsed packets |
| `Sessions.ServerSession.OnReadHeader` | turbonet_server.cpp:31-39 | the body length in 32-bit arithmetic |
| `Sessions.ServerSession.OnReadBody` | turbonet_server.cpp:50-95 | bind, refusal, forwarding or nothing |
| `Sessions.ServerSession.ReadLoop` | turbonet_server.cpp:23-95 | over any stream the session handles the parsed messages in order |
| `Sessions.AuthenticationTrace` | turbonet_server.cpp:50-95 | the application gets exactly the messages behind the first accepted bind; one response, packet 0x81 with status 0 and the server's identifier under its sequence number, exactly if there is one; one removal for every bind ahead of it |
| `Smpp.NullUnreachable` | new_chatgpt/main.cpp:178-200 | behind the header check `deserialize` never returns null, for any bytes |
| `Smpp.PduLayout` | new_chatgpt/main.cpp:43-51 | the wire format of a PDU: command_length, command_id, command_status, sequence_number, body |
| `Smpp.BadLengthCloses` | new_chatgpt/main.cpp:178-183 | a length field below 16 or above 8192 closes the session |
| `Smpp.SmppRoundTrip` | new_chatgpt/main.cpp:44-65 | a list of PDUs is recovered from its stream if and only if every PDU states its own size within the limit |
| `Smpp.DispatchLaw` | new_chatgpt/main.cpp:156-209 | however sends, timeouts and PDUs mix, call number k is the k-th event that is not a send, and a PDU is a response if and only if some earlier send drew its number and no timeout or PDU for it came in between |
| `Smpp.PendingIffAwaited` | new_chatgpt/main.cpp:156-205 | a number is in the timer map exactly if some send drew it and no timeout or PDU for it came since |
| `Smpp.ResponseOnce` | new_chatgpt/main.cpp:201-205 | with at most 2^32 PDUs sent, no number gets two responses |
| `Smpp.ReadingContinues` | new_chatgpt/main.cpp:185-209 | what the read loop dispatches continues the run that the law is about |
| `Smpp.SmppSession.SendPdu` | new_chatgpt/main.cpp:156-163 | a new number is awaited |
| `Smpp.SmppSession.OnTimeout` | new_chatgpt/main.cpp:162 | the number is no longer awaited and the timeout is reported, whether it was or not |
| `Smpp.SmppSession.ReadPdu` | new_chatgpt/main.cpp:169-209 | one turn of the read loop |
| `Smpp.SmppSession.OnHeader` | new_chatgpt/main.cpp:169-183 | the header check, from an empty stream buffer |
| `Smpp.SmppSession.OnBody` | new_chatgpt/main.cpp:185-209 | one PDU is dispatched and the stream buffer is empty again |
| `Smpp.SmppSession.ReadLoop` | new_chatgpt/main.cpp:169-209 | over any stream the session dispatches the parsed PDUs, with an empty stream buffer at every header |
| `SessionAccounts.Registry.AcceptSession` | qwen/server.cpp:390-419 | a new session enters all three maps |
| `SessionAccounts.Registry.RemoveSession` | qwen/server.cpp:344-366 | removal, counted even if the id is absent |
| `SessionAccounts.Registry.CheckExpired` | qwen/server.cpp:431-448 | exactly the idle sessions are closed, each once |
| `SessionAccounts.Registry.WalkSessions` | qwen/server.cpp:434-447 | the loop that erases from the map it walks over |
| `SessionAccounts.Conservation` | qwen/server.cpp:344-448 | in every run the maps agree, sessions minus counter is the number of absent removals, the total is the sum over closed sessions, and every session accepted is registered or was closed once |
| `SessionAccounts.RegisteredIffAccepted` | qwen/server.cpp:336-419 | a session is registered if and only if some event accepted it and no removal or expiry came since; its start is the time of that event, its last activity that of its last touch |
| `SessionAccounts.ClosingIsRecorded` | qwen/server.cpp:344-366 | every closing adds the time between its session's acceptance and the closing |
| `SessionAccounts.RecordedWasClosed` | qwen/server.cpp:344-366 | and nothing else does |
| `SessionAccounts.ExpiryLaw` | qwen/server.cpp:431-448 | an expiry check closes exactly the open sessions idle for longer than the limit |
| `SessionAccounts.CounterExact` | qwen/server.cpp:365 | the counter lags the number of sessions by the removals of sessions not open, so it is right exactly without one |
| `SessionAccounts.DoubleRemoval` | qwen/server.cpp:344-366 | a double removal leaves the counter at -1 |
| `Broadcasts.PendingRequests.StartTimer` | qwen/server.cpp:282-299 | the number, and the timer exactly if there is a callback and an expected type |
| `Broadcasts.UntrackedNeverSettles` | qwen/server.cpp:284 | a request without callback or expected type is never pending and nothing ever settles it |
| `Broadcasts.PendingRequests.Track` | qwen/server.cpp:301-302 | the locked insert |
| `Broadcasts.PendingRequests.HandleResponse` | qwen/server.cpp:323-334 | any response removes the entry; the callback runs only on the expected type |
| `Broadcasts.PendingRequests.OnTimer` | qwen/server.cpp:289-299 | a timeout removes the entry if it is still there |
| `Broadcasts.PendingIffRegistered` | qwen/server.cpp:248-334 | an entry is pending exactly if some event inserted it and no response or timeout for it came after that |
| `Broadcasts.ExpectedLaw` | qwen/server.cpp:276-302 | the type expected under a number is that of the call that drew it |
| `Broadcasts.FirstEventSettles` | qwen/server.cpp:248-334 | however many sessions answer and however timer and responses race, the first event for a registered request settles it, against the type given to the call that drew its number, and no other does |

## Left out

- Asio, sockets, resolvers, epoll, thread creation, destructors around them: foreign calls; only completion, failure and tick steps are modelled.
- Reconnection in the end-to-end system: `Requests` allows it, `EndToEnd` is about one connection.
- Real clocks: no time passes inside `startResponseTimer`, so its two clock reads agree, and none inside `sendRequest` of the claude server between its two locked blocks.
- `main` functions, console commands, logging and callback bodies, among them the server loop that broadcasts RESPONSE packets under server sequence numbers: they are outside the assumption that only the echo sends a RESPONSE.
- The claude client's own timeout cadence: every send re-arms it, so it has no latency bound; the server's is proved instead.
- The turbonet client's `txBuffer_`: bytes appended during a write are cleared on completion, so frames are not conserved; conservation is proved on the claude write queues.
- The lifetime of the buffer in the turbonet server's `send`: below the level of the model.
- The qwen byte stream: `send_packet` emits four bytes more than its length field states; the qwen server is modelled at packet level.
- A wait of the turbonet sweep timer that has completed but not run when the timer is set again: setting it is taken to replace the wait.
- SMPP `send_batch`, the bind PDU constructors and the length of `send_pdu` timeouts: host-order headers, unset lengths, and timers that the model lets fire at any moment.
- The gateway's direct echo of packets other than requests, client information, statistics averages, setters and connection counts: easy members.
