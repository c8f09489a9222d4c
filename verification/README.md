# A verified model of the agent runtime's transport, option maps and provider coordination

This project models three parts of the repository and proves what they are for.

* **The RPC transport** (`packages/rpc/src`). Byte streams are cut back into frames (`ChunkStreams`, `Frames`). On top
  of them a persistent protocol numbers, acknowledges, bounds and replays messages (`Endpoints`,
  `PersistentProtocols`, `BackPressure`). `Networks` joins two such endpoints by sockets that may break at any byte
  and be replaced at any time, `NetworkSteps` keeps their invariant, `Reconnects` says what follows from it, and
  `Repetitions` exactly when a message is delivered twice. `Serialization` is the binary codec of the messages.
  `Closings` says when a session is closed.
  `Channels`, `ChannelSteps` and `Calls` do the same for the call protocol, `ServerAnswers` counts the answers,
  `Completions` follows a call until it settles, `Cancellations` those given up, and `ChannelEndpoints` holds the two
  classes. `Layers` joins both protocols into one system in which client, server and sockets act in any order, and
  together with `EndToEnd` carries the theorems about calls end to end.
* **The option-map compiler** (`packages/model-option-map/src`). `Numerals`, `Tokenizer`, `Expressions` and `Parsers`
  take an expression from text to tree, `Printing`, `RoundTrip` and `Sources` back and forth, and `Evaluator` runs it.
  What this computes is fixed by rules that are independent of it: `NumeralForms` and `Lexing` for tokens, `Grammar` for
  trees, `Meanings` for values. `MergePatches` and `PatchApplication` apply the resulting JSON merge patches with the
  conflict check, and `OptionMaps` holds the two entry points.
* **Provider coordination** (`packages/provider`, `packages/provider-node`). The two refresh loops (`RefreshWaiters`,
  `RegistryRefresh`, `AccountRefresh`, `RefreshServices`), the release file that several processes share
  (`SharedRelease`), the lease on refreshing it (`RefreshLease`), and the ordering and naming rules (`Orders`,
  `FreshNames`).

Code that changes fields step by step is a class here (`ChunkStream`, `SocketProtocol`, `PersistentProtocol`,
`BufferReader`, `BufferWriter`, `ChannelClient`, `ChannelServer`, `Parser`, `ProviderRegistryService`,
`AccountProviderService`, `ReleaseSource`, `ControlFile`). Each method is proved to take the state of its object
where a function on values takes it, to keep the invariant of the runs, and to give its caller what it promises; the
properties of whole runs are proved about those functions. A run is any sequence of steps: what a timer, a socket, a
promise or another process does next is left open. Where listeners may not interfere is said under "Left out".

## What the proofs brought to light

* The water marks of the persistent protocol mean what they say, over all runs, exactly when the low mark is at most
  the high one or the replay limit is at most the high one. The constructor accepts other options, and then a single
  message saturates a sender that is already below its low mark (`BackPressure.WaterMarksHoldIff`).
* Delivery is at least once and in order, but not always exactly once: a message that was delivered and not yet
  acknowledged is fired again after a reconnect (`Reconnects.ReplayFiresAgain`). A message is fired as often as there
  are connections on which it is read. So delivery is exactly once if and only if no message is read on two
  connections, and always if there is no reconnect. A reconnect that gets through repeats something if and only if the
  sender still queues a message and the first of the queue has been delivered (`Repetitions.FiredAsOftenAsRead`,
  `ExactlyOnceIff`, `ExactlyOnceWithoutReconnect`, `ReconnectRepeatsIff`).
* The server does not compare ids. Once none of its deliveries is held, a request runs more than once if and only if it
  is handed over more than once, which end to end means that its message is read on two connections. The client still
  settles each call once (`Calls.RunsAgainIff`, `Layers.RunsAgainIffReadTwice`, `Layers.CallsEndToEnd`).
* The server sends one answer for every timer that fires and one for every invocation that settles. A request that is
  handed over once is therefore answered twice if and only if it timed out while held and was run later, when its
  channel registered; it is never answered three times. The client ignores the second answer
  (`ServerAnswers.AnswersAreAccounted`, `ServerAnswers.AnsweredTwiceIff`, `Calls.ServerMayAnswerTwice`).
* A cancellation that reaches the server while its request is still held, because the channel is not registered yet,
  has no effect: the request runs once the channel is (`ChannelEndpoints.ChannelServer.OnRawMessage`).
* While the registry has no snapshot, an account overlay based on another Built-in revision ends the round without
  settling its promise, and the service goes idle with the caller still waiting. With a snapshot, or with matching
  revisions, nobody is left behind (`RegistryRefresh.RoundSettlesIff`, `RegistryRefresh.FirstMismatchLeavesWaiterBehind`).
* In the account service an error listener that throws leaves the promises of the failing round unsettled, because the
  listeners run before the waiters are rejected (`AccountRefresh.FailedRoundAnswersIff`,
  `AccountRefresh.ThrowingListenerLeavesWaiterBehind`). The registry rejects its waiters in the same situation.
* The parser compares the text of a token but not its kind. A string literal that reads `]` therefore closes an array
  directly after the opening bracket, which the printer avoids with parentheses, and no text whatever yields an object
  whose first key is `}`. Apart from legal operators, distinct keys and safe numbers that is the only restriction on
  the trees that can be written (`Sources.SourceExistsIff`, `Sources.StringClosesArray`).

## Model

| member | source | states |
|---|---|---|
| Buffers.OrOfDisjoint | packages/rpc/src/buffer.ts:72-80 | or-ing digits that do not overlap is adding them, for any width |
| Buffers.OrIsPositional | packages/rpc/src/buffer.ts:72-80 | four bytes shifted and or-ed, with the signed 32-bit results of JavaScript's `<<` and or and the final `>>> 0`, are the big-endian number |
| Buffers.ReadUInt32BE | packages/rpc/src/buffer.ts:72-80 | the shifts and ors compute the big-endian number at the offset |
| Buffers.UInt32RoundTrip | packages/rpc/src/buffer.ts:72-87 | reading a written field gives the low 32 bits of the value, wherever it stands in the buffer |
| Buffers.WriteUInt32BE | packages/rpc/src/buffer.ts:82-87 | the four bytes are replaced in place and nothing else |
| Buffers.Set | packages/rpc/src/buffer.ts:59-62 | copies the source at the offset and leaves the rest |
| Buffers.Concat | packages/rpc/src/buffer.ts:36-45 | the copied result is the concatenation of all buffers |
| ChunkStreams.ChunkStream.constructor | packages/rpc/src/protocol.ts:85-87 | a new stream holds nothing |
| ChunkStreams.ChunkStream.AcceptChunk | packages/rpc/src/protocol.ts:93-104 | appends to the plain byte queue, and totalLength stays the sum of the chunk lengths |
| ChunkStreams.ChunkStream.Peek | packages/rpc/src/protocol.ts:106-130 | the first n bytes of the queue, none exactly when there are fewer; nothing changes |
| ChunkStreams.ChunkStream.Read | packages/rpc/src/protocol.ts:140-176 | takes exactly the first n bytes off, or leaves the stream alone when there are fewer |
| ChunkStreams.ChunkStream.ReadAcross | packages/rpc/src/protocol.ts:159-175 | the loop that joins chunks and splits the last one takes exactly the first n bytes |
| ChunkStreams.ChunkStream.Skip | packages/rpc/src/protocol.ts:132-138 | drops n bytes, fails exactly when there are fewer |
| Frames.WriteProtocolMessage | packages/rpc/src/protocol.ts:222-230 | the buffer is the 13-byte header followed by the body |
| Frames.HeaderFields | packages/rpc/src/protocol.ts:222-230 | the layout on the wire: type, id, acknowledgement and length stand at bytes 0, 1, 5 and 9, the numbers modulo 2^32 |
| Frames.PayloadsAre | packages/rpc/src/protocol.ts:278-291 | a frame of type 1 hands its payload over in its place, any other nothing |
| Frames.TakeEncoded | packages/rpc/src/protocol.ts:222-291 | a written frame followed by anything is read back, ids and acks modulo 2^32, leaving exactly what follows |
| Frames.TakeCutShort | packages/rpc/src/protocol.ts:260-277 | a frame cut at any byte is never taken |
| Frames.SplitAppend | packages/rpc/src/protocol.ts:243-297 | parsing bytes in two arrivals is parsing them at once, for all bytes, well formed or not |
| Frames.FeedAllIsOneSplit | packages/rpc/src/protocol.ts:243-297 | any sequence of chunks leaves the receiver as if the bytes had come in one piece |
| Frames.SplitOfPrefix | packages/rpc/src/protocol.ts:260-297 | a byte prefix of a frame list yields the frames wholly inside it and holds back the rest |
| Frames.WholeFramesAreInside | packages/rpc/src/protocol.ts:272-277 | a frame is counted as arrived if and only if its last byte is inside the prefix |
| Frames.FramingIsChunkingIndependent | packages/rpc/src/protocol.ts:236-297 | for any frames, any byte prefix of them and any chunks of that prefix, exactly the Regular payloads of the frames wholly inside are fired, in order |
| Frames.NextFrame | packages/rpc/src/protocol.ts:260-291 | one turn of the read loop takes the frame at the front of the stream, or changes nothing when it is incomplete |
| Frames.SocketProtocol.Send | packages/rpc/src/protocol.ts:252-258 | one Regular frame with id and ack zero is appended to the socket |
| Frames.SocketProtocol.OnData | packages/rpc/src/protocol.ts:243-250 | a chunk has the effect that the chunking theorem is about |
| Frames.SocketProtocol.ReadMessages | packages/rpc/src/protocol.ts:260-297 | drains every complete frame and fires the Regular ones |
| PersistentProtocols.PersistentProtocol.constructor | packages/rpc/src/persistent-protocol.ts:91-101 | the options with their defaults, 1 MiB, a quarter of the high mark, 8 MiB and 45 s; starts with an empty queue, no acknowledgement and no congestion, which keeps the accounting |
| PersistentProtocols.PersistentProtocol.WriteMessage | packages/rpc/src/persistent-protocol.ts:162-164 | appends the encoded frame to the present socket |
| PersistentProtocols.PersistentProtocol.Send | packages/rpc/src/persistent-protocol.ts:123-143 | keeps the accounting; the message takes the next id and the held acknowledgement, is written and joins the end of the queue; the session is abandoned if and only if it was before or the queued bytes exceed the replay limit, the sender saturated if and only if it was before or they are above the high mark and within that limit, and exactly these two events are fired |
| PersistentProtocols.PersistentProtocol.ReplaceSocket | packages/rpc/src/persistent-protocol.ts:149-160 | keeps the accounting, the queue, the acknowledgements and the flags and fires nothing; forgets the partial input and writes exactly the unacknowledged frames to the new socket, in order |
| PersistentProtocols.PersistentProtocol.OnData | packages/rpc/src/persistent-protocol.ts:108-114 | keeps the accounting; a chunk joins the held bytes and every complete frame is processed, without ever abandoning the session |
| PersistentProtocols.PersistentProtocol.ReadMessages | packages/rpc/src/persistent-protocol.ts:166-221 | keeps the accounting; the loop processes every complete frame, acknowledgement first, and keeps the incomplete rest |
| PersistentProtocols.PersistentProtocol.ProcessAck | packages/rpc/src/persistent-protocol.ts:224-234 | from a consistent state exactly the acknowledged messages leave the queue, and the accounting is kept; saturation ends, with one drained event, exactly when the queued bytes come down to the low mark |
| PersistentProtocols.PersistentProtocol.AbandonSession | packages/rpc/src/persistent-protocol.ts:240-249 | one Disconnect frame carrying the acknowledgement and one close event, the first time only |
| PersistentProtocols.PersistentProtocol.KeepAliveTick | packages/rpc/src/persistent-protocol.ts:251-262 | one KeepAlive frame with the current acknowledgement |
| PersistentProtocols.PersistentProtocol.AckCheckTick | packages/rpc/src/persistent-protocol.ts:264-275 | keeps the accounting and the queue; the session is abandoned if and only if it was before or the oldest queued message is older than the grace time, and the socket is reported silent if and only if something is queued and the last acknowledgement is more than 20000 ms ago |
| BackPressure.AckClearsExactly | packages/rpc/src/persistent-protocol.ts:224-228 | an acknowledgement clears exactly the queued messages it covers |
| BackPressure.SendIsSound | packages/rpc/src/persistent-protocol.ts:123-143 | sending keeps the accounting of queue, bytes, marks and notifications |
| BackPressure.AckIsSound | packages/rpc/src/persistent-protocol.ts:224-234 | processing any acknowledgement number whatever keeps the accounting |
| BackPressure.DeliverIsSound | packages/rpc/src/persistent-protocol.ts:203-219 | so does handing any frame over, after whatever listeners did in between |
| BackPressure.ReceiveIsSound | packages/rpc/src/persistent-protocol.ts:200-219 | so does receiving any frame whatever, with any acknowledgement number |
| BackPressure.ApplyIsSound | packages/rpc/src/persistent-protocol.ts:123-275 | every operation keeps the accounting and writes a Disconnect exactly when it is the one that abandons |
| BackPressure.EveryRunIsSound | packages/rpc/src/persistent-protocol.ts:123-249 | over every run, listeners acting in the middle of a frame included, the queue holds consecutive ids ending at the last sent one, unackBytes is their exact sum and within the replay limit unless abandoned, saturated and drained strictly alternate, and at most one Disconnect is ever written |
| BackPressure.AbandonedIffCaused | packages/rpc/src/persistent-protocol.ts:123-143 | over every run the session is abandoned, and its one Disconnect written, if and only if some send took the queued bytes above the replay limit or some timer found the oldest queued message older than the grace time |
| BackPressure.SaturatesIff | packages/rpc/src/persistent-protocol.ts:123-143 | an operation leaves the sender saturated exactly if it was and no acknowledgement brought the bytes down to the low mark, or if it is a send that lifts them above the high mark and not above the replay limit |
| BackPressure.SilenceIsReportedIff | packages/rpc/src/persistent-protocol.ts:264-269 | over every run the timer reports a silent socket if and only if something is queued and the last acknowledgement number, or the start, is more than 20000 ms back |
| Closings.ClosedIff | packages/rpc/src/persistent-protocol.ts:200-249 | over every run of both endpoints, sockets replaced at any time, each side has fired Closed once if it abandoned the session itself and once if it was handed the Disconnect of its peer, which is never written twice or without cause |
| BackPressure.WaterMarksHoldIff | packages/rpc/src/persistent-protocol.ts:91-96 | saturated implies above the low mark, and neither saturated nor abandoned implies at most the high mark, over all runs if and only if the options are in order |
| BackPressure.MarksHoldByDefault | packages/rpc/src/persistent-protocol.ts:91-96 | with the default low mark, whatever the other options, they hold over all runs |
| NetworkSteps.NextFrameIsTaken | packages/rpc/src/persistent-protocol.ts:166-198 | the next complete frame a reader takes off its partial input is the next one written on that connection |
| NetworkSteps.EveryRunIsOk | packages/rpc/src/persistent-protocol.ts:108-275 | the invariant of two endpoints and all their connections, kept by every step of either side, also between the acknowledgement and the delivery of one frame |
| Reconnects.NoMessageIsLost | packages/rpc/src/persistent-protocol.ts:123-228 | in every run every buffer ever passed to send has been fired at the peer or is still queued with its id and content |
| Reconnects.DeliveriesAreInOrder | packages/rpc/src/persistent-protocol.ts:123-207 | in every run the fired ids are exactly 1 to k, each with the payload sent under it, and first deliveries come in order without gaps |
| Reconnects.AcksAreTruthful | packages/rpc/src/persistent-protocol.ts:200-228 | every acknowledgement held, on any wire or waiting to be replayed covers delivered ids only |
| Reconnects.DataEventIsARun | packages/rpc/src/persistent-protocol.ts:108-114 | what the data listener does with a chunk is a run of the steps the theorems are about |
| Reconnects.QuietConnectionHasDelivered | packages/rpc/src/persistent-protocol.ts:149-207 | once everything written on a shared connection has been read and handed over, everything ever sent has been delivered |
| Reconnects.ReconnectRecovers | packages/rpc/src/persistent-protocol.ts:149-160 | from any reachable state, after one reconnect whose replays get through, everything either side ever sent has been delivered to the other, and what was delivered on the way is exactly the message in hand followed by the sender's queue |
| Reconnects.ReplayFiresAgain | packages/rpc/src/persistent-protocol.ts:149-207 | delivery is not exactly once: for every payload there is a run that fires it twice; the exact condition is in the rows of Repetitions |
| Repetitions.FiredAsOftenAsRead | packages/rpc/src/persistent-protocol.ts:166-207 | over every run a message has been fired as often as there are connections on which it was read, the one in hand counted |
| Repetitions.DeliveredAgainIff | packages/rpc/src/persistent-protocol.ts:149-207 | over every run a message is fired twice if and only if it was read on two connections |
| Repetitions.ExactlyOnceIff | packages/rpc/src/persistent-protocol.ts:149-207 | over every run the messages are fired once each, in order, if and only if none was read on two connections |
| Repetitions.ExactlyOnceWithoutReconnect | packages/rpc/src/persistent-protocol.ts:166-207 | over every run in which no socket is replaced, delivery is exactly once and in order |
| Repetitions.ReconnectRepeatsIff | packages/rpc/src/persistent-protocol.ts:149-160 | from any reachable state, the queue that a reconnect replays holds something already delivered if and only if it is not empty and its first message has been delivered |
| Serialization.ReadVqlReads | packages/rpc/src/serialization.ts:67-76 | the 7-bit groups add up to the written word, whatever follows |
| Serialization.VqlDigits | packages/rpc/src/serialization.ts:84-103 | the bytes are the base-128 digits of the word, least first, with the high bit on all but the last, and no needless zero at the end |
| Serialization.VqlLength | packages/rpc/src/serialization.ts:84-103 | below 2^32 at most five bytes are written |
| Serialization.IntegerRoundTrip | packages/rpc/src/serialization.ts:67-103 | every signed 32-bit integer, negatives included, is read back from its at most five bytes, which are exactly what is consumed |
| Serialization.SizedReadsBack | packages/rpc/src/serialization.ts:152-168 | tag, length and content are recovered exactly |
| Serialization.SerializedReadsBack | packages/rpc/src/serialization.ts:152-218 | any encodable value tree followed by any bytes is read back and leaves exactly those bytes |
| Serialization.MessageReadsBack | packages/rpc/src/serialization.ts:148-218 | a header followed by a body decodes to both |
| Serialization.WireForm | packages/rpc/src/serialization.ts:152-188 | the form on the wire of each kind of value: tag 0 to 6, then length or number in 7-bit groups, then content |
| Serialization.UnknownTagDecodes | packages/rpc/src/serialization.ts:193-218 | at the end of the input and at an unknown tag decoding gives undefined |
| Serialization.CutContentDecodes | packages/rpc/src/serialization.ts:193-218 | content that ends before its announced length decodes to what is there |
| Serialization.BufferReader.ReadBytes | packages/rpc/src/serialization.ts:36-40 | a slice that is short at the end, and the position moves by what was read |
| Serialization.BufferWriter.Write | packages/rpc/src/serialization.ts:54-56 | appends to the written bytes |
| Serialization.BufferWriter.Buffer | packages/rpc/src/serialization.ts:50-52 | everything written, joined |
| Serialization.WriteInt32VQL | packages/rpc/src/serialization.ts:84-103 | the two loops, one counting and one filling, append the 7-bit groups of the unsigned word |
| Serialization.ReadIntVQL | packages/rpc/src/serialization.ts:67-76 | reads a word with 32-bit shifts and its position, also on input that ends early |
| Serialization.Serialize | packages/rpc/src/serialization.ts:152-188 | appends the encoding of the value and nothing else |
| Serialization.SerializeItems | packages/rpc/src/serialization.ts:169-174 | appends the encodings of the items in order |
| Serialization.Deserialize | packages/rpc/src/serialization.ts:193-218 | returns the decoded value and stops where the decoding stops |
| Serialization.DeserializeItems | packages/rpc/src/serialization.ts:205-212 | reads as many items as the length says |
| Calls.CallsSettleOnce | packages/rpc/src/channelClient.ts:60-274 | in every run of client and server, messages repeated in both directions included, a call settles at most once, is pending or settled at all times, and is settled after dispose |
| Calls.AnswersAreGenuine | packages/rpc/src/channelServer.ts:100-253 | over the same runs an answer that settles a call was computed for that same id, channel, method and argument, or is the timeout error naming the channel |
| Calls.DeliveriesRunOnce | packages/rpc/src/channelServer.ts:100-273 | over every run, replays included, no delivery of a request runs twice or is forgotten: it is held or started, not both, an invocation is running or answered, not both, and only what the client called is run |
| Calls.RunsAgainIff | packages/rpc/src/channelServer.ts:100-127 | a request none of whose deliveries is held runs more than once if and only if it is handed over more than once |
| Calls.RequestsRunOnce | packages/rpc/src/channelServer.ts:100-273 | if nothing is replayed to the server every request runs at most once, late registrations included |
| Calls.ReplayedRequestRunsTwice | packages/rpc/src/channelServer.ts:100-123 | for every call there is a run in which a replayed request runs twice |
| Layers.StackIsTwoRuns | packages/rpc/src/persistent-protocol.ts:123-207 | in the joint system of client, server and two persistent protocols, whatever happens to the sockets and whenever anybody acts, the network goes through a run of the persistent protocol and client and server through a run of the call protocol, with the same messages sent and heard |
| Layers.CallsEndToEnd | packages/rpc/src/channelClient.ts:60-274 | over every run of that joint system a call settles at most once, is pending or settled at all times, is settled after dispose, and every answer that settles it is genuine |
| Layers.RunsAgainIffReadTwice | packages/rpc/src/channelServer.ts:68-127 | over every run of the joint system, once its deliveries are no longer held and while the server listens, a request runs more than once if and only if its message was read on two connections |
| EndToEnd.HeardAnswersAreSettled | packages/rpc/src/channelClient.ts:232-240 | over every run of the joint system the call of every answer the client was ever handed, on whatever socket, is settled |
| EndToEnd.AnswerSettlesOnArrival | packages/rpc/src/channelClient.ts:112-121 | over every run of the joint system, an answer handed to a client that is not disposed settles exactly its call by its own content, unless that call has settled before; the call was sent |
| EndToEnd.CaughtUpMeansSettled | packages/rpc/src/persistent-protocol.ts:149-207 | over every run of the joint system, once both connections have delivered what was written and client and server are idle, every call ever made has settled |
| Calls.SilentBeforeInitialize | packages/rpc/src/channelClient.ts:123-127 | until Initialize arrives nothing but cancellations leaves the client |
| Calls.GivenUpIsNeverSent | packages/rpc/src/channelClient.ts:69-74 | a call settled before its request went out is never sent, whatever happens next |
| Calls.RejectedBeforeInitializeIsNeverSent | packages/rpc/src/channelClient.ts:69-139 | a call cancelled or disposed before Initialize is never sent |
| Calls.ServerMayAnswerTwice | packages/rpc/src/channelServer.ts:229-273 | for every call there is a run in which the server sends two answers, and the client settles by the first; the exact condition is in the rows of ServerAnswers |
| Completions.AnswersSettleTheirCalls | packages/rpc/src/channelClient.ts:112-121 | over every run of client and server every answer that was handed over has settled its call, and the next one, handed to a client that is not disposed, settles exactly its call and by its own content, unless that call has settled before |
| Completions.PendingIsSomewhere | packages/rpc/src/channelServer.ts:68-127 | over every run in which the server is not disposed, a pending call waits for Initialize, travels to the server, is held there, runs there, or its answer travels back |
| Completions.HeldIsScheduled | packages/rpc/src/channelServer.ts:229-273 | over every run a request is held only while its channel is unknown or until the flush that is to come |
| Completions.QuietMeansSettled | packages/rpc/src/channelClient.ts:60-274 | once nothing waits, travels, is held or runs, every call ever made has settled |
| Cancellations.CancelledIffAnnounced | packages/rpc/src/channelClient.ts:129-137 | over every run the client announces a cancellation only of a call it rejected as cancelled, and every such rejection of a call that was sent |
| Cancellations.OnlyRunningIsCancelled | packages/rpc/src/channelServer.ts:114-201 | over every run the ids that can be cancelled at the server belong to running invocations |
| Cancellations.RunningCanBeCancelled | packages/rpc/src/channelServer.ts:114-201 | if nothing is replayed to the server and it is not disposed, a running invocation can be cancelled until its cancellation has been announced |
| ServerAnswers.AnswersAreAccounted | packages/rpc/src/channelServer.ts:123-273 | over every run the answers sent are exactly one per timeout and one per settled invocation, and no delivery times out twice or settles twice |
| ServerAnswers.AnsweredTwiceIff | packages/rpc/src/channelServer.ts:229-273 | over every run a request handed over once is answered twice if and only if it timed out and its invocation settled, and never more often |
| ServerAnswers.AtMostTwoAnswersEach | packages/rpc/src/channelServer.ts:123-273 | over every run, replays included, the answers to an id are its timeouts plus its settled invocations, each at most as many as its deliveries |
| ServerAnswers.StartedNeverTimesOut | packages/rpc/src/channelServer.ts:229-273 | no step lets a delivery time out that has started, so a timeout answer precedes the flush of its channel |
| ChannelEndpoints.ChannelClient.RequestPromise | packages/rpc/src/channelClient.ts:54-147 | keeps the invariant of the client; the call takes the next id, is rejected at once exactly if it was cancelled before, sent at once exactly if the client is initialized and it was not, and pending otherwise |
| ChannelEndpoints.ChannelClient.DoRequest | packages/rpc/src/channelClient.ts:69-121 | keeps the invariant, which says that exactly the calls sent and not settled are listened for; the call is sent if and only if it has not been given up meanwhile |
| ChannelEndpoints.ChannelClient.RunDeferred | packages/rpc/src/channelClient.ts:123-127 | keeps the invariant; a continuation released by Initialize sends its call if and only if that has not been given up |
| ChannelEndpoints.ChannelClient.OnCancellationRequested | packages/rpc/src/channelClient.ts:129-137 | keeps the invariant; afterwards the call is settled, by this or before, and no later answer can settle it; a pending call is rejected as cancelled and its cancellation announced, otherwise nothing changes |
| ChannelEndpoints.ChannelClient.OnResponse | packages/rpc/src/channelClient.ts:232-240 | keeps the invariant; an answer settles its call, by its own content, if and only if that was sent and has not settled, and cannot do so twice; Initialize releases all waiting calls, in order |
| ChannelEndpoints.ChannelClient.Dispose | packages/rpc/src/channelClient.ts:249-274 | keeps the invariant; the loop rejects all pending calls in the order of issue, and every call ever made is settled |
| ChannelEndpoints.ChannelServer.OnRawMessage | packages/rpc/src/channelServer.ts:68-98 | keeps the invariant of the server; a request is recorded and from then on held or started, started and made cancellable at once exactly if its channel is registered; a cancellation only takes its id from those that can be cancelled, and what is held stays held; a disposed server changes nothing |
| ChannelEndpoints.ChannelServer.OnTimeout | packages/rpc/src/channelServer.ts:235-250 | keeps the invariant; at most one error goes out, for a held request, the timer is spent, and exactly the same requests stay held |
| ChannelEndpoints.ChannelServer.RegisterChannel | packages/rpc/src/channelServer.ts:38-41 | keeps the invariant; the channel serves from now on, a flush of what is held for it is to come, and nothing else changes |
| ChannelEndpoints.ChannelServer.FlushPendingRequests | packages/rpc/src/channelServer.ts:255-273 | keeps the invariant; the loop starts exactly what is held for the channel, in order, makes it cancellable, and holds none of it any more |
| ChannelEndpoints.ChannelServer.OnSettled | packages/rpc/src/channelServer.ts:125-190 | keeps the invariant; the invocation is answered under the id of its request, even after a cancellation, and leaves the running ones exactly once, and its id those that can be cancelled |
| ChannelEndpoints.ChannelServer.Dispose | packages/rpc/src/channelServer.ts:275-282 | keeps the invariant; the server hears nothing any more, and no cancellation is left to be asked for |
| MergePatches.LeavesArePrefixFree | packages/model-option-map/src/merge-patch.ts:35-57 | the written paths of one patch never overlap one another, so a patch cannot conflict with itself |
| MergePatches.SharedKey | packages/model-option-map/src/merge-patch.ts:51-78 | where two disjoint patches share a key both go deeper and stay disjoint there |
| MergePatches.DisjointPatchesCommute | packages/model-option-map/src/merge-patch.ts:63-78 | disjoint patches commute on every target, for trees of any depth |
| MergePatches.PatchOrderDoesNotMatter | packages/model-option-map/src/merge-patch.ts:13-33 | if the patches do not conflict, every permutation of them is conflict-free and gives the same value |
| MergePatches.LeafIsWritten | packages/model-option-map/src/merge-patch.ts:63-78 | after one patch a scalar or array leaf has its value, a null leaf is absent, an empty-object leaf holds the old object or {} |
| MergePatches.EveryLeafIsWritten | packages/model-option-map/src/merge-patch.ts:13-78 | the same for every leaf of every patch after the whole conflict-free list |
| MergePatches.OtherPathsStay | packages/model-option-map/src/merge-patch.ts:63-78 | a path that overlaps no written path looks up as before |
| MergePatches.OtherPathsStayThroughout | packages/model-option-map/src/merge-patch.ts:13-78 | the same over a whole list of patches |
| MergePatches.MergingIsIdempotent | packages/model-option-map/src/merge-patch.ts:63-78 | applying a patch twice is applying it once |
| MergePatches.ReapplyingChangesNothing | packages/model-option-map/src/merge-patch.ts:13-78 | re-applying any patch of a conflict-free list to the final value changes nothing |
| PatchApplication.CollectWrittenPaths | packages/model-option-map/src/merge-patch.ts:35-49 | collects every leaf path of the patch once and nothing else |
| PatchApplication.PathsOverlap | packages/model-option-map/src/merge-patch.ts:51-57 | true if and only if one path is a prefix of the other |
| PatchApplication.FindOverlap | packages/model-option-map/src/merge-patch.ts:22 | finds an overlapping owned path exactly when there is one |
| PatchApplication.ClaimPaths | packages/model-option-map/src/merge-patch.ts:20-29 | takes ownership of the paths of a patch disjoint from all before it, or reports a genuine conflict with an earlier patch |
| PatchApplication.MergeObject | packages/model-option-map/src/merge-patch.ts:63-78 | the loop over a copy equals MergePatch of section 2 of RFC 7396 |
| PatchApplication.ApplyOrderedJsonMergePatches | packages/model-option-map/src/merge-patch.ts:13-33 | fails if and only if two different patches write overlapping paths, naming both; otherwise the RFC's MergePatch folded in order |
| Numerals.NumberEndStands | packages/model-option-map/src/tokenizer.ts:75-81 | a numeral followed by a blank is matched to its end |
| Numerals.MatchedNumberIsNumber | packages/model-option-map/src/tokenizer.ts:75-81 | what the pattern matches is itself a numeral |
| Numerals.DecimalIsNumber | packages/model-option-map/src/parser.ts:149-154 | every natural number has a decimal literal, whose value it is |
| NumeralForms.NumberIff | packages/model-option-map/src/tokenizer.ts:75-81 | a text matches the number pattern if and only if it is a numeral: digits without a leading zero, perhaps a fraction, perhaps an exponent with a sign |
| NumeralForms.LongestMatch | packages/model-option-map/src/tokenizer.ts:75-81 | no longer piece of the text than the one matched is a numeral |
| NumeralForms.NumeralMeans | packages/model-option-map/src/parser.ts:149-154 | the value of a numeral is its digits, read positionally, times its power of ten |
| Lexing.ReadCharsIff | packages/model-option-map/src/tokenizer.ts:83-124 | the rest of a string literal is read, with this end and this value, if and only if it is there: every escape written out, up to the first quote that is not escaped |
| Lexing.PieceIff | packages/model-option-map/src/tokenizer.ts:22-73 | a token is found at a position if and only if a rule for tokens, written out with their characters, says so |
| Lexing.TokenizesIff | packages/model-option-map/src/tokenizer.ts:22-73 | the tokenizer returns these tokens if and only if the text consists of them and blanks, so it fails if and only if it consists of no tokens |
| Tokenizer.EscapedReadsBack | packages/model-option-map/src/tokenizer.ts:83-124 | reading undoes escaping, for every string |
| Tokenizer.SpelledPiece | packages/model-option-map/src/tokenizer.ts:22-73 | a spelled-out token of any kind is read back with its kind, value and offsets |
| Tokenizer.SpellingReadsBack | packages/model-option-map/src/tokenizer.ts:22-73 | tokenizing a spelled-out token list gives that list and the end token |
| Tokenizer.TokenizedIsTokenList | packages/model-option-map/src/tokenizer.ts:22-73 | the list ends with an end token, end tokens are empty and number tokens are numerals, which is what the parser relies on |
| Tokenizer.TokenizedIsWellFormed | packages/model-option-map/src/tokenizer.ts:22-73 | for every accepted text: one end token, last, and before it tokens in the order of the text, without overlap, each spelled as its kind demands |
| Tokenizer.TrimIsTrim | packages/model-option-map/src/compiler.ts:58-65 | trimming takes all the white space off both ends and nothing else |
| Tokenizer.ReadWhileWord | packages/model-option-map/src/tokenizer.ts:137-141 | the end of the identifier |
| Tokenizer.ReadString | packages/model-option-map/src/tokenizer.ts:83-124 | the loop returns the unescaped text and the end, or the offset of the error |
| Tokenizer.TokenizeRestrictedCel | packages/model-option-map/src/tokenizer.ts:22-73 | the loop returns the token list that the round trip is about, or the first error |
| RoundTrip.ParsesBack | packages/model-option-map/src/parser.ts:79-214 | at every precedence level, wherever a tree is printed among tokens, parsing returns it and stops behind it |
| RoundTrip.TailParsesBack | packages/model-option-map/src/parser.ts:112-128 | left associativity: a printed binary chain becomes the left operand of what follows |
| Sources.SourceParsesBack | packages/model-option-map/src/parser.ts:46-214 | printing any expressible tree, tokenizing and parsing gives it back |
| Sources.ParseIsSound | packages/model-option-map/src/parser.ts:79-214 | every tree the parser returns is expressible |
| Sources.ParsedIsExpressible | packages/model-option-map/src/parser.ts:46-77 | the same for whole sources |
| Sources.SourceExistsIff | packages/model-option-map/src/parser.ts:46-229 | a tree comes from some text if and only if it is expressible |
| Sources.StringClosesArray | packages/model-option-map/src/parser.ts:182-220 | a string that reads "]" right after "[" closes the array |
| Grammar.ParsesIff | packages/model-option-map/src/parser.ts:79-229 | at every level the parser returns this tree and this end if and only if the grammar, one rule a construct and six classes of operators written out, derives it and what follows cannot continue it |
| Grammar.SourceMeansIff | packages/model-option-map/src/parser.ts:46-229 | tokenizer and parser return a tree if and only if the text means it by the rules for tokens and the grammar |
| Grammar.TighterComesFirst | packages/model-option-map/src/parser.ts:88-128 | a op b op' c with op' of a tighter class is parsed as a op (b op' c), for any operands that need no parentheses |
| Grammar.LeftComesFirst | packages/model-option-map/src/parser.ts:88-128 | with op of a tighter class, or both of one class, it is parsed as (a op b) op' c |
| Parsers.Parser.constructor | packages/model-option-map/src/parser.ts:53-59 | the cursor stands on the first token |
| Parsers.Parser.Consume | packages/model-option-map/src/parser.ts:216-220 | steps over a token by its text, whatever its kind |
| Parsers.Parser.Advance | packages/model-option-map/src/parser.ts:231-235 | returns the current token and never runs past the end token |
| Parsers.Parser.Parse | packages/model-option-map/src/parser.ts:61-77 | the whole token list as one expression |
| Parsers.Parser.ParseConditional | packages/model-option-map/src/parser.ts:79-86 | the cursor parser agrees with the grammar the round trip is about: result, cursor and error |
| Parsers.Parser.ParseBinary | packages/model-option-map/src/parser.ts:88-128 | likewise for the six binary levels and their loop |
| Parsers.Parser.ParseOperand | packages/model-option-map/src/parser.ts:88-110 | likewise for the operands of a level |
| Parsers.Parser.ParseUnary | packages/model-option-map/src/parser.ts:130-145 | likewise for unary operators |
| Parsers.Parser.ParsePrimary | packages/model-option-map/src/parser.ts:147-180 | likewise for literals, the variable, parentheses, arrays and objects |
| Parsers.Parser.ParseArray | packages/model-option-map/src/parser.ts:182-190 | likewise for the element loop |
| Parsers.Parser.ParseObject | packages/model-option-map/src/parser.ts:192-214 | likewise for the entry loop, with the check for repeated keys |
| Parsers.ParseRestrictedCel | packages/model-option-map/src/parser.ts:46-51 | tokenizer and parser together compute the function that the round trip inverts |
| Evaluator.ResultsAreNumberSafe | packages/model-option-map/src/evaluator.ts:17-178 | every number anywhere in a result of a valid input is JSON-safe |
| Meanings.EvaluatesIff | packages/model-option-map/src/evaluator.ts:17-178 | an expression evaluates to a value if and only if a big-step relation yields it, which has a rule for each construct and says by its meaning what every operator does: the conditional, short circuit, elements in order, objects key by key, arithmetic with the remainder of truncated division, equality, and order of numbers and of strings by the first difference |
| Meanings.FailsIff | packages/model-option-map/src/evaluator.ts:17-178 | it fails if and only if that relation yields no value at all |
| Evaluator.JsonEqualsIsEquality | packages/model-option-map/src/evaluator.ts:180-199 | the structural walk decides equality of values |
| Evaluator.AcceptedGivesObjects | packages/model-option-map/src/compiler.ts:45-88 | a tree that the compile-time check accepts evaluates to an object or fails, so the run-time guard never fires |
| Evaluator.RejectedHasNonObjectBranch | packages/model-option-map/src/compiler.ts:80-88 | a tree is rejected only for a branch that can never evaluate to an object |
| OptionMaps.CompileModelOptionMap | packages/model-option-map/src/compiler.ts:35-65 | returns a tree if and only if the trimmed source means it by the grammar and it passes the check; what it returns is expressible |
| OptionMaps.ApplyOptionMaps | packages/model-option-map/src/option-maps.ts:24-42 | evaluation fails if and only if an input is no number-safe value or one of the maps has no value by the big-step relation; otherwise the two patches are the values it yields, and the result is the body with both merged in order if and only if they write no overlapping paths |
| RefreshWaiters.SettlingKeepsLedger | packages/provider/src/registry-service.ts:257-273 | settling up to a generation keeps every promise either waiting or settled once |
| RefreshWaiters.SettleWaiters | packages/provider/src/registry-service.ts:257-273 | the loop answers exactly the waiters up to the generation and keeps the others in order |
| RegistryRefresh.PromisesSettleOnce | packages/provider/src/registry-service.ts:150-273 | in every run each refresh promise ever made is waiting or settled, never both, and settled at most once |
| RegistryRefresh.AnswersAreFresh | packages/provider/src/registry-service.ts:180-255 | a promise resolved by publishing or by unchanged revisions rests on reads begun after its request, and every snapshot pairs an overlay with the Built-in revision it is based on |
| RegistryRefresh.NoLostWakeUp | packages/provider/src/registry-service.ts:161-178 | while requests are outstanding and the service is not disposed, a loop is in flight |
| RegistryRefresh.IdleMeansAnswered | packages/provider/src/registry-service.ts:174-212 | once there is a snapshot, an idle service has nobody waiting |
| RegistryRefresh.RoundSettlesIff | packages/provider/src/registry-service.ts:202-253 | a round whose reads succeed leaves nobody waiting if and only if there was a snapshot or the revisions match |
| RegistryRefresh.PublishedIff | packages/provider/src/registry-service.ts:202-253 | over every run a round whose reads succeed replaces the snapshot if and only if it is not superseded, its pair is coherent, it resolves and a revision differs; then the snapshot is that very pair and everybody is answered with it |
| RegistryRefresh.RoundIsTheLast | packages/provider/src/registry-service.ts:165-255 | over every run a round begun for the newest request is the last: the loop ends and nothing is left to do |
| RegistryRefresh.FirstMismatchLeavesWaiterBehind | packages/provider/src/registry-service.ts:205-212 | the run in which a caller is left waiting by an idle service |
| RegistryRefresh.ReadsAnswer | packages/provider/src/registry-service.ts:202-253 | whom the reads of a round answer and with what: nobody if it was superseded, and then it is repeated; otherwise by the new pair, the old snapshot, the unchanged one or a rejection, exactly as pair, snapshot and resolver say; the snapshot changes if and only if the new pair is published |
| RegistryRefresh.FinishAnswers | packages/provider/src/registry-service.ts:165-178 | the end of the loop rejects everybody if it threw, and begins anew exactly if somebody has asked meanwhile |
| RefreshServices.ProviderRegistryService.RequestRefresh | packages/provider/src/registry-service.ts:150-159 | keeps the invariant of every run; the promise is the newest generation, it is waiting and not settled, and a loop is in flight |
| RefreshServices.ProviderRegistryService.SettleRefreshWaiters | packages/provider/src/registry-service.ts:257-273 | settles up to a generation |
| RefreshServices.ProviderRegistryService.OnReads | packages/provider/src/registry-service.ts:202-253 | keeps the invariant; publishes the pair that was read, and answers everybody with it, exactly in the case of PublishedIff, and otherwise keeps the snapshot; a superseded round answers nobody and is repeated, any other ends |
| RefreshServices.ProviderRegistryService.OnReadError | packages/provider/src/registry-service.ts:194-200 | keeps the invariant and the snapshot; a superseded round is repeated, any other rejects everybody unless an announcement throws, and ends |
| RefreshServices.ProviderRegistryService.FinishRefresh | packages/provider/src/registry-service.ts:165-178 | keeps the invariant; nobody waits after a throw, and outstanding requests start the next round |
| RefreshServices.ProviderRegistryService.Dispose | packages/provider/src/registry-service.ts:133-141 | keeps the invariant; every promise ever made has settled |
| AccountRefresh.RefreshesAreTimely | packages/provider/src/account-provider-service.ts:112-217 | in every run each promise settles at most once and never by a round begun before its request; no reason is left pending by an idle service, and nobody waits after dispose |
| AccountRefresh.IdleMeansAnswered | packages/provider/src/account-provider-service.ts:136-217 | an idle service has nobody waiting if no error listener ever throws |
| AccountRefresh.FailedRoundAnswersIff | packages/provider/src/account-provider-service.ts:199-213 | a failing round answers those it was for if and only if no error listener throws |
| AccountRefresh.ThrowingListenerLeavesWaiterBehind | packages/provider/src/account-provider-service.ts:199-213 | the run in which a throwing listener leaves a promise unsettled and the service idle |
| AccountRefresh.PublicationsAreCurrent | packages/provider/src/account-provider-service.ts:148-209 | over every run an overlay is published only if nothing was requested since its round began and both reads saw one Built-in revision, a fail-closed one only as the very first; publications come from ever later rounds, and the last is the snapshot |
| AccountRefresh.RecheckAnswers | packages/provider/src/account-provider-service.ts:171-198 | a round that was superseded answers nobody, publishes nothing and is repeated; any other leaves a snapshot of the revision the resolver returned, answers everybody with it, and publishes it, once, if and only if that revision differs from the one held before |
| AccountRefresh.RoundDelivers | packages/provider/src/account-provider-service.ts:148-198 | the same over every run, from the first read of a round to its second |
| AccountRefresh.FirstFailureFailsClosed | packages/provider/src/account-provider-service.ts:199-213 | over every run, a failure after the configuration was read while there is no snapshot publishes the fail-closed overlay of that configuration, exactly once, and answers everybody the round was for with it |
| AccountRefresh.DisposedIsSilent | packages/provider/src/account-provider-service.ts:91-213 | over every run, after dispose no step answers anybody or publishes a resolved overlay; a round under way fails, and all it may leave is the fail-closed overlay, if there was none |
| RefreshServices.AccountProviderService.RequestRefresh | packages/provider/src/account-provider-service.ts:112-124 | keeps both invariants of every run; the promise is the newest generation, it is waiting and not settled, and a loop is in flight |
| RefreshServices.AccountProviderService.OnConfigRead | packages/provider/src/account-provider-service.ts:148-156 | keeps the invariants; the round goes on with the revision that was read, and nobody is answered |
| RefreshServices.AccountProviderService.OnOverlayResolved | packages/provider/src/account-provider-service.ts:157-171 | keeps the invariants; the round goes on to its second read with the resolved revision, and nobody is answered; if the service was disposed the round fails here |
| RefreshServices.AccountProviderService.OnRechecked | packages/provider/src/account-provider-service.ts:171-198 | keeps the invariants; a superseded round publishes nothing, answers nobody and is repeated; any other leaves a snapshot of the resolved revision, answers everybody with it, and publishes it once if and only if that revision is new |
| RefreshServices.AccountProviderService.OnError | packages/provider/src/account-provider-service.ts:199-213 | keeps the invariants; unless an error listener throws, everybody the failing round was for is answered, by the fail-closed overlay, which is published once, if there is no snapshot and the configuration was read, by a rejection otherwise; if one throws, nobody is |
| RefreshServices.AccountProviderService.SettleRefreshWaiters | packages/provider/src/account-provider-service.ts:219-235 | settles up to a generation |
| RefreshServices.AccountProviderService.FinishRefresh | packages/provider/src/account-provider-service.ts:136-146 | keeps the invariants; pending reasons start the next round, otherwise the service is idle |
| RefreshServices.AccountProviderService.Dispose | packages/provider/src/account-provider-service.ts:91-100 | keeps the invariants; every promise ever made has settled |
| SharedRelease.SelectIsNewest | packages/provider-node/src/dave-builtin-provider-config-source.ts:180-206 | the newest decodable candidate is chosen, the bundled one on equal revisions, and it fails exactly when there is none |
| SharedRelease.LockedReadReturnsNewest | packages/provider-node/src/dave-builtin-provider-config-source.ts:100-113 | a locked read returns the newest of bundled and active and leaves it in the file; a failing one leaves the file alone |
| SharedRelease.UpdatedIffNewer | packages/provider-node/src/dave-builtin-provider-config-source.ts:64-84 | exactly when each of the four results comes out: updated if and only if every write it needs succeeds, one of the two can be read and the release is newer than both; and what the file holds afterwards, also when the bundled release was materialized and the second write fails |
| SharedRelease.RevisionNeverDecreases | packages/provider-node/src/dave-builtin-provider-config-source.ts:64-113 | under any interleaving of processes, whatever they bundle, the revision in the file never decreases |
| SharedRelease.UpdateIsNeverLost | packages/provider-node/src/dave-builtin-provider-config-source.ts:64-113 | after an update every later locked read of every process returns a release at least that new |
| SharedRelease.ReleaseSource.ReadAndMaterializeLocked | packages/provider-node/src/dave-builtin-provider-config-source.ts:100-113 | returns the newest of the two releases, the bundled one on a tie, and leaves exactly it in the file; fails if and only if none can be read or a needed write is impossible, and never lowers the revision |
| SharedRelease.ReleaseSource.ApplyRemoteRelease | packages/provider-node/src/dave-builtin-provider-config-source.ts:64-84 | updates if and only if both writes, as far as needed, succeed, something can be read and the release is newer than both, with the exact conditions of the other results; a failing second write leaves the materialized bundled release; afterwards the file holds the release or a newer one, and the revision is never lowered |
| RefreshLease.LeasesNeverOverlap | packages/provider-node/src/dave-builtin-remote-synchronizer.ts:86-101 | over every run of any number of processes no two different leases live at the same moment |
| RefreshLease.LateFinishIsHarmless | packages/provider-node/src/dave-builtin-remote-synchronizer.ts:141-148 | finishing an outdated lease, or one twice, changes nothing in the record |
| RefreshLease.FinishReleases | packages/provider-node/src/dave-builtin-remote-synchronizer.ts:86-167 | after the holder's finish the lease is free, and an unforced attempt succeeds if and only if the delay is over |
| RefreshLease.HeldIffLive | packages/provider-node/src/dave-builtin-remote-synchronizer.ts:86-101 | over every reachable record, an attempt is told that the lease is held if and only if some granted lease is live |
| RefreshLease.EndOfNewestFrees | packages/provider-node/src/dave-builtin-remote-synchronizer.ts:141-167 | only the first end of the newest lease makes a difference, and it leaves no lease live |
| RefreshLease.FailureDelayGrows | packages/provider-node/src/dave-builtin-remote-synchronizer.ts:151-159 | the failure delay begins at its base and doubles up to its cap, never shrinks and never exceeds it |
| RefreshLease.DelaysNeverShrink | packages/provider-node/src/dave-builtin-remote-synchronizer.ts:141-167 | over any run whose finishes are failures the delay of the next failure never shrinks and stays within the cap |
| RefreshLease.RecordTellsHistory | packages/provider-node/src/dave-builtin-remote-synchronizer.ts:141-167 | over every run the record tells how many failures have followed one another since the last success and when the next unforced refresh is due, both counted independently from the history of the finishes that mattered |
| RefreshLease.ControlFile.AcquireLease | packages/provider-node/src/dave-builtin-remote-synchronizer.ts:86-101 | when each answer comes out, and the whole new record; in orderly use keeps the invariant of all granted leases, and is told that the lease is held if and only if some granted lease is still live |
| RefreshLease.ControlFile.FinishLease | packages/provider-node/src/dave-builtin-remote-synchronizer.ts:146-167 | the holder's finish frees the lease and sets count and delay by how it ended, any other leaves the record alone; in orderly use keeps the invariant, and the holder's own leaves no lease live |
| Orders.OwnedOrderIsPermutation | packages/provider/src/owned-order.ts:7-34 | every member exactly once and nothing else, whatever order is requested |
| Orders.OwnedOrderIsIdempotent | packages/provider/src/owned-order.ts:7-23 | normalising a normalised order changes nothing |
| Orders.RequestedOrderIsKept | packages/provider/src/owned-order.ts:16-22 | members named in the requested list keep their relative order |
| Orders.NewBuiltinLandsInFront | packages/provider/src/owned-order.ts:7-23 | a Built-in member that nobody has ordered comes before every requested member and every member that is only Personal |
| Orders.NewBuiltinMovesNothing | packages/provider/src/owned-order.ts:7-23 | wherever a Built-in member is inserted and whatever order was requested, the others keep their relative order |
| Orders.OwnedOrderIff | packages/provider/src/owned-order.ts:7-34 | which of two members comes first: unordered Built-in ones, then the requested ones, then the rest, each in the order of its list |
| Orders.ProviderOrderIsPermutation | packages/provider/src/resolver.ts:355-376 | family providers first, then the owned order: a permutation of the effective keys without repeats |
| Orders.ProviderOrderIff | packages/provider/src/resolver.ts:355-376 | which of two providers comes first: those of the family in effective order, then the others in owned order |
| Orders.UniqueInOrder | packages/provider/src/owned-order.ts:25-34 | the loop keeps first occurrences in order |
| Orders.ResolveOwnedOrder | packages/provider/src/owned-order.ts:7-23 | computes the order the lemmas are about |
| FreshNames.Pigeonhole | packages/provider/src/config-service.ts:694-697 | the taken suffixes below n are that many different occupied names |
| FreshNames.NextFreeName | packages/provider/src/config-service.ts:693-697 | the suffix loop ends within one candidate more than there are occupied names, and returns the base or the first suffix whose folded form is free |
| FreshNames.NormalizedSeedIsSeed | packages/provider/src/config-service.ts:700-708 | a normalised seed is words of small letters and digits joined by single dashes, whatever was given, and such a seed is left alone |
| FreshNames.NormalizedSeedIsWords | packages/provider/src/config-service.ts:700-708 | a normalised seed is the words of small letters and digits of the trimmed, folded text, joined by single dashes, or "new-provider" if there are none |
| FreshNames.NextPersonalProviderId | packages/provider/src/config-service.ts:688-708 | the normalised template id if it is not occupied, otherwise that with the first suffix that is free, at most the number of occupied ids plus two |
| FreshNames.NextPersonalProviderLabel | packages/provider/src/config-service.ts:744-757 | the trimmed seed if no provider name takes it, up to surrounding white space and case, otherwise that with the first suffix no name takes, at most the number of names plus two |

## Left out

- Sockets, timers, promises and clocks are steps that may happen at any time, with the time as a parameter; `drain` and `dispose` of the protocols are not modelled.
- Data that a socket delivers before a listener is bound is assumed not to get lost.
- The theorems about reconnects have no bound on ids: counters and logs hold true ids, and only the wire keeps their low 32 bits. Numbers above 2^53, which JavaScript cannot count by ones, are not modelled.
- PersistentProtocols.PersistentProtocol.ReadMessages: the method is stated for listeners that do not call back into the protocol. Networks and BackPressure cover those that do, between two frames or between the acknowledgement and the delivery of one, except that a listener may not feed in further bytes and have them processed before the frame in hand.
- PersistentProtocols.PersistentProtocol.OnData: the same, since it ends in ReadMessages.
- Layers.StackIsTwoRuns: how messages become buffers is a parameter; an act is left out of the runs if one of its messages has 2^32 bytes or more or is not read back as it was written. The server defers Initialize; one that does not is made ready first.
- Layers.RunsAgainIffReadTwice: is about a server that has not been disposed, at a moment when it is not in the middle of a frame.
- ServerAnswers.AnsweredTwiceIff: is about a request handed over at most once; for one handed over more often AtMostTwoAnswersEach counts the answers.
- Event subscriptions, `requestEvent`, event disposal, `ProxyChannel` and `IPCServer` routing: the call protocol does not depend on them.
- Calls.RunsAgainIff: a held request runs when its channel registers and the flush comes; that timers fire and promises settle at all is not promised.
- A channel of the server that calls back into it while held requests are being flushed is not modelled.
- ChannelEndpoints.ChannelServer.OnSettled: the properties copied from an error object and its stack are opaque data.
- UTF-8, JSON text and base64 in the codec: strings and the object fallback are their encoded bytes.
- A transport whose `send` throws, which client and server swallow, is not modelled above the sockets: what they send is on its way.
- Codec errors thrown on malformed objects; reading past the end gives short slices, as in the code.
- Error message texts, the offsets in parsed trees, and the offset in the error of the object check; the offsets of lexical and syntax errors are computed by the methods as by the functions of the grammar, and no rule says independently what they are.
- Tokenizer.ReadString: text is a sequence of Unicode scalar values, so a `\u` escape that names half of a surrogate pair is an error here and accepted by the program; strings are compared by scalar value rather than by 16-bit unit.
- Tokenizer.TokenizeRestrictedCel: rejects the same surrogate escapes.
- Lexing.TokenizesIff: likewise, as does Lexing.ReadCharsIff.
- Meanings.EvaluatesIff: numbers are exact reals, and the keys of an object stand in no order, as for ResultsAreNumberSafe.
- Evaluator.ResultsAreNumberSafe: numbers are exact reals with the range check, so rounding, negative zero, NaN and infinities of floating point are not modelled.
- Program caches, freezing of results, and the aliasing that `cloneJson` prevents.
- Object key order: keys are visited in an unspecified order, and objects are compared without order.
- Files, watchers, locks, hashing, UUIDs and schema validation: a locked section is one atomic step on one register, lease ids are never reused, and a release file changes only through the modelled sections.
- The unlocked fallback of reading a release when the lock is unavailable, and the set-up in which active and bundled file are the same.
- `dispose` and the in-flight sharing of the release source and of the synchroniser, which touch no file.
- RefreshLease.LeasesNeverOverlap: is about one endpoint key, an intact control file and a clock that never runs backwards; a corrupted file, or processes with different keys, would let leases overlap.
- `start` and `read` of the refresh services, the reasons passed to listeners, and listeners that request a refresh while they are being called; throwing listeners are modelled.
- FreshNames.NextPersonalProviderLabel: case folding is any function that leaves a separator and digits behind a base alone.
- Orders.ProviderOrderIsPermutation: that the effective keys are the union of both layers is assumed, since `ProviderConfigMap` is not part of this model.
- The rest of provider resolution and of the configuration service, host capabilities, telemetry and logging.
