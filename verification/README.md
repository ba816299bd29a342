# HXService messaging layer: model and proofs

A Dafny 4.11 model of the TCP messaging layer `HXLibNetwork` and of the verifier pipeline in `CenterServer`,
with proofs about all inputs and all runs. `dafny verify dfyconfig.toml` checks the project.

The classes (`BigMessageQueue`, `MessageQueue`, `MessageQueueAB`, `Connection`, `Server`, `Client`, `MsgQueue`,
`UserVerifier`) have the source's fields, loops and branches, and one check that the source lacks: `MessageQueueAB.Add`
looks whether the copy of a completed message fits its block. Each method is proved equal to a specification
function. The state machines use the same specification functions as their atomic steps: one mutex section, one
io handler, one post to the io service.

- `Wire`, `BigMessage`: frames, the packed 17-byte header, cutting a message up (`SetBigPackage`) and rebuilding it
  (`RecvPackage`). zlib is a pair of functions; the assumptions on it are the predicate `Zlib.Sound`, shown
  consistent by `SoundZlibExists`.
- `ReceiveQueue`, `MessageQueues`: the double-buffered receive queue and the heap blocks it owns.
- `Writer`: the asynchronous write chain of one connection. `Statistics`: the server's package counters over all of
  them. `Coding`, `EndToEnd` (`Delivery.dfy`): one link from `Send` to the client application.
- `Pool`, `Sessions`, `ServerObjects` (`Server.dfy`): slots and handles, many sessions, the server objects.
- `Monitor`, `Verifier`: `MsgQueue` with any number of threads, and the two-stage verifier on top of it.
- `ClientState`, `ClientObjects` (`Client.dfy`): the client's sending half and the client object.
- `Heartbeat`, `HeartbeatLink`: the heartbeat round trip, and the link of real frames, client and server writer, each
  of whose steps is proved to be one of its steps or invisible to it. A double is its eight bytes; the assumptions on
  them are the predicate `Doubles.Sound`, shown consistent by `DoublesExist`, and the clock shows values that a
  double can have. `Uplink`: the same link from `Send` of the client to a session of the server.

What the proofs found:

- A big message is restored from every receiver state if and only if it is `Restorable`. It is not when the bytes
  to cut up number 65535 * 32768 or more (the section count wraps to 0 and the receiver keeps its old bytes:
  `LongBlockIsLost`), when the stored zip level is nonzero and the data is empty (`vector::at` throws:
  `EmptyZippedThrows`), or when nothing was compressed (compression failed, or the level is negative) and the header
  still asks for inflation, unless the data happens to inflate to itself (`UnknownLevelIsLost`).
- A completed message is copied, `originalLength` bytes, into a block of the receive buffer's size, and the code does
  not compare the two (HXLibNetwork/HXLibMessageQueue.cpp:72-74). `OverrunIffDishonest`: after a Begin the copy leaves
  its block exactly if the message completes and that Begin's header gives no zip level and a larger original than sent
  length (for an empty one, more than a package holds); `SessionOverrunsIff` says so of every session in every run, and
  `LiarOverruns` gives the run. Headers that `SetBigPackage` makes are honest (`SendersAreHonest`), and `PrefixDelivery`
  and `UplinkDelivery` prove that neither reader of a link between the two programs ever gets there. A read that would
  is no step of `Sessions`, as one that throws is none.
- `StaleHandle`: a handle of a session that left can address a later session, but only if that one joined a
  multiple of 32767 Joins later in the same slot; `HandleReturns` shows that exactly 32767 suffices.
- `SessionTraces` holds for every run, whatever ids the peers send, when packages are told apart by where they come
  from. The application has only the ids, and the server does not keep peers from using the reserved ids 101 and
  102: `IdsTellTheTruthIff` says that the ids tell the truth throughout a run exactly if no session that held a handle
  delivered such a package, and `ImpostorConnectsTwice` gives a run in which one does.
- `m_numofWrite` is refreshed only by a push on an empty queue and by a pop, and the bytes it stands for are cut to
  32 bits, so a big message that may be lost can be let through whatever the backlog is, against
  include/HXLibMessage.h:129. `RefusalIsRightIff`: the decision is the right one for every limit exactly if nothing was
  accepted since the last refresh and the bytes counted fit 32 bits; `CachedLengthLags` gives runs in which the lag
  grows without end. A refusal is always honest (`RefusalMeansBacklog`). The client refreshes its count at every push
  and pop and does not count the `do_write` calls still posted: `ClientRefusalIsRightIff`.
- The comment at include/HXLibNetwork.h:79 says that `Send` of a big message returns false only for a dead link.
  `ServerObjects.Server.SendBig` says exactly when it does: also for a message that may be lost whose link has the
  limit's worth counted. And it returns true when the socket is closed and nothing is queued (`SendAllClosed`).
- `CountersAreSums`: the server's two package counters are right exactly while fewer than 2^32 packages were sent; up
  to there the clamp of the second never takes effect, after it it can (`WrapClamps`).
- `HeartbeatsOnTheLink`: a heartbeat is lost only if the server answers it on a closed socket; then `m_bTimeLast` stays
  up for good. One that is stuck in a queue after an error or a close counts as on its way.
- `DeadlockIffNoCapacity`: `MsgQueue` can deadlock exactly when it was made with capacity 0.

The wire is a lossless FIFO of whole frames. Ids below 1000 are reserved (include/HXLibMessage.h:39-40): in `EndToEnd`
plain messages keep off the stream and heartbeat ids and big ones are `Restorable`, and in `HeartbeatLink` the
applications keep off the heartbeat id. Heartbeats, write errors and a close may come at any point.

## Model

| member | source | states |
|---|---|---|
| Wire.HeaderRoundTrip | HXLibNetwork/HXLibMessageQueue.h:11-20 | the packed header read back from a body equals the header packed, whatever follows it |
| BigMessage.SoundZlibExists | HXLibNetwork/HXLibMessageQueue.cpp:135-140 | the assumptions on zlib can be met, with success for every level 1 to 9 and room to spare |
| BigMessage.SectionsTile | HXLibNetwork/HXLibMessageQueue.cpp:152-168 | below 65535 * 32768 bytes the section count does not wrap, no int overflows, each section fits a frame, and every byte lies in exactly one section |
| BigMessage.StreamOnTheWire | HXLibNetwork/HXLibMessageQueue.cpp:142-175 | a Begin and an End frame that both carry the header, and between them Data frames numbered from 0 whose bodies are together the bytes to cut up |
| BigMessage.FramesKeepToTheirSlice | HXLibNetwork/HXLibMessageQueue.cpp:185-222 | for any frame given to RecvPackage: a Data frame changes the buffer iff it fits, and only its own slice; only an End frame that agrees with the last Begin completes |
| BigMessage.EndOutcomes | HXLibNetwork/HXLibMessageQueue.cpp:205-223 | for any End frame: exactly when it completes and when it throws, and what it leaves in the buffer, a failed inflation included |
| BigMessage.WriteSection | HXLibNetwork/HXLibMessageQueue.cpp:185-204 | one Data frame writes its own slice with the right bytes and leaves every other byte alone |
| BigMessage.FeedSections | HXLibNetwork/HXLibMessageQueue.cpp:185-204 | after any sequence of Data frames, repeated or reordered, exactly the bytes of the sections carried are the message's, the others unchanged |
| BigMessage.AnyOrderRebuilds | HXLibNetwork/HXLibMessageQueue.cpp:177-224 | Begin, any sequence of Data frames covering all bytes, End: only End reports completion, and data and header are the sender's |
| BigMessage.RoundTrip | HXLibNetwork/HXLibMessageQueue.cpp:128-224 | cutting up and feeding the frames restores the message from any leftover receiver state, zipped or not, empty or an exact multiple of the section size |
| BigMessage.RestoredIffRestorable | HXLibNetwork/HXLibMessageQueue.cpp:135-153 | the round trip works from every receiver state if and only if the section count fits and the stored level is 0 or the non-empty data inflates back |
| BigMessage.WrappedCountLosesData | HXLibNetwork/HXLibMessageQueue.cpp:153-158 | with 65535 * 32768 bytes or more some receiver state yields a wrong result |
| BigMessage.LongBlockIsLost | HXLibNetwork/HXLibMessageQueue.cpp:153-158 | an input: a block of 65535 * 32768 zeros is sent with section count 0 and some receiver does not restore it |
| BigMessage.EmptyZippedThrows | HXLibNetwork/HXLibMessageQueue.cpp:211-215 | an input: the last frame of an empty block with a level throws in every receiver |
| BigMessage.UnknownLevelIsLost | HXLibNetwork/HXLibMessageQueue.cpp:135-149 | inputs: a block that is no zlib stream, with a level above 9, is sent as it is and completes in no receiver |
| BigMessage.BigMessageQueue.AddSections | HXLibNetwork/HXLibMessageQueue.cpp:158-168 | the loop appends exactly the sections, in order |
| BigMessage.BigMessageQueue.Pack | HXLibNetwork/HXLibMessageQueue.cpp:131-140 | the bytes to cut up are the compressed ones if compression was asked for and worked, else the data |
| BigMessage.BigMessageQueue.SetBigPackage | HXLibNetwork/HXLibMessageQueue.cpp:128-176 | the queue becomes the stream that RoundTrip is about, the receive buffer is untouched |
| BigMessage.BigMessageQueue.RecvPackage | HXLibNetwork/HXLibMessageQueue.cpp:177-224 | one call is one step of the receiver that RoundTrip is about, including rejections and exceptions |
| ReceiveQueue.AddOrdinaryOwned | HXLibNetwork/HXLibMessageQueue.cpp:81-84 | an ordinary add, with or without dropping the oldest, keeps live blocks exactly the pointers held, each once |
| ReceiveQueue.AddCompletedOwned | HXLibNetwork/HXLibMessageQueue.cpp:67-78 | so does adding a completed big message in a new block, where the copy fits that block |
| ReceiveQueue.SwapOwned | HXLibNetwork/HXLibMessageQueue.cpp:28-36 | so does a swap, which frees every block of the queue it clears and no other |
| ReceiveQueue.AddLeavesHandedAlone | HXLibNetwork/HXLibMessageQueue.cpp:105-108 | an add whose copy fits changes neither the queue that get denotes nor the bytes it shows |
| ReceiveQueue.DoubleBuffering | HXLibNetwork/HXLibMessageQueue.cpp:47-108 | over any run of adds whose copies fit, and swaps: ownership, both buffers show the ends of their epochs byte for byte, every package from within its own body or block; complete below 8162 messages, else at least the last 8161; an epoch has lost exactly as many packages as it had ordinary adds on 8161 or more; the filling one holds at most 8161 plus the big messages since its reset |
| ReceiveQueue.EpochsPartitionLog | HXLibNetwork/HXLibMessageQueue.cpp:96-103 | the epochs between swaps partition the additions in order |
| ReceiveQueue.CompleteFitsIffHonest | HXLibNetwork/HXLibMessageQueue.cpp:67-75 | once a Begin was seen, the copy of a completed message fits iff the header is zipped or its original length is at most the sent one |
| ReceiveQueue.OverrunIffDishonest | HXLibNetwork/HXLibMessageQueue.cpp:67-75 | for any receiver state, any frames and any last Begin among them: the next call overruns iff it completes and that Begin's header is not honest |
| ReceiveQueue.SendersAreHonest | HXLibNetwork/HXLibMessageQueue.cpp:147-153 | every header that SetBigPackage stores is honest |
| MessageQueues.Heap.Delete | HXLibNetwork/HXLibMessageQueue.cpp:20 | only a live block can be freed, and only it goes |
| MessageQueues.MessageQueue.RemoveFront | HXLibNetwork/HXLibMessageQueue.cpp:17-24 | drops the front and frees its block if it has one |
| MessageQueues.MessageQueue.Reset | HXLibNetwork/HXLibMessageQueue.cpp:28-36 | the loop frees each held block exactly once and empties the queue |
| MessageQueues.MessageQueueAB.Push | HXLibNetwork/HXLibMessageQueue.cpp:81-84 | the ordinary add of DoubleBuffering, ownership kept |
| MessageQueues.MessageQueueAB.PushCompleted | HXLibNetwork/HXLibMessageQueue.cpp:68-76 | a block of the receive buffer's size, into which the copy must fit, and the big add of DoubleBuffering, ownership kept |
| MessageQueues.MessageQueueAB.Add | HXLibNetwork/HXLibMessageQueue.cpp:47-85 | stream frames go to the reassembler and queue only completed messages, others are queued; reports exactly the calls whose copy would not fit |
| MessageQueues.MessageQueueAB.Swap | HXLibNetwork/HXLibMessageQueue.cpp:96-103 | hands out the queue filled so far, and get then denotes it |
| MessageQueues.MessageQueueAB.Handed | HXLibNetwork/HXLibMessageQueue.cpp:105-108 | get is the queue not being filled |
| Writer.NextFifo | HXLibNetwork/HXLibAsioServer.cpp:47-63 | every step keeps: completed writes and queue are what was accepted, the sequence of outstanding writes has at most one element, which carries the front, and one is missing under a queue only before a restart or after an error; cached length and completion counter never ahead |
| Writer.RunsAreFifo | HXLibNetwork/HXLibAsioServer.cpp:106-134 | over any run that holds, and what was accepted is exactly what was sent before the close |
| Writer.FailureIsFinal | HXLibNetwork/HXLibAsioServer.cpp:131-134 | after a write error nothing more is transmitted or completed |
| Writer.RefusalMeansBacklog | HXLibNetwork/HXLibAsioServer.cpp:312-318 | a message refused as losable really met a backlog of that many bytes, 32-bit wrap included |
| Writer.RefusalIsRightIff | HXLibNetwork/HXLibAsioServer.cpp:312-318 | over any run: the refusal of a losable message agrees with the true backlog for every limit iff nothing was accepted since the cached length was refreshed and the bytes counted fit 32 bits |
| Writer.CachedLengthLags | HXLibNetwork/HXLibAsioServer.cpp:55-62 | the cached length stays 1 for any backlog until a write completes |
| Writer.SendAllClosed | HXLibNetwork/HXLibAsioServer.cpp:53-54 | on a closed socket all frames of a big message are dropped without a trace |
| Writer.SendAllOpen | HXLibNetwork/HXLibAsioServer.cpp:53-62 | on an open socket all frames of a big message go to the end of the queue in order, and one write starts iff the queue was empty |
| Statistics.CountersAreSums | HXLibNetwork/HXLibAsioServer.cpp:286-297 | over any run of any connections: completions never outnumber requests, and both counters are the sums over the connections iff fewer than 2^32 packages were sent |
| Statistics.ClampIsIdle | HXLibNetwork/HXLibAsioServer.cpp:289-291 | up to then the clamp never takes effect |
| Statistics.WrapClamps | HXLibNetwork/HXLibAsioServer.cpp:289-291 | a run after whose 2^32 sends the first completion is clamped away |
| Coding.ReplayStream | HXLibNetwork/HXLibMessageQueue.cpp:62-80 | a big message's frames deliver nothing before the last and the message at the last, and none throws |
| Coding.PrefixDelivers | HXLibNetwork/HXLibMessageQueue.cpp:62-81 | any prefix of consecutive messages' frames delivers exactly the messages wholly in it |
| EndToEnd.StepKeeps | HXLibNetwork/HXLibAsioServer.cpp:307-335 | every step of senders, writer, wire and the client's handlers keeps the link invariant |
| EndToEnd.SendIsSendAll | HXLibNetwork/HXLibAsioServer.cpp:307-335 | in any run the steps of one Send, uninterrupted, leave the connection as SendAll, the contract of SendBig, does |
| EndToEnd.PrefixDelivery | HXLibNetwork/HXLibAsioClient.cpp:92-108 | in every reachable state the client has delivered off the wire a prefix of the accepted messages in mutex order, exactly those wholly read, byte for byte; the rest of its queue are its own connect, failure and disconnect notices; its swapped buffers show both as DoubleBuffering says; its read handler never breaks |
| EndToEnd.QuiescentDelivery | HXLibNetwork/HXLibAsioServer.cpp:307-335 | an open link at rest has delivered every accepted message |
| Pool.JoinTakesLowestFree | HXLibNetwork/HXLibAsioServer.cpp:216-258 | Join fails exactly when all slots are occupied, else takes the lowest free one and no other, and keeps the pool invariant |
| Pool.LeaveFreesSlot | HXLibNetwork/HXLibAsioServer.cpp:259-274 | Leave frees exactly the session's slot and counts it off; a second Leave does nothing |
| Pool.AddressesHolderOrFree | HXLibNetwork/HXLibAsioServer.cpp:373 | the test on a handle passes iff its slot holds it or, with serial number 0, is free |
| Pool.ContextReturns | HXLibNetwork/HXLibAsioServer.cpp:370-389 | the context set is the one got, by that handle and no other, and nothing else changes |
| Pool.ContextOutlives | HXLibNetwork/HXLibAsioServer.cpp:224-274 | Leave and Join keep a slot's context, so the next session in it finds the last one's |
| Sessions.PoolInvariant | HXLibNetwork/HXLibAsioServer.cpp:216-274 | over any run: occupied iff nonzero id iff link, counter equals occupied slots, each session with a handle is the link of exactly its slot, the serial number is the Join count modulo 32767 |
| Sessions.HandlesIdentifySessions | HXLibNetwork/HXLibAsioServer.cpp:328-331 | sessions that hold handles hold different ones, and a handle addresses its own session |
| Sessions.StaleHandle | HXLibNetwork/HXLibAsioServer.cpp:221-229 | a left session's handle addresses a session iff it was issued again, never within 32767 Joins |
| Sessions.HandleReturns | HXLibNetwork/HXLibAsioServer.cpp:221-229 | that window is tight |
| Sessions.SessionTraces | HXLibNetwork/HXLibAsioServer.cpp:246-285 | in every run, whatever ids peers send: by origin, the packages of every nonzero handle read Connect, data, Disconnect, repeated, open exactly while a session holds it; within 32767 Joins no handle connects twice |
| Sessions.IdsTellTheTruthIff | HXLibNetwork/HXLibAsioServer.cpp:77-86 | the traces read by ids alone are in order throughout a run iff no session holding a handle delivered a reserved id |
| Sessions.ImpostorConnectsTwice | HXLibNetwork/HXLibAsioServer.cpp:84-85 | a run in which a peer's package makes its handle connect twice by ids |
| Sessions.Demultiplexing | HXLibNetwork/HXLibAsioServer.cpp:77-86 | each session's data arrives as if its frames had been read alone |
| Sessions.SessionDelivers | HXLibNetwork/HXLibAsioServer.cpp:77-86 | so the server receives from each session the messages its peer sent whole, in order |
| Sessions.SessionOverrunsIff | HXLibNetwork/HXLibMessageQueue.cpp:67-75 | in every run a session's next frame overruns iff it completes and the session's last Begin is not honest |
| Sessions.LiarOverruns | HXLibNetwork/HXLibMessageQueue.cpp:72-74 | a possible run after which an End frame completes a message of 100 bytes over a block of one |
| Uplink.UplinkDelivery | HXLibNetwork/HXLibAsioClient.cpp:276-295 | whatever becomes of the link and the other sessions: the server has delivered from a session exactly the messages its client's Send took and it wholly read, a prefix in order, byte for byte, and the next frame does not break its reader |
| Uplink.UplinkAtRest | HXLibNetwork/HXLibAsioClient.cpp:276-295 | with nothing on its way, everything taken has been delivered |
| Uplink.TakeAndHandIsSend | HXLibNetwork/HXLibAsioClient.cpp:276-295 | a message is taken iff there is a connection and it is not refused; taking it and writing every frame leaves the client as its Send does |
| Sessions.ApplicationView | HXLibNetwork/HXLibMessageQueue.cpp:47-103 | the server application's swapped buffers show what the handlers of all sessions queued, in order, losing exactly what DoubleBuffering says |
| ServerObjects.Connection.Send | HXLibNetwork/HXLibAsioServer.cpp:47-63 | the send step of Writer |
| ServerObjects.Connection.HandleWrite | HXLibNetwork/HXLibAsioServer.cpp:106-130 | the pop and restart steps of Writer, for any outstanding write whose bytes are out |
| ServerObjects.Server.constructor | HXLibNetwork/HXLibAsioServer.cpp:163-171 | an empty pool |
| ServerObjects.Server.JoinSlot | HXLibNetwork/HXLibAsioServer.cpp:218-245 | the slot loop computes the Join of Pool |
| ServerObjects.Server.Join | HXLibNetwork/HXLibAsioServer.cpp:216-258 | and queues a Connect package exactly on success |
| ServerObjects.Server.Start | HXLibNetwork/HXLibAsioServer.cpp:33-46 | the connection takes its handle, or is closed when the pool is full |
| ServerObjects.Server.LeaveSlot | HXLibNetwork/HXLibAsioServer.cpp:261-274 | the Leave of Pool, and the connection's handle is zero afterwards |
| ServerObjects.Server.Leave | HXLibNetwork/HXLibAsioServer.cpp:259-285 | and queues a Disconnect package exactly if it held a handle |
| ServerObjects.Server.HandleReadBody | HXLibNetwork/HXLibAsioServer.cpp:77-96 | a heartbeat is only echoed, anything else only queued with the connection's handle |
| ServerObjects.Server.Send | HXLibNetwork/HXLibAsioServer.cpp:326-335 | sends on the addressed connection only, true iff there is one |
| ServerObjects.Server.SendBig | HXLibNetwork/HXLibAsioServer.cpp:307-325 | true iff the handle addresses a connection and not both loss is allowed and its counted backlog reached the limit; then all frames in order, else none |
| ServerObjects.Server.Close | HXLibNetwork/HXLibAsioServer.cpp:355-369 | closes the addressed connection only; the pool is unchanged |
| ServerObjects.Server.SetContext | HXLibNetwork/HXLibAsioServer.cpp:370-376 | sets the context that ContextReturns is about, a free slot's included |
| ServerObjects.Server.GetContext | HXLibNetwork/HXLibAsioServer.cpp:379-389 | the addressed slot's context |
| Monitor.RunsLoseNoWakeup | CenterServer/MsgQueue.h:18-42 | for any threads: bounded FIFO; while a getter waits un-signalled items do not outnumber woken getters, while a putter does free slots do not outnumber woken putters |
| Monitor.DeadlockIffNoCapacity | CenterServer/MsgQueue.h:52-60 | putters and getters can all be blocked at once iff the capacity is 0 |
| Monitor.MsgQueue.PutSection | CenterServer/MsgQueue.h:18-28 | one mutex tenure of put is the put step: wait when full, else append and wake one getter if any waits |
| Monitor.MsgQueue.GetSection | CenterServer/MsgQueue.h:30-42 | likewise for get |
| Verifier.NestedRoundTrip | CenterServer/UserVerifier.cpp:71-83 | the package nested in a body is read back as it was copied |
| Verifier.ReplyNamesRequester | CenterServer/UserVerifier.cpp:69-87 | a reply goes back over the request's link and names its user and user link |
| Verifier.PipelineConserves | CenterServer/UserVerifier.cpp:25-66 | sent, held, queued and held are together the replies to what was taken in, in order; both queues within 10000 |
| Verifier.BlockedMeansDone | CenterServer/UserVerifier.cpp:31-66 | both threads are blocked only when everything put in was answered |
| Verifier.UserVerifier.AddMsgPackage | CenterServer/UserVerifier.cpp:25-29 | a put on the in queue |
| Verifier.UserVerifier.VerifyUserID | CenterServer/UserVerifier.cpp:69-87 | builds the reply of ReplyNamesRequester |
| Verifier.UserVerifier.HandleQueueIn | CenterServer/UserVerifier.cpp:31-56 | one tenure of the in thread: take and reply, or put the held reply |
| Verifier.UserVerifier.HandleQueueOut | CenterServer/UserVerifier.cpp:58-67 | one tenure of the out thread: take, or send |
| Heartbeat.StepKeepsOneBeat | HXLibNetwork/HXLibAsioClient.cpp:220-241 | every step keeps: one beat under way exactly while the flag is up, carrying the recorded time, unless its echo was dropped |
| Heartbeat.HeartbeatRuns | HXLibNetwork/HXLibAsioClient.cpp:220-241 | over any run that holds, beats are sent more than half a second apart, and the delay is half of the last round trip and not negative |
| ClientState.DoublesExist | HXLibNetwork/HXLibAsioClient.cpp:235-238 | the assumptions on how a double is laid out can be met, for every multiple of 1/1024 below 2^22 |
| ClientState.SendsWriteAllOrNothing | HXLibNetwork/HXLibAsioClient.cpp:211-219 | both Sends write all their frames, in order, iff they take the message, and else nothing |
| HeartbeatLink.StepMirrors | HXLibNetwork/HXLibAsioClient.cpp:92-145 | every step of the link of frames (posting, writing, completions, failures and closes on both sides, the server's echo, the client's reader) is a step of Heartbeat or changes nothing it looks at, and keeps both write chains |
| HeartbeatLink.HeartbeatsOnTheLink | HXLibNetwork/HXLibAsioClient.cpp:220-261 | over any run of a link: exactly one heartbeat frame with the recorded time is on its way while the flag is up, none while it is down or after a dropped echo; sends spaced, delay half of the last round trip |
| HeartbeatLink.BeatsWhenHeartbeatDoes | HXLibNetwork/HXLibAsioClient.cpp:227-229 | the test of SwapQueue passes iff connected and Heartbeat's passes |
| HeartbeatLink.ConnectedUntil | HXLibNetwork/HXLibAsioClient.cpp:147-158 | over any run the client is connected exactly until a write fails or the connection is closed |
| HeartbeatLink.BeatReturnsWhole | HXLibNetwork/HXLibAsioServer.cpp:86-94 | the server's answer to a client's heartbeat is that heartbeat |
| HeartbeatLink.StepUpward | HXLibNetwork/HXLibAsioClient.cpp:116-145 | every step keeps: what the client wrote is what the server read followed by wire, unsent queue and posted calls, in order |
| HeartbeatLink.ClientRefusalIsRightIff | HXLibNetwork/HXLibAsioClient.cpp:276-287 | in every reachable state the client's refusal agrees with all it took and has not completed for every limit iff no do_write call is waiting and the bytes counted fit 32 bits |
| ClientObjects.Client.HandleConnect | HXLibNetwork/HXLibAsioClient.cpp:46-74 | connected iff no error, and exactly the notice of EndToEnd is queued |
| ClientObjects.Client.SendBig | HXLibNetwork/HXLibAsioClient.cpp:276-295 | true iff connected and not both loss is allowed and the queue's bytes cut to 32 bits reach the limit; then all frames are posted in order, else none |
| ClientObjects.Client.DoWrite | HXLibNetwork/HXLibAsioClient.cpp:116-126 | the do_write step of the link, keeping the client's write chain |
| ClientObjects.Client.HandleWrite | HXLibNetwork/HXLibAsioClient.cpp:128-145 | the completion or failure step of the link, keeping the chain; a failure queues one Disconnect |
| ClientObjects.Client.HandleReadBody | HXLibNetwork/HXLibAsioClient.cpp:92-108 | the read step of the link: a heartbeat only updates flag and delay, anything else only goes through the reassembler |
| ClientObjects.Client.SwapQueue | HXLibNetwork/HXLibAsioClient.cpp:225-261 | posts one heartbeat with the current time iff connected, none is outstanding and more than half a second has gone since the last, which are the test, arm and post steps of the link; and hands out the filled queue |

## Left out

- Wire.DecodeHeader: a Begin or End body shorter than 17 bytes reads zeros here, where the source reads what its buffer last held; `Verifier.ReadNested` and a completed message read out of its End package, within its 32768 bytes, are treated the same way.
- Wire.Frame: a body has at most 32768 bytes. The source checks neither the length that a peer puts into a header (HXLibNetwork/HXLibAsioServer.cpp:68, HXLibNetwork/HXLibAsioClient.cpp:82) nor that of the data given to `Send` (HXLibNetwork/HXLibAsioServer.cpp:348-350); runs with longer or negative ones are not modelled.
- BigMessage.FramesKeepToTheirSlice: lengths and offsets are exact and not negative, where the source computes with `int`; bodies of negative length and claimed sizes above 2^31 - 1 are not covered.
- BigMessage.BigMessageQueue.RecvPackage: offsets are exact integers, so headers that claim more than 2^31 - 1 bytes do not overflow the source's `int` arithmetic; the debug `assert` is not modelled.
- MessageQueues.MessageQueueAB.Add: where the copy of a completed message would leave its block it reports that and promises nothing about the queues; so do both `HandleReadBody` methods.
- Sessions.ApplicationView: a frame on which the read handler breaks, by an exception or by such a copy, is no step, and no run goes on after it.
- EndToEnd.PrefixDelivery: messages that are not `Restorable` and plain messages that use stream or heartbeat ids are not sent.
- Handles with serial number 0: free slots carry it too, and the source would follow a null link, so `Send` and `Close` require another; `SetContext` and `GetContext` take it.
- HeartbeatLink.HeartbeatsOnTheLink: times are compared and subtracted as reals, without rounding.
- Packages pushed with a non-null `bigDataPointer`: a fresh package has none.
- Boost.Asio sockets, resolver, accept loop, `Start` and `Stop` of the services, and the lifetime of write buffers.
- zlib's inside; the FPS and bandwidth statistics; log output.
- Several application threads sending on one client, whose `Send` takes no lock.
- `MsgQueue::isFull`, which nothing calls.
- The database client, configuration reader, user and scene managers and the test client: wrappers and application logic.
