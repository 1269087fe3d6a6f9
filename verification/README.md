# Verified model of the mdsd log shipper

The shipper takes log items, frames them, sends them to a local daemon over a stream socket, keeps
every unacknowledged item in a cache, resends the cache from time to time, and drops an item when
the daemon acknowledges it or when it has waited too long. This project models that behaviour in
Dafny and proves what it keeps over every run:

- **Delivery** (`ConcurrentQueue.dfy`, `ConcurrentMap.dfy`, `CacheProtocol.dfy`,
  `BufferedLogger.dfy`, `SenderExit.dfy`, `UnsentItems.dfy`, `SocketLogger.dfy`, `Workers.dfy`,
  `Clock.dfy`). `CacheProtocol` is a state machine with
  one step per mutex-protected operation of the reader and the resender, a clock that ticks at will
  and a 32-bit age test; `BufferedLogger` adds the producers and the sender thread with a program
  counter, `SocketLogger` any number of callers of `SendDjson`. Every sequence of actions is a run:
  an action that cannot happen changes nothing. `Workers` holds the same bodies as classes over the
  real queue and cache, run by one thread undisturbed.
- **Connection** (`SocketClient.dfy`, `SocketClientProofs.dfy`, `MessageBytes.dfy`,
  `SocketCalls.dfy`, `SteadySends.dfy`, `TornMessage.dfy`, `SocketLoops.dfy`). `SocketClient` lets any number of threads connect, close, stop, send and read,
  interleaving at every lock operation, system call and read of an atomic field; system calls
  succeed, fail, ask for a retry or take part of a buffer at will. `SocketLoops` has the retry,
  sleep and partial-send loops with their C++ arithmetic.
- **Wire format** (`Text.dfy`, `Frames.dfy`, `MockServer.dfy`, `DataReader.dfy`,
  `AckRoundTrip.dfy`, `DjsonLogItem.dfy`, `DjsonReader.dfy`). Framing, the peer's tag scan with its leftover, the
  reader's line splitting with its partial string, both directions end to end, and an independent
  reader of the payloads.
- **Schemas** (`SchemaCache.dfy`, `SchemaRuns.dfy`, `RubySchema.dfy`, `RubyReader.dfy`). The schema caches of the C++
  library and of the Ruby plug-in, keyed by concatenations, under interleaved use.

Where a promise is false of the code, the code is kept, a failure at a concrete input or in a
concrete run is proved, and so is the exact condition under which the promise holds:

- The schema keys collide: `SchemaCache.KeyCollision` and `RubySchema.HashKeyCollision` give inputs;
  `SchemaRuns.TransparentIffCollisionFree` and `RubySchemaRuns.FaithfulIffCollisionFree` are the
  conditions. An item without fields throws (`SchemaRuns.NoFieldsThrows`), and so is part of the
  first condition.
- `src/outmdsd/SocketClient.h:140` says the send mutex avoids interleaved messages.
  `TornMessage.MessagesCanBeTorn` is a run in which it does not, since the mutex does not stop
  another thread from replacing the descriptor between two partial sends;
  `SocketClientProofs.StreamsAreWholeMessages` is the condition, and
  `SteadySends.SteadySchedulesKeepMessagesWhole` says which schedules meet it.
- `src/outmdsd/BufferedLogger.h:65` promises that `WaitUntilAllSend` returns true if all items are
  sent; the code returns true when the sender has left `Run`.
  `UnsentItems.AcknowledgementCanEndTheSender` is a run in which the resender sends an item first and
  its acknowledgement, between `Add` and `Get`, ends the sender with an exception, a queued item
  unattempted; `UnsentItems.SocketFailureLosesTheItem` is one in which the queue drains regularly and
  nothing was sent. `SenderExit.AllSentIff` is the condition, `SenderExit.GetThrowsIffErased` and
  `DjsonItems.ComposingThrowsIffNoFields` say when the exceptions come.
- `src/fluent-plugin-mdsd/lib/fluent/plugin/out_mdsd.rb:85-86` takes the emit time for the last
  item of the record. `RubySchema.TimeFieldMissed` is a record for which it is not,
  `RubySchema.LeadingIndexIsTimeField` the condition.
- Data with a NUL is cut short, both when sent and when read: `Frames.NulCutsTheFrame` and
  `Reading.NulCutsTheChunk`, with `Frames.TransmissionDecodesIffNulFree` and
  `Reading.ChunksReadAsWholeIffNulFree` as conditions.
- `src/outmdsd/DjsonLogItem.h:20-25` calls the payload JSON, but strings are not escaped:
  `DjsonReader.QuotesAreAmbiguous` gives two items no reader can tell apart, and
  `DjsonReader.FirstFrameReadsBack` shows that quote-free text reads back.
- A comma in a source name makes the peer read a wrong id: `AckRoundTrip.CommaMisleadsThePeer`, with
  `AckRoundTrip.CommaInSource` as condition.

## Model

| member | source | states |
|---|---|---|
| Queues.ConcurrentQueue.PushItem | src/outmdsd/ConcurrentQueue.h:68-76 | the new queue and history are those of one bounded push; stays a suffix of the pushes within its bound |
| Queues.ConcurrentQueue.WaitAndPop | src/outmdsd/ConcurrentQueue.h:79-88 | takes the oldest item; nothing exactly when the queue is empty and stopped, and then nothing changes |
| Queues.ConcurrentQueue.StopOnceEmpty | src/outmdsd/ConcurrentQueue.h:142-147 | sets the flag and leaves the items alone |
| Queues.PushDropsOldestIffFull | src/outmdsd/ConcurrentQueue.h:149-151 | a push drops an item, the oldest, exactly when the queue is at its nonzero bound |
| Queues.PopTakesOldest | src/outmdsd/ConcurrentQueue.h:86-87 | a pop appends the oldest item to the popped subsequence and drops none |
| Queues.PushesPartition | src/outmdsd/ConcurrentQueue.h:58-66 | every push is popped, dropped or still queued, each exactly once |
| QueueWaiting.NoLostWakeup | src/outmdsd/ConcurrentQueue.h:78-101 | under every interleaving with spurious wake-ups: while a consumer sleeps un-notified the queue holds no more items than there are notified consumers, and after a stop none sleeps |
| QueueWaiting.EvaluationTakesOldest | src/outmdsd/ConcurrentQueue.h:82-87 | a consumer that evaluates takes the oldest item whenever there is one, stopped or not, leaves empty-handed exactly when empty and stopped, and sleeps exactly when empty and not stopped |
| QueueWaiting.QueueIsBoundedSuffix | src/outmdsd/ConcurrentQueue.h:68-101 | after every interleaving the queue is a suffix of the pushes within its bound and every push is accounted for |
| ConcurrentMaps.ConcurrentMap.Add | src/outmdsd/ConcurrentMap.h:61-69 | replaces or adds one entry; an empty key is refused |
| ConcurrentMaps.ConcurrentMap.Erase | src/outmdsd/ConcurrentMap.h:73-82 | removes exactly that key and reports whether it was there |
| ConcurrentMaps.ConcurrentMap.EraseAll | src/outmdsd/ConcurrentMap.h:86-100 | removes exactly the listed keys; the count is the number of entries that went, whatever the list repeats |
| ConcurrentMaps.ConcurrentMap.FilterEach | src/outmdsd/ConcurrentMap.h:103-114 | the keys of exactly the values that satisfy the test, none twice |
| CacheProtocol.ExpiredMeansOverdue | src/outmdsd/DataResender.cc:113-119 | the age test through int and back never fires early, and is exact below 2^32 ms |
| CacheProtocol.NextTagIsNew | src/outmdsd/LogItem.h:23-27 | the next tag differs from every tag handed out before |
| CacheProtocol.StepKeepsInv | src/outmdsd/DataResender.cc:107-153 | every step of clock, constructor, reader and resender keeps conservation, unique tags, ages bracketed between snapshot and now, and brings nothing erased back |
| CacheProtocol.SharedStepsOnlyErase | src/outmdsd/DataReader.cc:162-177 | reader and resender only ever remove from the cache |
| CacheProtocol.AckLineErases | src/outmdsd/DataReader.cc:136-160 | a line read erases exactly the key it names bare or with status "0" |
| CacheProtocol.OtherStatusChangesNothing | src/outmdsd/DataReader.cc:222-226 | a line with any other status leaves everything as it was |
| BufferedLogger.StepKeepsInv | src/outmdsd/DataSender.cc:55-103 | every step of sender, producers, reader, resender and clock keeps the full accounting of every item |
| BufferedLogger.NoSilentLoss | src/outmdsd/DataSender.cc:61-95 | in every reachable state each item given to AddData is in exactly one place: queued, overflow-dropped, in the sender's hand, cached, acknowledged, aged out, abandoned at the interrupt point or, without a cache, attempted or refused by a throwing GetData; nothing else is anywhere |
| BufferedLogger.NoEarlyDrop | src/outmdsd/DataResender.cc:121-128 | whatever the resender erases had been untouched for more than the timeout, by the clock at the erase, though judged on an older copy |
| BufferedLogger.QueueTimeDoesNotCount | src/outmdsd/DataSender.cc:83-85 | however long an item waited in the queue, the resender erases it only when, by the clock, more than the timeout has passed since the sender touched it |
| BufferedLogger.OverdueItemsAreDropped | src/outmdsd/LogItem.h:47-51 | the other direction, by the clock: what had been untouched for at least timeout + 1 ms at the snapshot, and for less than 2^32 ms now, is not cached after the erase |
| BufferedLogger.ResendRoundsAreComplete | src/outmdsd/DataResender.cc:134-147 | a resend round starts from what is cached after the erase and ends with a failure or when every item of that copy has been handed to the socket in it |
| BufferedLogger.CachedBeforeTransmitted | src/outmdsd/DataSender.cc:79-91 | with a cache, whatever is transmitted, first or again, was added to the cache before |
| BufferedLogger.NoResurrection | src/outmdsd/DataResender.cc:134-147 | an acknowledged or aged-out tag is never cached again, even while stale copies are resent |
| BufferedLogger.Drain | src/outmdsd/BufferedLogger.cc:84-93 | when the sender left through the aborted queue, each item neither dropped nor pushed too late was attempted exactly once, m_numSend is the pushes minus the drops, and without late pushes the queue is empty |
| BufferedLogger.CountersAgree | src/outmdsd/DataSender.cc:108-121 | in every reachable state m_numSuccess <= m_numSend, which counts the attempts, and no item has two |
| BufferedLogger.AckBeforeGetEndsTheSender | src/outmdsd/DataSender.cc:87-102 | from any reachable state before either Get, an acknowledgement of the item followed by a sender step ends the sender for good, with nothing attempted any more in any continuation |
| SenderExit.GetThrowsIffErased | src/outmdsd/ConcurrentMap.h:133-144 | at either Get the sender's next step ends it with an exception if and only if the item has been acknowledged or has expired |
| SenderExit.FailureHasReason | src/outmdsd/DataSender.cc:97-102 | a sender ended by an exception left an item unattempted that had been acknowledged, had expired or whose GetData threw |
| SenderExit.AllAttemptedIff | src/outmdsd/DataSender.cc:61-103 | once the sender has left Run, every push was dropped or attempted if and only if the queue is empty and nothing was left unattempted |
| SenderExit.AllSentIff | src/outmdsd/BufferedLogger.cc:84-93 | and every push was dropped or really sent if and only if moreover m_numSuccess equals m_numSend |
| SenderExit.DeliveredIsWhatTheSocketTook | src/outmdsd/DataSender.cc:112-117 | m_numSuccess counts exactly the steps at which Send did not throw |
| SenderExit.AttemptedIsTransmitted | src/outmdsd/DataSender.cc:87-91 | whatever counts as attempted has been handed to the socket |
| SenderExit.ResendsAreCounted | src/outmdsd/DataResender.cc:139-145 | the resender's m_totalSend counts exactly its successful sends |
| SenderExit.StopEndsTheSender | src/outmdsd/DataSender.cc:47-53 | after Stop the sender attempts at most the one item it was about to send, however many are queued |
| UnsentItems.AcknowledgementCanEndTheSender | src/outmdsd/DataSender.cc:83-90 | for every cached configuration: a run nobody stops in which resend and acknowledgement come between Add and Get, the sender fails and a queued item stays unattempted |
| UnsentItems.SocketFailureLosesTheItem | src/outmdsd/DataSender.cc:118-120 | for every uncached configuration: a run nobody stops that drains regularly and sent nothing |
| SocketLogger.StepKeepsInv | src/outmdsd/SocketLogger.cc:64-104 | every step of every caller and of the other threads keeps each call's relation between its place and the cache |
| SocketLogger.SendDjsonOutcome | src/outmdsd/SocketLogger.cc:106-137 | ever after: false means the item is not cached; true means it is exactly one of cached, acknowledged, expired, and never rolled back |
| SocketLogger.TrueIffSent | src/outmdsd/SocketLogger.cc:122-136 | a call returns true if and only if its Send did not throw |
| SocketLogger.TotalSendCounts | src/outmdsd/SocketLogger.cc:79-80 | m_totalSend is the number of sends that did not throw |
| SocketLogger.TrueIsTransmitted | src/outmdsd/SocketLogger.cc:92-95 | a call that returned true has handed its item to the socket |
| SocketLogger.AgeCountsFromTouch | src/outmdsd/SocketLogger.cc:86-88 | by the clock, the resender erases an item only when more than the timeout has passed since its call touched it |
| SocketLogger.OverdueItemsAreDropped | src/outmdsd/DataResender.cc:123-128 | and after its erase nothing overdue at the snapshot is cached |
| SocketLogger.CachedBeforeTransmitted | src/outmdsd/SocketLogger.cc:82-103 | as for the buffered logger, with any number of callers and rollback |
| Workers.DataResender.DropOverdue | src/outmdsd/DataResender.cc:112-128 | by its own clock reading, every item dropped was untouched for more than the timeout, and every item kept was not, unless untouched for 2^32 ms; the kept ones are unchanged |
| Workers.DataResender.SendEach | src/outmdsd/ConcurrentMap.h:125-129 | sends the copy's items, none twice: all of them, or up to and including the first failure; counts the successes |
| Workers.DataResender.ResendData | src/outmdsd/DataResender.cc:107-153 | both together: drops the overdue items and sends each of the others once until a failure |
| Workers.SocketLogger.SendData | src/outmdsd/SocketLogger.cc:64-104 | success leaves the item cached, failure leaves the cache without it and rethrows |
| Workers.DataSender.Run | src/outmdsd/DataSender.cc:55-103 | after stop_once_empty: takes the items up to one whose GetData throws, attempts each but that one once, counts the successes exactly, and leaves all it took cached |
| Workers.BufferedLogger.AddData | src/outmdsd/BufferedLogger.cc:72-82 | refuses null; otherwise one bounded push |
| Workers.BufferedLogger.WaitUntilAllSend | src/outmdsd/BufferedLogger.cc:84-93 | returns whether the sender finished in time; if it did, everything queued was taken and cached up to an item whose GetData throws, else the queue is as it was |
| SocketClientProofs.StepKeepsInv | src/outmdsd/SocketClient.cc:52-94 | every step of every thread keeps mutual exclusion, the descriptor life cycle, the finality of Stop and the shape of the streams |
| SocketClientProofs.DescriptorLifeCycle | src/outmdsd/SocketClient.cc:118-171 | every descriptor from socket() is the current one or closed exactly once; at most one is open |
| SocketClientProofs.StopIsFinal | src/outmdsd/SocketClient.cc:52-68 | once any Stop has returned, m_sockfd is invalid for ever and no descriptor is open, although the flag is set outside m_fdMutex |
| SocketCalls.StopStops | src/outmdsd/SocketClient.cc:57-67 | when the thread of any Stop is idle again, the client is stopped and has no descriptor, then and ever after |
| SocketCalls.FailedCallCloses | src/outmdsd/SocketClient.cc:310-314 | after a Send or Read whose system call fails for good, the descriptor current at the failure has been closed by the time the thread is idle |
| SocketCalls.CloseCloses | src/outmdsd/SocketClient.cc:155-171 | so it has after any Close |
| SocketCalls.ConnectEndsConnected | src/outmdsd/SocketClient.cc:130-152 | Connect ends with a valid descriptor unless the client is stopped or the retries have timed out |
| SocketCalls.SendHasOneOutcome | src/outmdsd/SocketClient.cc:287-315 | every Send of an unstopped client has either returned with all its bytes out or thrown by the time its thread is idle, never both |
| SocketClientProofs.StreamsAreWholeMessages | src/outmdsd/SocketClient.cc:249-270 | every stream is whole messages, at most one cut short and that one last, if and only if no send moved to another descriptor in mid-message |
| SocketClientProofs.CleanBytes | src/outmdsd/SocketClient.cc:254-269 | the same byte by byte: complete texts one after the other, then a prefix of one |
| SocketClientProofs.NormalReturnDelivers | src/outmdsd/SocketClient.cc:227-271 | a normal return of an unstopped SendData whose message never moved to another descriptor means the whole message is in one piece on its descriptor's stream, whatever happened to other messages |
| MessageBytes.AllBytesGoOut | src/outmdsd/SocketClient.cc:249-271 | after any normal return of an unstopped SendData all bytes of the message are out, each once and in order, descriptor after descriptor, however often it moved |
| MessageBytes.InProgressIsPrefix | src/outmdsd/SocketClient.cc:254-269 | at any time exactly the first total bytes of a message in progress are out, in order |
| SteadySends.SteadySchedulesKeepMessagesWhole | src/outmdsd/SocketClient.cc:250-254 | if m_sockfd never changes while a thread is between first and last byte, every stream is whole messages with only the last cut short |
| TornMessage.MessagesCanBeTorn | src/outmdsd/SocketClient.cc:250-254 | without the condition atomicity is false: a run nobody stops in which a close and a connect tear a message |
| SocketLoops.StepBound | src/outmdsd/SocketClient.cc:363-367 | the exponential step is between 100 and 51200 for every attempt count |
| SocketLoops.StepDoubles | src/outmdsd/SocketClient.cc:366-367 | the step starts at 100 ms and doubles with each attempt up to the tenth |
| SocketLoops.DelayIsNotShort | src/outmdsd/SocketClient.cc:364-369 | the delay is at least 0.75 times the step or what is left to wait, but for rounding |
| SocketLoops.DelayBound | src/outmdsd/SocketClient.cc:364-369 | a delay is at most 1.25 times what is left to wait; a bound that wrapped negative gives none |
| SocketLoops.SocketClient.WaitBeforeReConnect | src/outmdsd/SocketClient.cc:356-381 | the slices sum to the delay unless stopped, never exceed it, and each is at most 100 ms |
| SocketLoops.SocketClient.Connect | src/outmdsd/SocketClient.cc:118-153 | goes on over failed attempts until one succeeds, the client is stopped or the time is up, with a total sleep of at most 1.25 times the timeout as long as the clock readings stay below 2^32 ms |
| SocketLoops.SocketClient.SendData | src/outmdsd/SocketClient.cc:227-271 | what the socket took is a prefix of the buffer of exactly the length the system calls took; a return is a stop exactly when that is not all; throws exactly when a needed system call fails |
| Reading.SplitJoins | src/outmdsd/DataReader.cc:115-133 | splitting loses nothing: lines with their newlines followed by the tail are the stream |
| Reading.PartsHaveNoNewline | src/outmdsd/DataReader.cc:122 | no line and no tail holds a newline |
| Reading.SplitAppend | src/outmdsd/DataReader.cc:84 | reading a then b with a's tail carried over is reading a + b |
| Reading.GetLineAdvances | src/outmdsd/DataReader.cc:122-126 | each getline on the stream with its eof and fail bits yields the next line or, at the end, the tail |
| Reading.AckedKeyIs | src/outmdsd/DataReader.cc:151-159 | an item acknowledges a key if and only if the key is nonempty, has no colon, and is the item itself or the item before ":0" |
| Reading.AcknowledgedIs | src/outmdsd/DataReader.cc:222-233 | a list of items removes exactly the entries some item acknowledges and changes no other |
| Reading.OtherStatusKeepsTheCache | src/outmdsd/DataReader.cc:222-226 | a tag with any other status leaves the cache as it was |
| Reading.DataReader.ProcessItem | src/outmdsd/DataReader.cc:136-160 | counts a nonempty item and removes exactly the entries it acknowledges |
| Reading.DataReader.ProcessTag | src/outmdsd/DataReader.cc:162-177 | erases exactly a nonempty bare tag |
| Reading.DataReader.ProcessTagWithStatus | src/outmdsd/DataReader.cc:207-234 | erases the tag exactly when its status is "0" |
| Reading.DataReader.ProcessLines | src/outmdsd/DataReader.cc:120-126 | the getline loop processes each complete line once, in order, and never the tail |
| Reading.DataReader.ProcessData | src/outmdsd/DataReader.cc:102-134 | processes all complete lines and returns the tail; the trailing ProcessItem is unreachable |
| Reading.DataReader.DoRead | src/outmdsd/DataReader.cc:65-92 | bytes read act as the partial string followed by the buffer up to its first NUL; retries, end of file and socket exceptions change nothing; a stop ends the reader |
| Reading.DataReader.Run | src/outmdsd/DataReader.cc:44-63 | over any outcomes of reads, across failures and reconnects, items, cache and final partial string are those of the one concatenated stream received before the stop |
| Reading.ChunksReadAsWholeIffNulFree | src/outmdsd/DataReader.cc:75-85 | chunk independence holds exactly when no chunk holds a NUL |
| Reading.NulCutsTheChunk | src/outmdsd/DataReader.cc:84 | a chunk with a NUL of whose line nothing is processed |
| Frames.ItemFrameIsCanonical | src/outmdsd/DjsonLogItem.cc:103-113 | the declared length is exactly the byte count after the newline |
| Frames.DecodeExact | src/outmdsd/DjsonLogItem.h:15-30 | decoding by length inverts framing, both ways, whatever the payloads contain |
| Frames.TransmissionDecodesIffNulFree | src/outmdsd/SocketClient.cc:273-285 | the receiver gets exactly the payloads back if and only if no frame holds a NUL |
| Frames.NulCutsTheFrame | src/outmdsd/SocketClient.cc:284 | an item with a NUL whose payload the receiver does not get |
| Peer.ScanAppend | src/test/outmdsd/MockServer.cc:300-315 | scanning a, then its leftover with b, finds what scanning a + b finds, with the same final leftover |
| Peer.GetMsgIdIsFirstId | src/test/outmdsd/MockServer.cc:445-471 | scanning by positions in one buffer agrees with scanning what is left of it |
| Peer.MockServer.ParseMsgIds | src/test/outmdsd/MockServer.cc:473-497 | the loop answers every id of the buffer in order, counts the nonempty ones and leaves the unscanned rest |
| Peer.MockServer.StartReadLoop | src/test/outmdsd/MockServer.cc:230-262 | replies, count and leftover depend only on the concatenated stream, not on the cuts |
| AckRoundTrip.IdsOfFrames | src/test/outmdsd/MockServer.cc:452-468 | in concatenated frames of comma-free sources the scan finds exactly the tags, in order |
| AckRoundTrip.CommaInSource | src/outmdsd/DjsonLogItem.cc:112 | with a comma in the source the scan finds the tag if and only if the text after that comma spells it |
| AckRoundTrip.CommaMisleadsThePeer | src/test/outmdsd/MockServer.cc:457-467 | a source with a comma for which the peer answers another id |
| AckRoundTrip.AcksReadBack | src/outmdsd/DataReader.cc:151-159 | reading the answers erases the answered tags in order and leaves nothing over |
| AckRoundTrip.RoundTrip | src/test/outmdsd/MockServer.cc:300-315 | frames in any chunks, scanned one by one with the leftover carried along, answers in any chunks, through the reader: exactly the tags sent are erased, in order |
| AckRoundTrip.Exchange | src/outmdsd/DataReader.cc:49-55 | the same for the peer and the reader as they run: every tag sent leaves the cache and nothing else does |
| DjsonItems.SchemaIsTyped | src/outmdsd/DjsonLogItem.h:80-129 | AddData yields only the six fixed type names |
| DjsonItems.SameBytesEveryTime | src/outmdsd/DjsonLogItem.cc:8-19 | once GetData has succeeded every later call returns identical bytes, whatever other items do to the schema cache |
| DjsonItems.ComposingThrowsIffNoFields | src/outmdsd/DjsonLogItem.cc:28-41 | the first composition of an item, undisturbed, throws if and only if it has no fields |
| DjsonReader.ValueReadsBack | src/outmdsd/DjsonLogItem.h:80-129 | the type name and text of every value AddData accepts read back to the value, up to the two integer types that share a name |
| DjsonReader.FirstFrameReadsBack | src/outmdsd/DjsonLogItem.cc:28-41 | the frame of a first GetData decodes to one payload that reads back to the item's source, tag, schema id, columns and values, in order |
| DjsonReader.GivenTextReadsBack | src/outmdsd/DjsonLogItem.cc:11-18 | the frame of an item made of text decodes to one payload with its source, its tag and that text |
| DjsonReader.QuotesAreAmbiguous | src/outmdsd/DjsonLogItem.h:123-129 | with quotes in strings two items with different values have one text |
| DjsonItems.DjsonLogItem.GetSchemaCacheKey | src/outmdsd/DjsonLogItem.cc:63-71 | the loop builds the key the injectivity results are about |
| DjsonItems.DjsonLogItem.ComposeSchemaArray | src/outmdsd/DjsonLogItem.cc:73-86 | the loop builds the bracketed list of columns, commas only between them |
| DjsonItems.DjsonLogItem.ComposeDataValue | src/outmdsd/DjsonLogItem.cc:88-101 | the loop builds the bracketed list of values in field order |
| DjsonItems.DjsonLogItem.ComposeSchema | src/outmdsd/DjsonLogItem.cc:43-61 | cached id and schema on a hit, a new dense id and the composed schema on a miss; the insertion never throws |
| DjsonItems.DjsonLogItem.GetData | src/outmdsd/DjsonLogItem.cc:8-41 | item, schema cache and result are those of the memo function the results are about |
| SchemaCache.KeyInjective | src/outmdsd/DjsonLogItem.cc:63-71 | the separator-free key is uniquely decodable for names without "FT_" |
| SchemaCache.KeyCollision | src/outmdsd/DjsonLogItem.cc:66-70 | in general it is not: two fields and one field with one key and different schemas |
| SchemaCache.FoundAgain | src/outmdsd/IdMgr.cc:29-56 | an insertion is found again under its id, gets the same id for the same data and refuses any other from then on, changes no other entry and keeps the ids exactly 1..n |
| SchemaCache.InsertedIdMustBeNext | src/outmdsd/IdMgr.cc:58-76 | an id chosen by the caller keeps the ids exactly 1..n if and only if it is the next one |
| SchemaRuns.TransparentIffCollisionFree | src/outmdsd/DjsonLogItem.cc:43-61 | every interleaving emits each item's own schema and throws nothing, if and only if every item has a field and no two schemas in use collide |
| SchemaRuns.NoFieldsThrows | src/outmdsd/IdMgr.cc:13-15 | an item without fields gives a run that throws |
| SchemaRuns.UnmarkedNamesAreSafe | src/outmdsd/IdMgr.cc:42-55 | for names without "FT_": own schemas, a throw exactly for items without fields, equal ids exactly for equal columns, ids exactly 1..n |
| SchemaRuns.CollisionBreaks | src/outmdsd/IdMgr.cc:19-26 | any two colliding schemas in use give a run that emits the wrong schema |
| RubySchema.HashKeyInjective | src/fluent-plugin-mdsd/lib/fluent/plugin/out_mdsd.rb:176-182 | for comma-free names the hash key determines names and classes |
| RubySchema.HashKeyCollision | src/fluent-plugin-mdsd/lib/fluent/plugin/out_mdsd.rb:178-180 | in general it does not |
| RubySchema.LeadingIndexIsTimeField | src/fluent-plugin-mdsd/lib/fluent/plugin/out_mdsd.rb:82-97 | the number after the schema string's bracket is the place of the emit-time field if and only if the record lacked that key or held it last |
| RubySchema.TimeFieldMissed | src/fluent-plugin-mdsd/lib/fluent/plugin/out_mdsd.rb:91-93 | a record that held the key first, for which it is the place of another field |
| RubySchema.AssignSets | src/fluent-plugin-mdsd/lib/fluent/plugin/out_mdsd.rb:87-92 | an existing key gets the emit time in its place and every other field keeps its own value |
| RubyReader.SchemaStringReadsBack | src/fluent-plugin-mdsd/lib/fluent/plugin/out_mdsd.rb:184-206 | the schema string reads back to the last index and the record's names and types, in order |
| RubyReader.TypesOfClasses | src/fluent-plugin-mdsd/lib/fluent/plugin/out_mdsd.rb:138-148 | exactly which classes have which type |
| RubySchema.SchemaManager.GetSchemaKey | src/fluent-plugin-mdsd/lib/fluent/plugin/out_mdsd.rb:176-182 | the loop builds the key the injectivity result is about |
| RubySchema.SchemaManager.GetNewSchema | src/fluent-plugin-mdsd/lib/fluent/plugin/out_mdsd.rb:184-206 | the loop builds the time index followed by one column per field in order |
| RubySchema.SchemaManager.GetSchemaInfo | src/fluent-plugin-mdsd/lib/fluent/plugin/out_mdsd.rb:155-168 | a hit changes nothing; a miss takes the next id and records the record's own schema |
| RubySchema.MdsdMsgMaker.GetRecordValues | src/fluent-plugin-mdsd/lib/fluent/plugin/out_mdsd.rb:254-268 | the loop builds one value per field in order |
| RubySchema.MdsdMsgMaker.GetSchemaValueStr | src/fluent-plugin-mdsd/lib/fluent/plugin/out_mdsd.rb:228-235 | id and schema of the table entry for this record's key, then the record's values |
| RubySchemaRuns.OneIdOneSchema | src/fluent-plugin-mdsd/lib/fluent/plugin/out_mdsd.rb:155-168 | under every interleaving of the unlocked look-up and insertion one id never stands for two schema strings |
| RubySchemaRuns.FaithfulIffCollisionFree | src/fluent-plugin-mdsd/lib/fluent/plugin/out_mdsd.rb:154-168 | every interleaving returns each record its own schema if and only if no two records in use collide |
| RubySchemaRuns.CommaFreeNamesAreFaithful | src/fluent-plugin-mdsd/lib/fluent/plugin/out_mdsd.rb:154-206 | comma-free names suffice |

## Left out

- System calls (`socket`, `connect`, `poll`, `read`, `send`, `usleep`) are arbitrary outcomes and clock advances; the clock is an input.
- A descriptor is numbered by the `socket()` call that returned it, so reuse of a number by the kernel does not show.
- A descriptor that is closed, or that reported a fatal `poll` or `send` error in mid-message, is taken to accept no more bytes; without this no claim about message boundaries could hold.
- SocketLoops.SocketClient.Connect: the bound is for timeouts an `int` can hold and ends where a clock reading wraps at 2^32 ms; the random factor is a real number in [0.75, 1.25), which holds for the Unix-socket constructor only.
- Queues.ConcurrentQueue.WaitAndPop: starts when the wait is over; the waiting itself is `QueueWaiting`.
- Queues.ConcurrentQueue.StopOnceEmpty: the notification of all waiters is a step of `QueueWaiting`.
- Workers.DataResender.DropOverdue: no other thread comes between snapshot and erase; they do in `CacheProtocol`.
- Workers.DataResender.ResendData: one undisturbed thread, as for `DropOverdue`.
- Workers.SocketLogger.SendData: one undisturbed thread, so that neither `Get` throws; `SocketLogger` has both exceptions.
- Workers.DataSender.Run: one undisturbed thread, so that neither `Get` throws and no interrupt point fires; `BufferedLogger` has all of these.
- Workers.BufferedLogger.WaitUntilAllSend: whether the sender finishes before the timeout is an input.
- DjsonItems.DjsonLogItem.ComposeSchema: one undisturbed call; `SchemaRuns` lets other items insert between look-up and insertion.
- DjsonItems.ComposingThrowsIffNoFields: undisturbed too; under interleaving a key collision also throws, as `SchemaRuns.TransparentIffCollisionFree` says.
- DjsonReader.FirstFrameReadsBack: for an item with fields whose columns the schema cache does not hold with another schema, quote-free source, names and strings, and double texts without separators; for text with quotes no reader can do it in general.
- DjsonReader.ValueReadsBack: values are unbounded numbers, so the 32- and 64-bit widths of the arguments do not show.
- RubyReader.SchemaStringReadsBack: for names without quotes, which the plug-in does not escape either.
- BufferedLogger.OverdueItemsAreDropped: for ages below 2^32 ms, since the age test wraps there.
- SocketClientProofs.NormalReturnDelivers: for messages that were not moved; for the others `MessageBytes.AllBytesGoOut` says where the bytes are.
- SteadySends.SteadySchedulesKeepMessagesWhole: one direction; a schedule that replaces the descriptor in mid-message may still send nothing more of it.
- SocketLogger.SendDjsonOutcome: with a cache; without one a call has no lasting state. The checks for empty arguments come before any shared step and are left out, and since the item is given as text its `GetData` composes no schema and does not throw.
- Reading.DataReader.DoRead: the names of status codes are only logged and are left out.
- Peer.MockServer.StartReadLoop: `MockServer` stands in for the daemon, which is not part of this model; its sockets, end of test, stop flag, restarts, lost connections, data parsing and partial write-backs are left out.
- Each item is given to `AddData` once. Data races in the sense of the C++ memory model are left out: `GetData` and each mutex-protected body are atomic.
- Counters are unbounded: the wrap of 64-bit tags and totals is left out.
- Text of doubles, JSON escaping and Ruby value formatting are given as strings; regular-expression source matching, `record_too_large?`, msgpack and the Fluentd base classes are left out.
- Progress against a silent server: the code promises only to resend until acknowledgement or age-out.
- `try_pop`, copy and move constructors other than the cache snapshot, tracing, socket addresses, the SWIG glue and packaging: the protocol does not use them or they do not affect it.
