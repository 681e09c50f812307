# A verified model of a distributed lock and the Redis client under it

The repository is a Redlock-style distributed mutex (`src/`) on top of a bundled Redis client
(`cpp_redis/`) and its socket library (`cpp_redis/tacopie/`). This project models the five
stateful parts of it in Dafny and proves what they promise.

* **Decoder and encoder** (`Text`, `Resp`, `Grammar`, `Encoding`, `Decoder`, `Failures`, `StrictGrammar`, and the objects in
  `Builders`, `ArrayBuilders`, `ReplyBuilders`, `RedisConnections`). The C++ decoder is a tree of builder objects
  that eat a shared buffer in place and can stop at any byte. `Resp.Run` is that decoder as a resumable function;
  every builder class is proved to reach exactly the state and the unread bytes `Run` gives. `Grammar.WellFormed`
  are the concrete syntax trees the decoder accepts, and it is proved sound and complete for them. `Failures.Hopeless` says of the
  bytes alone when no reply can follow, and decoding fails exactly there, with the failure named. `StrictGrammar.Strict`
  is RESP2 as specified, defined without the decoder; which accepted trees are strict, and which strict trees are
  accepted, is proved exactly.
* **Socket service and TCP client** (`IoServices`, `TcpClients`). Every critical section is one step; a run is any
  interleaving. The classes perform the same sections and are proved equal to the steps.
* **Client pipeline** (`Clients`, `ClientPipelines`). The callback queue as an object, and a machine in which a
  client, both byte streams cut anywhere, and a server that answers in order, with any text of one reply, are composed
  end to end.
* **Timer queue** (`TimeoutQueues`). Any number of workers, pushes, a quit and callers of `WaitUntilAllDone`.
* **The lock** (`RedisStores`, `Releases`, `DMutexes`, `Redlock`, `Refinement`, `LockSteps`). The key store with expiry and error
  replies, where the fate of every command (how long it takes, whether its reply is an error) is settled beforehand and
  a log keeps what was served, the lock object on it, and the protocol as a machine over any number of clients and databases. `Refinement`
  ties the two stores: what a set, an extension, a deletion and a whole release do to the key space is what the steps
  of the protocol do to its store. `LockSteps` ties the objects: with its list and its flags, every section of the lock
  object is a step of the protocol or changes nothing but the time.

Where the C++ code throws, a failure is a value. Where it runs into undefined behaviour (signed overflow, reading
outside the buffer) the failure is `Undefined`, so that no result is claimed there.

## Findings

Statements that do not hold as one would first write them, each with the exact condition under which they do:

* Mutual exclusion needs every competing validity to fit a 32-bit int, since the expiry is sent through `int(...)`
  (`Redlock.MutualExclusion`, `Redlock.TruncationExample`); otherwise a key can expire long before the lease its owner
  computed.
* An acquisition that does not start from an empty list, as `TryLock()` without a timeout may, breaks exclusion in every
  configuration with two able clients and a host (`Redlock.StaleListExclusion`, `Redlock.StaleListExample`).
* A bulk string round-trips up to 2^31 - 3 bytes and no further, because `m_str_size + 2` is computed in `int`
  (`Encoding.RoundTrip`, `RedisConnections.PipelineRoundTrip`).
* How TCP cuts the stream matters for a stream that turns out malformed after complete replies: the chunk that throws
  takes the replies completed in it along (`RedisConnections.DeliveryIndependentOfSlicing`,
  `RedisConnections.FailingStreamExample`).
* A returned `disconnect(true)` is a barrier exactly when its wait ended on the open socket; counted by calls, exactly
  when no other disconnect passed the connection check and some call has waited (`TcpClients.BarrierExact`). A call
  that finds the client down returns at once: a read callback disconnects after a failed read, and the owner's
  `disconnect(true)` then waits for nothing while that callback is executing (`TcpClients.RefusedDisconnect`). With two
  past the check, the waiting one can return late, on a socket the other has closed (`TcpClients.RacingDisconnects`).
* The erasure inside the poll loop never removes a socket (`IoServices.ProcessFdKeeps`).
* A release leaves a key of its client behind exactly on a host that was never reached without an error reply
  (`Releases.LeftBehind`, `Releases.ReleaseCompleteness`). It stops early on an error reply to EXISTS or DEL, and also
  without any error when a key expires between EXISTS and GET (`Releases.AbortCause`, `Releases.AbortLeavesKey`). An
  error reply to GET passes for a wrong value, so that a release may reach its end and leave the key
  (`Releases.QuietErrorLeavesKey`), while one that throws may be complete (`Releases.AbortMayBeComplete`).
* The decoder accepts more than RESP2: numbers without digits, lengths and counts with a minus, nulls other than -1, and
  bulk lengths that only match modulo 2^32; nothing else (`StrictGrammar.StrictExactly`, `StrictGrammar.WrappedLength`,
  `StrictGrammar.WrappedNull`, `StrictGrammar.EmptyNumber`).

## Model

| member | source | states |
|---|---|---|
| Text.FindCrlf | cpp_redis/sources/builders/simple_string_builder.cpp:39-41 | the result is the first line terminator, or there is none |
| Text.ToInt32 | cpp_redis/sources/builders/bulk_string_builder.cpp:56 | the conversion to int keeps the value modulo 2^32 |
| Text.Decimal | cpp_redis/sources/network/redis_connection.cpp:100-103 | the numeral written for a size reads back as that size |
| Resp.RunResumes | cpp_redis/sources/builders/builders_factory.cpp:36-53 | a builder of any kind, fed two pieces one after the other, ends in the state and with the bytes it has when fed both at once |
| Resp.RowsResume | cpp_redis/sources/builders/array_builder.cpp:60-93 | the same for an array interrupted inside any row, at any nesting depth |
| Resp.Run | cpp_redis/sources/builders/array_builder.cpp:80-93 | every completed reply has consumed at least one byte, and no step gives bytes back |
| Grammar.DecodesWire | cpp_redis/sources/builders/builders_factory.cpp:36-53 | completeness: an accepted tree followed by any bytes is decoded to its value and leaves those bytes |
| Grammar.DecodesArray | cpp_redis/sources/builders/array_builder.cpp:37-93 | an array text of any depth decodes to the array of its elements, in order |
| Grammar.DecodesBulk | cpp_redis/sources/builders/bulk_string_builder.cpp:47-92 | a length-prefixed payload, whatever bytes it contains, decodes to itself |
| Grammar.RunAccounts | cpp_redis/includes/cpp_redis/builders/builder_iface.hpp:41-48 | every byte a builder consumed belongs to the tree read so far; a completed tree is one of the accepted ones and has the delivered value |
| Grammar.ArrayAccounts | cpp_redis/sources/builders/array_builder.cpp:37-58 | soundness for a negative, zero and positive row count |
| Grammar.RowsAccount | cpp_redis/sources/builders/array_builder.cpp:60-93 | soundness for rows: suspended or completed, the consumed bytes are exactly the text of the rows so far |
| Grammar.BulkRead | cpp_redis/sources/builders/bulk_string_builder.cpp:80-92 | the same for bulk strings, whose accepted lengths are those the 32-bit conversion makes fit |
| Encoding.IntegerLineExact | cpp_redis/sources/builders/integer_builder.cpp:47-64 | a digit line, leading zeros and a minus allowed, is read as its exact value if and only if the magnitude is at most 2^63 - 1 |
| Encoding.RoundTrip | cpp_redis/sources/builders/reply_builder.cpp:44-64 | the encoding of a reply followed by any bytes decodes to that reply and leaves those bytes, if and only if the reply is encodable |
| Encoding.ValueEncodable | cpp_redis/sources/builders/array_builder.cpp:60-78 | no decoded reply is outside the encodable ones |
| Encoding.NullArrayDecodes | cpp_redis/sources/builders/array_builder.cpp:46-50 | the null array is decoded to the null reply |
| Encoding.CanonText | cpp_redis/sources/network/redis_connection.cpp:98-106 | the standard encoding of a reply is the text of one RESP2 tree |
| Encoding.CanonWellFormed | cpp_redis/sources/builders/bulk_string_builder.cpp:56-77 | that tree is well formed and denotes the reply |
| Decoder.DrainResumes | cpp_redis/sources/builders/reply_builder.cpp:34-64 | building replies from two appended pieces equals building from the first and then from the second |
| Decoder.ChunkIndependence | cpp_redis/sources/builders/reply_builder.cpp:34-64 | however a stream is cut, feeding the pieces leaves the same replies, nested builder state and residual buffer as feeding it whole |
| Decoder.SlicingIrrelevant | cpp_redis/sources/builders/reply_builder.cpp:34-42 | two cuts of the same bytes leave the same decoder, even on a stream that throws |
| Decoder.FeedSettles | cpp_redis/sources/builders/reply_builder.cpp:38-39 | after a feed nothing more can be built until bytes arrive |
| Decoder.FeedFrame | cpp_redis/sources/builders/reply_builder.cpp:56-61 | replies waiting to be taken never influence decoding |
| Decoder.DecoderSound | cpp_redis/sources/builders/reply_builder.cpp:44-64 | byte conservation: all bytes fed are the text of accepted trees with exactly the delivered values, the text of the one tree in progress, which the builder state matches, and the unread buffer |
| StrictGrammar.StrictAccepted | cpp_redis/sources/builders/builders_factory.cpp:36-53 | of the trees of RESP2 exactly those whose sizes fit the C++ integers are accepted, and they get the meaning RESP2 gives them |
| StrictGrammar.StrictExactly | cpp_redis/sources/builders/bulk_string_builder.cpp:56-77 | an accepted tree is one of RESP2 if and only if it contains none of the listed lenient forms |
| StrictGrammar.DecodesStrict | cpp_redis/sources/builders/reply_builder.cpp:34-64 | any stream of RESP2 trees that fit, cut anywhere, delivers exactly their meanings |
| StrictGrammar.DecoderStrictlySound | cpp_redis/sources/builders/reply_builder.cpp:44-64 | what was consumed is RESP2 with the meanings delivered, unless a lenient form is among it |
| StrictGrammar.WrappedLength | cpp_redis/sources/builders/bulk_string_builder.cpp:56-67 | a length of 2^32 + 3 is read as 3 |
| StrictGrammar.WrappedNull | cpp_redis/sources/builders/bulk_string_builder.cpp:56-60 | a length of 2^32 - 1 is read as the null string |
| StrictGrammar.EmptyNumber | cpp_redis/sources/builders/integer_builder.cpp:47-64 | a number without digits is read as 0 |
| Decoder.DecodesStream | cpp_redis/sources/builders/reply_builder.cpp:34-64 | the text of any sequence of trees delivers exactly their values and leaves nothing |
| Decoder.DeadMeansMalformed | cpp_redis/sources/builders/builders_factory.cpp:49-52 | bytes on which decoding failed are not the start of any well-formed stream |
| Failures.FailsExactly | cpp_redis/sources/builders/reply_builder.cpp:34-64 | however the stream is cut, decoding has failed in a given way after given replies if and only if the stream consists of the texts of these replies and part of one more, and then goes on in the way that failure names |
| Failures.HopelessFails | cpp_redis/sources/builders/array_builder.cpp:60-93 | a bad number, a wrong ending or an unknown type byte at any nesting depth makes the whole tree of builders fail |
| Failures.RunFails | cpp_redis/sources/builders/array_builder.cpp:60-93 | a builder that fails has met one of these |
| Failures.NumberFails | cpp_redis/sources/builders/integer_builder.cpp:43-61 | a number fails exactly when its terminated line is not a number of int64, with the overflow coming before a later bad character |
| Failures.PayloadFails | cpp_redis/sources/builders/bulk_string_builder.cpp:65-78 | a payload fails exactly when it is all there and not followed by CRLF, or its size overflows an int |
| Failures.WrongEndingExample | cpp_redis/sources/builders/bulk_string_builder.cpp:70-73 | five payload bytes followed by CR and another byte fail with the wrong ending |
| Decoder.GrammarUnambiguous | cpp_redis/sources/builders/reply_builder.cpp:44-64 | one text never stands for two sequences of replies |
| Decoder.RepliesRoundTrip | cpp_redis/sources/builders/reply_builder.cpp:34-64 | a stream of encoded replies, cut anywhere, delivers exactly those replies |
| Builders.IntegerBuilder.ReadDigits | cpp_redis/sources/builders/integer_builder.cpp:47-61 | the digit loop computes the denoted number, rejects a line exactly when it is bad, and its accumulator never leaves int64 |
| Builders.IntegerBuilder.Feed | cpp_redis/sources/builders/integer_builder.cpp:38-68 | the object and the buffer end where the decoder function says |
| Builders.SimpleStringBuilder.Feed | cpp_redis/sources/builders/simple_string_builder.cpp:34-49 | the same for simple strings |
| Builders.ErrorBuilder.Feed | cpp_redis/sources/builders/error_builder.cpp:29-37 | the same for errors, which delegate |
| Builders.BulkStringBuilder.FetchSize | cpp_redis/sources/builders/bulk_string_builder.cpp:47-63 | the length is taken once, through a 32-bit conversion; -1 completes the null reply |
| Builders.BulkStringBuilder.FetchStr | cpp_redis/sources/builders/bulk_string_builder.cpp:65-78 | payload and terminator are consumed together or not at all |
| Builders.BulkStringBuilder.Feed | cpp_redis/sources/builders/bulk_string_builder.cpp:80-92 | the object and the buffer end where the decoder function says |
| ArrayBuilders.ArrayBuilder.FetchArraySize | cpp_redis/sources/builders/array_builder.cpp:37-58 | reading the count keeps the meaning of the remaining bytes; negative is null and zero the empty array |
| ArrayBuilders.ArrayBuilder.BuildRow | cpp_redis/sources/builders/array_builder.cpp:60-78 | one row is built exactly as the decoder function does, and a completed row shrinks the buffer |
| ArrayBuilders.ArrayBuilder.FeedRow | cpp_redis/sources/builders/array_builder.cpp:67-77 | the current builder, of any kind, is fed in place and its row appended once ready |
| ArrayBuilders.ArrayBuilder.AppendRow | cpp_redis/sources/builders/array_builder.cpp:71-75 | the row goes last, and the array is ready with its last row |
| ArrayBuilders.ArrayBuilder.Feed | cpp_redis/sources/builders/array_builder.cpp:80-93 | the object tree and the shared buffer end where the decoder function says, at any depth, and the loop terminates |
| ArrayBuilders.CreateBuilderObject | cpp_redis/sources/builders/builders_factory.cpp:36-53 | each type byte gets a fresh builder of its kind, any other byte none |
| ReplyBuilders.ReplyBuilder.BuildReply | cpp_redis/sources/builders/reply_builder.cpp:44-64 | a call either builds one reply, shrinking the buffer, or leaves the decoder where draining ends |
| ReplyBuilders.ReplyBuilder.FeedBuilder | cpp_redis/sources/builders/reply_builder.cpp:49-54 | the builder in progress, or a new one, takes one step of the decoder function |
| ReplyBuilders.ReplyBuilder.QueueReply | cpp_redis/sources/builders/reply_builder.cpp:56-63 | a ready reply goes last into the queue and the builder is dropped |
| ReplyBuilders.ReplyBuilder.Begin | cpp_redis/sources/builders/reply_builder.cpp:49-52 | only a missing builder is replaced, and only its type byte consumed |
| ReplyBuilders.ReplyBuilder.Feed | cpp_redis/sources/builders/reply_builder.cpp:34-42 | a whole feed of the object is the feed of the decoder function, so all lemmas about it apply |
| ReplyBuilders.ReplyBuilder.GetFront | cpp_redis/sources/builders/reply_builder.cpp:71-77 | the oldest reply, or the error when there is none |
| ReplyBuilders.ReplyBuilder.PopFront | cpp_redis/sources/builders/reply_builder.cpp:79-85 | exactly the oldest reply is removed, or the error when there is none |
| RedisConnections.BuildCommand | cpp_redis/sources/network/redis_connection.cpp:98-106 | the loop writes the RESP2 encoding of the array of bulk strings |
| RedisConnections.StreamRoundTrip | cpp_redis/sources/builders/reply_builder.cpp:34-64 | a stream of encodings decodes back, however cut, if and only if all replies are encodable |
| RedisConnections.PipelineRoundTrip | cpp_redis/sources/network/redis_connection.cpp:98-116 | what any sequence of sends accumulated decodes to exactly those commands, if and only if every argument fits |
| RedisConnections.PipelineInjective | cpp_redis/sources/network/redis_connection.cpp:98-116 | different pipelines have different bytes |
| RedisConnections.CommandEncodable | cpp_redis/sources/network/redis_connection.cpp:98-106 | a command is encodable exactly when its count and lengths fit |
| RedisConnections.Deliveries | cpp_redis/sources/network/redis_connection.cpp:150-173 | handing replies over after every packet delivers what the whole stream holds, or a prefix of it on a failing stream |
| RedisConnections.DeliveryIndependentOfSlicing | cpp_redis/sources/network/redis_connection.cpp:150-173 | deliveries are the same for all cuts of a stream if and only if it does not throw, or throws before its first reply |
| RedisConnections.FailingStreamSplits | cpp_redis/sources/network/redis_connection.cpp:157-161 | the two cuts of a failing stream that deliver differently |
| RedisConnections.FailingStreamExample | cpp_redis/sources/network/redis_connection.cpp:157-161 | a simple string and a stray byte: lost in one packet, delivered in two |
| RedisConnections.StalledStreamExample | cpp_redis/sources/builders/integer_builder.cpp:43-45 | a tail that no bytes can complete but that has not thrown yet does not make deliveries depend on the cut |
| RedisConnections.RedisConnection.Send | cpp_redis/sources/network/redis_connection.cpp:108-116 | written bytes plus send buffer stay the encoding of all commands sent |
| RedisConnections.RedisConnection.Commit | cpp_redis/sources/network/redis_connection.cpp:118-139 | the buffer becomes one write and is empty; the writes then are the encoding of all commands sent |
| RedisConnections.RedisConnection.TcpClientReceiveHandler | cpp_redis/sources/network/redis_connection.cpp:149-183 | a packet changes decoder and deliveries as specified; a throw drops the connection and its packet's replies |
| RedisConnections.RedisConnection.Drain | cpp_redis/sources/network/redis_connection.cpp:163-173 | every available reply is handed over once, in order |
| Clients.MatchedAppend | cpp_redis/sources/core/client.cpp:230-243 | matching callbacks with two batches of replies is matching with both together |
| Clients.Client.Send | cpp_redis/sources/core/client.cpp:166-181 | bytes and callback are queued together, so queue and stream stay in step |
| Clients.Client.BeginCallback | cpp_redis/sources/core/client.cpp:230-238 | the first section of the handler is the step of the pipeline that takes the oldest callback |
| Clients.Client.RunCallback | cpp_redis/sources/core/client.cpp:240-243 | the callback's return is the step of the pipeline that completes it |
| Clients.Client.EndCallback | cpp_redis/sources/core/client.cpp:245-249 | the last section ends the callback in progress |
| Clients.Client.ConnectionReceiveHandler | cpp_redis/sources/core/client.cpp:225-250 | one reply runs the oldest callback, and is dropped when there is none |
| Clients.Client.RunCallbacks | cpp_redis/sources/network/redis_connection.cpp:163-173 | a batch of replies goes to the oldest callbacks one for one |
| Clients.Client.ReceivePacket | cpp_redis/sources/core/client.cpp:225-250 | the replies a packet completes are matched with the next callbacks |
| Clients.Client.AllCallbacksDone | cpp_redis/sources/core/client.cpp:203-207 | in any state, callbacks in progress included, the condition of sync_commit holds exactly when as many callbacks have completed as commands were sent and no handler is under way |
| ClientPipelines.CallbackOrder | cpp_redis/sources/core/client.cpp:166-250 | in every run, with both streams cut anywhere and answers in any accepted text, the k-th completed callback belongs to the k-th command sent and got the server's answer to it |
| ClientPipelines.SyncCommitSound | cpp_redis/sources/core/client.cpp:195-208 | sync_commit returns only when every command sent has had its callback completed |
| ClientPipelines.NothingDropped | cpp_redis/sources/core/client.cpp:231-238 | no reply ever meets an empty callback queue and neither side fails to decode |
| ClientPipelines.ServerSees | cpp_redis/sources/network/redis_connection.cpp:118-139 | whatever part of the written bytes has arrived decodes to a prefix of the commands sent |
| ClientPipelines.ReadDelivers | cpp_redis/sources/network/redis_connection.cpp:150-173 | a read of part of the answers, in any accepted text, delivers exactly the next complete ones |
| ClientPipelines.QueueStep | cpp_redis/sources/core/client.cpp:166-250 | every step keeps the callback queue in lockstep with commands sent and replies taken |
| ClientPipelines.RunInv | cpp_redis/sources/core/client.cpp:166-250 | the invariant of queue, server and receiver holds in every reachable state |
| ClientPipelines.CommandCompletes | cpp_redis/sources/core/client.cpp:166-250 | any command that fits can be sent, answered and have its callback run with the answer, after which sync_commit returns |
| IoServices.StepKeeps | cpp_redis/tacopie/sources/network/io_service.cpp:134-225 | every critical section keeps the tasks and flags of all descriptors in agreement |
| IoServices.OneCallbackInFlight | cpp_redis/tacopie/sources/network/io_service.cpp:134-225 | in every run a descriptor has a read (write) task outstanding exactly when it is tracked with the flag set, never two, and a marked one always has one |
| IoServices.RemovedMeansQuiet | cpp_redis/tacopie/sources/network/io_service.cpp:337-348 | what wait_for_removal waits for implies that no callback of the descriptor is in flight |
| IoServices.FinishFindsSocket | cpp_redis/tacopie/sources/network/io_service.cpp:179-185 | a closing section always finds its entry: nothing is erased while a task is outstanding |
| IoServices.ProcessFdKeeps | cpp_redis/tacopie/sources/network/io_service.cpp:140-164 | the poll loop never erases an entry |
| IoServices.PollHandsOut | cpp_redis/tacopie/sources/network/io_service.cpp:140-164 | a poll pass hands out a read callback exactly for the polled descriptors that are ready for reading, have one and are not executing it, a write callback exactly for those ready for writing, and changes nothing else |
| IoServices.UntrackCompletes | cpp_redis/tacopie/sources/network/io_service.cpp:311-330 | an untracked socket is gone once the callbacks in flight ended, in either order |
| IoServices.RetrackCancelsRemoval | cpp_redis/tacopie/sources/network/io_service.cpp:273-285 | tracking again cancels a pending removal |
| IoServices.IoService.Track | cpp_redis/tacopie/sources/network/io_service.cpp:273-285 | the entry gets the read and the write callback and loses its mark, its flags and all else stay; the invariant is kept |
| IoServices.IoService.SetCallback | cpp_redis/tacopie/sources/network/io_service.cpp:287-309 | only the callback of that kind changes; a missing entry is created |
| IoServices.IoService.Untrack | cpp_redis/tacopie/sources/network/io_service.cpp:311-330 | the same; marked while executing, erased otherwise |
| IoServices.IoService.ProcessEvents | cpp_redis/tacopie/sources/network/io_service.cpp:134-165 | the loop is one step, and hands out what `IoServices.PollHandsOut` says |
| IoServices.IoService.ProcessPolled | cpp_redis/tacopie/sources/network/io_service.cpp:146-163 | one descriptor: dispatch read, dispatch write, erase if marked and idle |
| IoServices.IoService.FinishTask | cpp_redis/tacopie/sources/network/io_service.cpp:179-193 | the task ends, its flag is cleared, and the entry is erased exactly when it is marked and then idle |
| IoServices.IoService.Removed | cpp_redis/tacopie/sources/network/io_service.cpp:343-347 | the wait condition, and what it guarantees |
| TcpClients.DoKeeps | cpp_redis/tacopie/sources/network/tcp_client.cpp:94-132 | every step of any thread keeps: a cleared queue is empty, its mutex free, the connection down |
| TcpClients.NoRecreation | cpp_redis/tacopie/sources/network/tcp_client.cpp:190-266 | once a disconnect has untracked the socket, no async or process call of the client is under way or begins and no step of it adds an entry |
| TcpClients.RemovalBarrier | cpp_redis/tacopie/sources/network/tcp_client.cpp:94-112 | once a disconnect(true) has waited on the open socket, no callback is in flight and none ever starts, whatever other disconnects there are; every wait is of that sort unless two disconnects passed the check |
| TcpClients.BarrierExact | cpp_redis/tacopie/sources/network/tcp_client.cpp:94-112 | a returned disconnect(true) is a barrier if and only if it waited on the open socket; over the runs with a given number of disconnects past the check it is one if and only if that number is 1 and some call has waited (with 0, no call has returned) |
| TcpClients.RefusedDisconnect | cpp_redis/tacopie/sources/network/tcp_client.cpp:96-96 | a run from a fresh client: a read callback takes the last request, one disconnect runs to its end, and a refused disconnect(true) returns while the callback is executing |
| TcpClients.RacingDisconnects | cpp_redis/tacopie/sources/network/tcp_client.cpp:94-112 | a run from a fresh client with two disconnects past the check and none refused, in which the wait returns late while a read callback is executing |
| TcpClients.DriveCompletes | cpp_redis/tacopie/sources/network/tcp_client.cpp:94-112 | the steps of one thread, driven to the end of its call, add up to the call as a whole |
| TcpClients.DisconnectUnfolds | cpp_redis/tacopie/sources/network/tcp_client.cpp:94-132 | a disconnect as a whole: down, both queues empty, untracked, the callbacks in flight ended if it waits, closed |
| TcpClients.TcpClient.Async | cpp_redis/tacopie/sources/network/tcp_client.cpp:242-266 | refused exactly when disconnected; otherwise one request is queued and the callback set, both of the kind asked for, which is the sequence of its steps |
| TcpClients.TcpClient.Process | cpp_redis/tacopie/sources/network/tcp_client.cpp:190-235 | one request is taken and the callback removed with the last one |
| TcpClients.TcpClient.Disconnect | cpp_redis/tacopie/sources/network/tcp_client.cpp:94-112 | the object's call is the sequence of its steps with the wait between them; after waiting the descriptor is not tracked and none of its callbacks is in flight |
| TcpClients.TcpClient.AwaitRemoval | cpp_redis/tacopie/sources/network/io_service.cpp:337-348 | while the call waits, the callbacks in flight end, in either order |
| TimeoutQueues.PlaceStep | src/timeout-queue.cc:31-68 | every step keeps each event in exactly one place and the counter equal to the workers with an event |
| TimeoutQueues.TimeStep | src/timeout-queue.cc:54-67 | every step keeps deadlines at push time plus a whole number of periods |
| TimeoutQueues.EventConservation | src/timeout-queue.cc:31-68 | in every run each pushed event is in exactly one of queue, one worker's hands, finished; the counter never under-counts the events in hand |
| TimeoutQueues.AllDoneSound | include/timeout-queue.h:63-69 | WaitUntilAllDone returns only when all pushed events have finished, and this lasts while its lock is kept |
| TimeoutQueues.NoEarlyRun | src/timeout-queue.cc:50-56 | in every run, when the event pushed by an action is started for the r-th time, at least r periods have elapsed since that action |
| TimeoutQueues.PushRecorded | include/timeout-queue.h:51-56 | in every later state the event has the period and the time of its push, and has run as often as it was started |
| TimeoutQueues.QuitStops | src/timeout-queue.cc:42-54 | after a quit no event is taken out or started |
| TimeoutQueues.NoDrift | src/timeout-queue.cc:58-63 | a queued event is due exactly one period after its last due time, so its runs are at most (now - push) / period |
| TimeoutQueues.PutBackKeepsDeadline | src/timeout-queue.cc:45-67 | over a run, taking an event out and putting it back without running it is a round trip: the event is queued as it was, whatever other workers do meanwhile |
| TimeoutQueues.DeadlineCountsRepeats | src/timeout-queue.cc:56-63 | over a run, a deadline is push time plus one period for the push and for each run that asked to be repeated; nothing else moves it |
| TimeoutQueues.TimeoutQueue.PushEvent | include/timeout-queue.h:51-56 | one event is queued, due one period from now; the object takes the step and keeps the invariant |
| TimeoutQueues.TimeoutQueue.RequestQuit | include/timeout-queue.h:58-61 | quit is set and nothing else changes |
| TimeoutQueues.TimeoutQueue.TakeNext | src/timeout-queue.cc:33-47 | nothing is taken when quitting or empty, otherwise an earliest event, counted |
| TimeoutQueues.TimeoutQueue.Front | src/timeout-queue.cc:47 | an event with the smallest deadline |
| TimeoutQueues.TimeoutQueue.AfterWait | src/timeout-queue.cc:50-67 | the event runs exactly when not quitting and its deadline has passed, else it goes back |
| TimeoutQueues.TimeoutQueue.AfterFunction | src/timeout-queue.cc:56-59 | a repeated event moves by one period from its old deadline, another one is finished |
| TimeoutQueues.TimeoutQueue.EndRepeat | src/timeout-queue.cc:61-63 | the event is queued again and the counter follows |
| TimeoutQueues.TimeoutQueue.EndLast | src/timeout-queue.cc:45-46 | only the counter changes when the last round ends |
| TimeoutQueues.TimeoutQueue.TryAllDone | include/timeout-queue.h:63-69 | the wait condition holds exactly when queue and counter are empty, and then every event has finished |
| RedisStores.DBRedis.SetKeyValue | src/db-redis.cpp:23-40 | one SET is sent; it fails exactly on an error reply, which a 32-bit expiry that is not positive gets; it finds the key exactly when one is live, and otherwise sets it with that expiry |
| RedisStores.DBRedis.UpdateExpire | src/db-redis.cpp:43-75 | extends a key with the caller's value, sets an absent one, reports a wrong value; certain without error replies unless the key expires during the call; an error escapes exactly on an error reply to EXISTS or PEXPIRE or a null reply to GET |
| RedisStores.DBRedis.DelKeyValue | src/db-redis.cpp:78-110 | the commands sent are those the code sends; it deletes exactly when the key has the caller's value and every command is answered; an error escapes exactly on an error reply to EXISTS or DEL or a null reply to GET |
| DMutexes.DMutexImpl.MainLockFunction | src/dmutex.cpp:152-203 | every host was tried until taken, found held, or past 50 ms; the list grew by exactly the hosts taken; true exactly when it is a majority within the validity, and then those hosts hold this value until start plus the expiry sent; otherwise the latest commands served are a release of all hosts, an error escapes exactly when it aborted, and on a server without faults a returned failure leaves no key of this client while an escaped error means that a key expired during the release |
| DMutexes.DMutexImpl.AcquisitionLoop | src/dmutex.cpp:157-180 | the hosts added are exactly those whose SET succeeded, in order and distinct if the given ones are, and they stay set whatever other threads do; the retrying loop terminates by hosts left and the 50 ms limit |
| DMutexes.AttemptMade | src/dmutex.cpp:163-178 | after one attempt the loop may move on when the host was taken, found held, or the time to retry is over, and for a host not tried to the end before only then |
| DMutexes.DMutexImpl.UnlockAll | src/dmutex.cpp:109-134 | the commands served are exactly those of a release of all hosts, whose course is determined by the store and the fates of the commands; an error escapes exactly when it aborts; no other key is touched; the answer compares the keys deleted with the list; no key is left if and only if every host with one was reached and answered |
| Releases.LeftBehind | src/dmutex.cpp:115-129 | a key of the client is live after the release exactly when it would be without it and its host was never reached without an error reply |
| Releases.ReleaseCompleteness | src/dmutex.cpp:109-134 | a release is complete if and only if every host with a key that would still be live was reached and answered |
| Releases.ErrorFreeRelease | src/dmutex.cpp:109-134 | a release without error replies that reaches its end is complete |
| Releases.AbortWithoutErrors | src/db-redis.cpp:88-91 | a release that stops early without error replies met a key that expired in the course of it |
| Releases.AbortCause | src/db-redis.cpp:78-110 | a release stops early exactly when an error escapes, which takes an error reply or a key that expires between EXISTS and GET |
| Releases.AbortLeavesKey | src/db-redis.cpp:88-91 | a release that, without any error reply, stops early and leaves a key |
| Releases.DelErrorAborts | src/db-redis.cpp:94-97 | an error reply to DEL escapes and leaves the key |
| Releases.AbortMayBeComplete | src/db-redis.cpp:88-91 | a release that throws and leaves no key |
| Releases.QuietErrorLeavesKey | src/db-redis.cpp:88-107 | a release that reaches its end and leaves a key, because GET got an error reply |
| DMutexes.DMutexImpl.KeepLock | src/dmutex.cpp:77-107 | with both flags set, each extension goes to the first host of the list without a success so far, and the round ends exactly when all have succeeded, an error escapes, or the tries are used up; unless the lock is released meanwhile, a completed round has extended every host by one validity from its start and no round weakens what the client relies on |
| DMutexes.DMutexImpl.Lock | src/dmutex.cpp:68-75 | a success has a quorum of hosts that keep its value until start plus the expiry sent; a failure has gone through all its acquisitions, has tried every host in each, waited two thirds of the validity after each, and leaves the lock not set |
| DMutexes.DMutexImpl.TryLockFor | src/dmutex.cpp:140-150 | the same with two seconds between acquisitions, at least one of them, and a failure no earlier than the timeout |
| DMutexes.Trunc | src/dmutex.cpp:193 | a third of the run time, truncated toward zero; the timer runs every two of them |
| DMutexes.DMutexImpl.Others | src/dmutex.cpp:40-46 | any operations of other clients and extensions by this client's own timer, run for real on the server, leave what this client relies on |
| DMutexes.DMutexImpl.OthersOrUnlock | src/dmutex.cpp:109-134 | the same, with a release of this very lock at any point, which alone can take away what it relies on |
| DMutexes.StrangerRespects | src/db-redis.cpp:23-110 | an operation of a client with another value respects this one |
| Redlock.NonInterference | src/dmutex.cpp:77-134 | no step of a client removes, overwrites or re-times a live key of another client |
| Redlock.KeyStays | src/dmutex.cpp:77-180 | over any stretch of a run a key stays as it is until it expires or its owner acts |
| Redlock.ReleaseComplete | src/dmutex.cpp:109-134 | over a run, from a release until the client touches a key again, a host holds a live key of it exactly when the release did not get to delete it and it has not expired |
| Redlock.BackedKept | src/db-redis.cpp:23-75 | a host that backs a client until some time keeps backing it under every step but the client's own unlock |
| Redlock.StepKept | src/dmutex.cpp:68-203 | every step keeps the quorum, lease and round invariants of every client |
| Redlock.RunInv | src/dmutex.cpp:68-203 | they hold in every reachable state of every run from empty lists, releases cut short by an error included |
| Redlock.QuorumsMeet | src/dmutex.cpp:182 | two majorities of the same hosts share one |
| Redlock.MutualExclusion | src/dmutex.cpp:152-203 | over all runs of any number of clients and hosts at most one client holds an unexpired lease, if and only if no expiry is truncated |
| Redlock.TruncationBreaks | src/db-redis.cpp:27 | with a truncated expiry, a run with two holders |
| Redlock.TruncationExample | src/db-redis.cpp:27 | two clients, three hosts and a validity of 2^32 + 1 ms, sent as 1 ms |
| Redlock.StaleListExclusion | src/dmutex.cpp:136-138 | when acquisitions may keep a stale list, exclusion holds if and only if at most one client can hold the lock at all |
| Redlock.StaleListBreaks | src/dmutex.cpp:136-138 | the run: a stale list alone passes for a majority |
| Redlock.StaleListExample | src/dmutex.cpp:136-138 | two clients with the default validity: exclusive over clean runs, not over all |
| Redlock.GrantedHasQuorum | src/dmutex.cpp:182-196 | whenever the lock is granted, the list is a duplicate-free majority of the hosts, each holding the client's key until start plus validity |
| Refinement.SetSection | src/dmutex.cpp:160-163 | what selecting a host and setting the key does to the store is the set of the protocol, or an error without effect |
| Refinement.ExtendSection | src/dmutex.cpp:90-93 | what selecting a host and updating the expiry does to the store is the extension of the protocol |
| Refinement.DeleteSection | src/dmutex.cpp:117-119 | one deletion of UnlockAll removes exactly the client's live key, when its commands are answered |
| Refinement.UnlockMatches | src/dmutex.cpp:109-134 | a whole release, aborted or not, is the unlock of the protocol on the hosts that answered, for every live key |
| Refinement.WriteMatches | src/db-redis.cpp:23-75 | writing the client's own entry is the same change in the store and in the protocol |
| LockSteps.AttemptStep | src/dmutex.cpp:157-178 | a section of the acquisition loop, with the note of its success, is TrySet, or GiveUp once 50 ms are over, or changes nothing but the time |
| LockSteps.DecideStep | src/dmutex.cpp:182-183 | the protocol grants exactly when the list has more than half of the hosts and no more than the validity has elapsed, which is the check of the object, the hosts being distinct |
| LockSteps.GrantStep | src/dmutex.cpp:186-196 | the section that sets the lock is Grant |
| LockSteps.ExtendStep | src/dmutex.cpp:89-101 | a section of a KeepLock round is KeepExtend, or changes nothing but the time |
| LockSteps.UnlockStep | src/dmutex.cpp:109-134 | a release, complete or cut short, is Unlock on the hosts that answered, up to keys that have expired |
| LockSteps.AttemptMeans | src/dmutex.cpp:163-178 | which of the three an attempt is, from its result |
| LockSteps.ExtensionMeans | src/dmutex.cpp:91-101 | which of the two an extension is, from its result |
| LockSteps.UnlockLive | src/dmutex.cpp:109-134 | the state after the protocol's Unlock and the one after the release agree on every live key and on the client |

## Left out

- Grammar.DecodesBulk: bounds a payload by 2^31 - 3 bytes and not 2^31 - 1, because the code computes the size plus two in `int`; the bound is exact (`Encoding.RoundTrip`).
- Encoding.IntegerLineExact: says nothing about the number read beyond int64, where the C++ accumulator overflows and the behaviour is undefined.
- TcpClients.RemovalBarrier: nothing is promised of a call that was refused or whose wait ended late; `TcpClients.BarrierExact` shows that nothing could be. The interleaved client is a step relation on values; the class beside it covers calls that run one at a time, with the callbacks in flight ending while a disconnect waits.
- DMutexes.DMutexImpl.KeepLock: the number of tries is a parameter, because the code retries forever on a wrong value. In the protocol a lease is renewed only by a round that no lock or unlock call of the same client overlaps; a round overtaken by an unlock still appears there as extensions without a lease.
- StrictGrammar.Strict: an explicit plus sign in an integer is not part of it, and the decoder rejects one.
- DMutexes.DMutexImpl.Lock: the number of tries is a parameter, because the code tries forever; nothing is claimed about ever getting the lock.
- RedisStores.DBRedis.DelKeyValue: the text of an error reply is taken to differ from every lock value, and a command with an error reply to have had no effect; a reply lost after its command took effect is not modelled. An error that escapes inside KeepLock ends the process in the code and just the round in the model.
- Redlock.MutualExclusion: one process, so that its mutex makes each section atomic; races of several processes between EXISTS, GET and DEL or PEXPIRE are not modelled. The clock is monotone and shared, values of clients are distinct, the hosts are distinct, one thread uses a lock object at a time, and KeepLock's unlocked reads of the list are taken as ordinary reads. `LockSteps` matches section by section; that a whole run of several lock objects is a run of the protocol is not put together from it.
- RedisStores.DBRedis.SetKeyValue: an error reply is assumed to take a millisecond more than its fate says, which is what ends the retry loop; a SelectDB that fails is not modelled, since it leaves the mutex locked.
- RedisConnections.RedisConnection.Commit: the moved-from send buffer is taken as empty; a failing write and the clearing of callbacks that follows it are not modelled. A write is sent whole: the short counts of `send` on a socket are not followed up in the code either.
- ClientPipelines.CallbackOrder: one connection whose server answers in order with replies the decoder accepts; reconnection and `clear_callbacks` are not modelled. The interleaving of threads is a step relation on values; the class `Clients.Client` beside it covers the same calls one at a time.
- TimeoutQueues.AllDoneSound: safety only; wake-ups by `notify_one`, their latency and the joining of threads are not modelled, and event functions return.
- IoServices.OneCallbackInFlight: a descriptor number is not reused for another socket while it is tracked; `select`, the notifier pipe and callbacks that throw are not modelled, and the ready sets are arbitrary.
- The thread pool: each task handed out may be finished at any later point; resizing is not modelled.
- The contents of TCP read and write requests: a queue is its length.
- Connecting, sentinels, subscriptions, logging, and the command wrappers of the client: they add no state to the parts above.
