# Dousi RPC: a verified model

Dousi is a C++ RPC library. A client (`Submitter`) numbers each call, packs
`[service, method] ++ args` and writes it as one frame to a TCP stream. The server
(`Executor`) reads frames, performs the calls on a pool of workers (or inline on the
reading thread when there are none), and a pool of writers sends each result back to
the stream it came from, where it is cached under the call's id. This project models
that pipeline and the components it is made of, and proves what they promise.

## What the modules model

* `Bytes`, `Chars`, `Seqs`, `Sums`: 32-bit words in memory, characters, sequence laws,
  weighted sums. The conservation laws and the termination measures are equations
  between such sums.
* `Framing`, `AsioStreams`: the wire format. `Framing.Decode` is a whole-stream
  reference decoder; `Framing.Complete` is the handler of one `async_read`.
  `AsioStreams.AsioStream` is the object: a buffer per stage filled in place, re-armed
  by its own handlers. It is proved against the reference decoder for every split of
  the bytes into chunks.
* `Dispatch`: packing a call, decoding it, and the table of registered methods.
* `Pipeline`: the whole system as a transition system over frames, with any number of
  clients, workers and writers and every interleaving of their steps. `PipelineSafety`
  and `Conservation` hold its invariant; `PipelineTheorems`, `PipelineProgress` and
  `PipelineOrder` hold what follows for every run, `PipelineWrap` what happens past
  2^32 calls, and `PipelineShared` how clients see each other's calls through the
  service objects they share.
* `ByteLevel`: the same system over bytes, where a frame arrives a few bytes at a
  time. Every byte-level run is shown to be a frame-level run.
* `Submitters`, `Executors`: the two ends as objects with mutable fields, each method
  proved to be a sequence of the pipeline's steps.
* `LockedQueue`, `PollingQueue`, `Fifos`, `QueueObjects`: the mutex-and-condition
  queue at the level of lock, wait, notify and spurious wake-ups, the polling queue,
  and the one FIFO specification that both refine.
* `PrettyName`, `EnumTables`, `EnumFlags`: `nameof.hpp`, which computes the method
  names that both ends dispatch on, and its enum tables. Reflection is replaced by an
  arbitrary function saying which values have which name.
* `IoThreadPools`, `Endpoints`: round-robin allocation and address parsing.

## What is assumed

* One gathered `async_write` is atomic: its bytes are contiguous in the stream. The
  code does not enforce this across threads; `Framing.SeparatePartsGarble` shows that
  frames are lost without it.
* Both ends have the same byte order (little-endian here); the code copies integers
  as they are in memory.
* A connection fails only where a step says so (`AsioStream.OnError`).
* Registered methods are total and are registered before the loop starts. A result
  may depend on all calls performed earlier (service objects are mutable), so an
  `Impl` takes that history as an argument. Calling an unregistered name brings the
  process down in the code (an empty `std::function` throws); here it sets `crashed`
  (`PipelineProgress.CrashedIffUnregistered`).
  The empty entry that `registered_methods_[...]` inserts just before is not kept,
  since the process is gone.
* Performing one request is one step; two workers perform one after the other in some
  order.
* The Boost queue is a linearizable FIFO queue of any size.
* msgpack is replaced by a small self-delimiting list codec (`Dispatch.PutList`,
  `Dispatch.GetList`) with proved round trip.
* Object ids and stream ids are 64-bit counters in the code and unbounded here; the
  32-bit object id on the wire is modelled exactly. Over bytes, payloads are shorter
  than 2^32; `Framing.EncodeFaithfulIffFits` shows that this is necessary.

## Where the code is weaker than one might expect

* Request 2^32 + j is answered under id j, where it replaces the reply to request j
  (`PipelineWrap.LaterReplyReplaces`); a lookup of its own id never succeeds
  (`PipelineTheorems.WideIdNeverFound`, `PipelineProgress.CachedIffNarrow`).
* Dispatch is by method name alone. Services with equal method names share the last
  registration (`Dispatch.LookupExactIffUnambiguous`).
* With two or more workers a stream's calls may be performed out of order
  (`PipelineOrder.OrderIffAtMostOneWorker`).
* A payload of 2^32 bytes or more breaks the framing (`Framing.EncodeFaithfulIffFits`).
* `nameof_enum` in the dense layout builds a string from a null pointer for an unnamed
  value between the smallest and the largest named one (`EnumTables.LookupIsSearch`);
  `EnumTables.DenseReadsNull` is an enum where that layout is chosen and this happens.
* `BoostLockFreeQueue::GetSize` always says 0 (`QueueObjects.BoostLockFreeQueue.GetSize`).
* An endpoint whose host contains ':' does not survive printing and parsing
  (`Endpoints.RoundTripIff`).
* docs/dousi_protocol.md describes a type list and an error code on the wire. The code
  sends neither; the model follows the code.

## Model

| member | source | states |
|---|---|---|
| `Framing.EncodeFaithfulIffFits` | src/dousi/core/stream/stream.cc:72-86 | A written message decodes to exactly itself, with no byte left over, if and only if its size fits the 32-bit size field. |
| `Bytes.WordBytes` | src/dousi/core/stream/stream.cc:76-77 | A 32-bit word is its four bytes, least significant first. |
| `Framing.EncodeLayout` | src/dousi/core/stream/stream.cc:72-86 | Byte by byte: the low four bytes of the id, the low four bytes of the size, the body, and nothing else. |
| `Framing.DecodeEncodeAll` | src/dousi/core/stream/stream.cc:72-96 | Any list of frames survives the wire, whatever bytes follow it. |
| `Framing.DecodeConcat` | src/dousi/core/stream/stream.cc:10-70 | Later bytes only extend what was delivered, and the undelivered rest is all a reader has to remember. |
| `Framing.CompleteKeepsDecode` | src/dousi/core/stream/stream.cc:10-70 | Handling a full buffer, at any of the three stages, keeps what the whole-stream decoder finds in the taken and the coming bytes, up to the frame it fires. |
| `Framing.StalledDeliversNothing` | src/dousi/core/stream/stream.cc:17-69 | While a buffer is not full, the bytes taken so far contain no whole frame. |
| `Framing.FeedDecodes` | src/dousi/core/stream/stream.cc:10-70 | The chain of handlers, fed any bytes from any of its states, calls back exactly the frames the whole-stream decoder finds, and has taken exactly the rest. |
| `Framing.DecodePrefix` | src/dousi/core/stream/stream.cc:10-70 | Cutting the encoding of any list of frames at any byte delivers exactly the frames whole before the cut; the rest stays behind undelivered. |
| `Framing.WholeFramesIsLargest` | src/dousi/core/stream/stream.cc:10-70 | The number of frames delivered from a prefix is the largest one whose encoding fits in it. |
| `Framing.ChunksDontMatter` | src/dousi/core/stream/stream.cc:17-69 | The chain fed chunk by chunk, from any state in which it waits for bytes, calls back what decoding all bytes at once gives, and keeps the rest. |
| `Framing.IncrementalReading` | src/dousi/core/stream/stream.cc:10-70 | For every list of frames, every prefix of its encoding and every split into chunks, the callbacks of the handler chain are exactly the whole frames of the prefix, in order, empty bodies included. |
| `Framing.MergeKeepsProgramOrder` | src/dousi/core/stream/stream.cc:80-86 | In any interleaving of any number of writers, each writer's units appear in its own order, as a prefix of its program. |
| `Framing.GatheredWritesDecode` | src/dousi/core/stream/stream.cc:72-96 | With gathered writes, every interleaving of any number of writers decodes to exactly the written frames in write order, with each writer's own order kept. |
| `Framing.SeparatePartsGarble` | src/dousi/core/stream/stream.cc:80-86 | Were id, size and body written separately, two writers have an interleaving whose first decoded frame is neither of the written ones. |
| `AsioStreams.AsioStream.OnBufferFull` | src/dousi/core/stream/stream.cc:17-69 | The handlers change the pending read as the specification says, and call back exactly when a body is complete. |
| `AsioStreams.AsioStream.HandleFull` | src/dousi/core/stream/stream.cc:17-69 | Handling all full buffers terminates, also for bodies of size 0, which take no byte, and calls back exactly the frames that are complete. |
| `AsioStreams.AsioStream.ReceiveByte` | src/dousi/core/stream/stream.cc:10-70 | One more byte makes the callbacks grow by exactly the frames it completes. |
| `AsioStreams.AsioStream.Receive` | src/dousi/core/stream/stream.cc:10-70 | For any chunk, the callbacks grow by the whole frames in what was pending and what arrived, and exactly the rest stays pending. |
| `AsioStreams.AsioStream.OnError` | src/dousi/core/stream/stream.cc:22-25 | An error or the end of the stream stops reading and changes nothing else: a partial frame is never delivered. |
| `AsioStreams.AsioStream.Write` | src/dousi/core/stream/stream.cc:72-86 | A write appends the narrowed id, the narrowed size and the body, in this order, and touches nothing of the reading side. |
| `AsioStreams.ReceiveAll` | src/dousi/core/stream/stream.cc:10-70 | A whole reading run over arbitrary chunks and an end of stream fires exactly the frames the reference decoder finds. |
| `AsioStreams.Transfer` | src/dousi/core/stream/stream.cc:10-96 | One end writes messages, the bytes arrive in chunks of any sizes, and the connection may end anywhere: the other end's callbacks are exactly the messages that arrived whole, in order; all of them if all bytes arrived. |
| `Dispatch.CallRoundTrip` | src/dousi/core/common/tuple_traits.h:10-41 | Every packed call decodes to its two names, and the method is applied to exactly the caller's arguments after two elements are dropped. |
| `Dispatch.CallTuple` | src/dousi/core/submitter/service_handle.h:73-85 | On the wire a call is the list of its service name, its method name and its arguments, in this order, and nothing else. |
| `Dispatch.TupleIsCall` | src/dousi/core/executor/executor.cc:73-78 | Of any list the executor takes element 0 for the service, element 1 for the method and all others for the arguments; a list of fewer than two elements is malformed. |
| `Dispatch.PackCallInjective` | src/dousi/core/submitter/service_handle.h:38-85 | Different calls never have the same packed form. |
| `Dispatch.TableHasRegistered` | src/dousi/core/executor/executor.h:101-111 | The table contains exactly the names that were registered. |
| `Dispatch.LastRegistrationWins` | src/dousi/core/executor/executor.h:101-111 | A name is bound to its last registration. |
| `Dispatch.LookupExactIffUnambiguous` | src/dousi/core/executor/executor.cc:51-62 | Lookup by method name gives every registered (service, method) pair its own implementation if and only if all pairs sharing a method name have the same one. |
| `Dispatch.SharedNameGoesToTheLast` | src/dousi/core/executor/executor.h:101-111 | With two services of equal method name, callers of the first reach the second's implementation; lookup is exact only if the two are the same. |
| `PipelineSafety.StepKeepsShape` | src/dousi/core/executor/executor.cc:8-86 | Every step keeps: streams and clients one to one, all ids in flight are keys of `streams_`, every logged result is its method's result after exactly the calls before it, and the cache is what was received. |
| `Conservation.StepConservesCalls` | src/dousi/core/executor/executor.cc:8-86 | Every step conserves calls per client, id and contents: issued equals waiting plus in the stream plus held by the server plus performed. |
| `Conservation.StepConservesAnswers` | src/dousi/core/executor/executor.cc:32-62 | Every step conserves answers per client, id and bytes: computed equals on their way plus in the stream plus received. |
| `PipelineTheorems.RunInv` | src/dousi/core/executor/executor.cc:8-86 | The invariant and both conservation laws hold in every state of every run. |
| `PipelineTheorems.CacheHoldsOwnAnswer` | src/dousi/core/submitter/submitter.h:95-123 | Routing: bytes a client has cached under an id are the result of one performed request, of this client, under this id, with exactly the arguments of the call it issued under that id, with any number of clients counting from 0, workers and writers. |
| `PipelineTheorems.AnswerIsUnique` | src/dousi/core/submitter/submitter.h:95-123 | With at most 2^32 calls per client, one record and one byte string answer a client's id, so replies to equal calls cannot be swapped. |
| `PipelineTheorems.AnswerOfOwnService` | src/dousi/core/executor/executor.cc:51-62 | If no two services share a method name with different implementations, the answer is what the caller's own service returns after exactly the calls performed before, element by element and whatever streams they came on. |
| `PipelineTheorems.ExactlyOnePlace` | src/dousi/core/executor/executor.cc:13-86 | In every reachable state each call of a client with at most 2^32 calls is in exactly one place, from waiting to performed. |
| `PipelineTheorems.PerformedOnce` | src/dousi/core/executor/executor.cc:51-86 | With at most 2^32 calls per client, no call is performed twice. |
| `PipelineTheorems.AnswerInOnePlace` | src/dousi/core/executor/executor.cc:32-62 | With at most 2^32 calls per client, in every reachable state each performed call's answer is in exactly one place, from its performer's hand to the client's cache, where it is cached exactly if it was received. |
| `PipelineTheorems.NoCrash` | src/dousi/core/executor/executor.cc:38-43 | If all methods called are registered, tuples always decode, methods are always found, and the writer's assertion on `streams_` never fails. |
| `PipelineTheorems.NarrowingWidth` | src/dousi/core/submitter/submitter.h:52-54 | Narrowing to 32 bits is injective below 2^32, and not at 2^32. |
| `PipelineTheorems.KeyWrittenOnce` | src/dousi/core/submitter/submitter.h:110-122 | With at most 2^32 calls per client, a received frame's id is never in the cache already. |
| `PipelineTheorems.LookupIsStable` | src/dousi/core/submitter/submitter.h:70-93 | Whatever a lookup finds stays the same for the rest of the run, so the second lookup of `GetObject`, without the lock, finds what the first found. |
| `PipelineTheorems.WideIdNeverFound` | src/dousi/core/submitter/submitter.h:52-54 | All cache keys are below 2^32 in every reachable state; call 2^32 + j travels under id j. |
| `PipelineProgress.StepDecreases` | src/dousi/core/executor/executor.cc:8-86 | Every step that is no new demand strictly decreases a measure over all places. |
| `PipelineProgress.RunsAreBounded` | src/dousi/core/executor/executor.cc:32-71 | Without new demands a run has at most as many steps as the measure says. |
| `PipelineProgress.CanStep` | src/dousi/core/executor/executor.cc:32-71 | Deadlock freedom: until everything is drained, some step is enabled. |
| `PipelineProgress.EveryThreadCanStep` | src/dousi/core/executor/executor.cc:32-71 | Any worker and any writer that has something in its hand or its queue can step at once; none waits for another. |
| `PipelineProgress.EveryReaderCanStep` | src/dousi/core/executor/executor.cc:73-86 | The same for every reader. |
| `PipelineProgress.EveryClientCanStep` | src/dousi/core/submitter/submitter.h:52-123 | Every client can at any time get an id, submit any of its pending calls, and receive what is in its stream; it is accepted unless the acceptor is just busy. |
| `PipelineProgress.DrainedMeansCached` | src/dousi/core/submitter/submitter.h:119-122 | In a drained state every issued call's narrowed id is in its client's cache. |
| `PipelineProgress.EveryCallIsAnswered` | src/dousi/core/submitter/submitter.h:70-93 | Wherever a run can go no further, every issued id is cached after narrowing, and with at most 2^32 calls it holds the result of the request made under that id, so every polling `GetObject` ends. |
| `PipelineProgress.CachedIffNarrow` | src/dousi/core/submitter/submitter.h:70-93 | The width bound is exact: wherever a run stops for good, an issued id is cached if and only if it is below 2^32. |
| `PipelineProgress.StuckIffDrained` | src/dousi/core/executor/executor.cc:32-71 | No progress step is enabled if and only if everything is drained. |
| `PipelineProgress.CrashedIffUnregistered` | src/dousi/core/executor/executor.cc:51-62 | Wherever a run stops for good, the server is down if and only if some client called a method that nobody registered. |
| `PipelineWrap.LaterReplyReplaces` | src/dousi/core/submitter/submitter.h:110-122 | For any 2^32 + j + 1 calls a reachable state has, under id j, the reply to call 2^32 + j, although the reply to call j had arrived under it. |
| `PipelineWrap.BoundIsExact` | src/dousi/core/submitter/submitter.h:52-54 | With 2^32 + 1 calls there is a reachable state whose cache holds, under id 0, bytes that do not answer call 0. |
| `PipelineOrder.PerformedInSubmissionOrder` | src/dousi/core/stream/stream.cc:67-68 | Inline or with one worker, on every run, the calls performed for a stream are a prefix of what its client submitted. |
| `PipelineOrder.RequestsAreFifo` | src/dousi/core/executor/executor.cc:64-86 | In every run with any number of workers, the requests taken so far followed by the request queue are the requests posted, in posting order: none is overtaken. |
| `PipelineOrder.ResponsesAreFifo` | src/dousi/core/executor/executor.cc:32-62 | The same for the response queue and any number of writers. |
| `PipelineOrder.TwoWorkersCanReorder` | src/dousi/core/executor/executor.cc:64-71 | With two or more workers a reachable state has a client's second call performed first. |
| `PipelineOrder.OrderIffAtMostOneWorker` | src/dousi/core/executor/executor.cc:64-86 | Submission order is kept on all runs if and only if there is at most one worker or no registered method. |
| `PipelineOrder.SubmissionCanReorder` | src/dousi/core/submitter/service_handle.h:39-49 | A client's threads can submit in another order than they got their ids: a reachable state has the second call alone in the stream. |
| `PipelineShared.OthersCallsAreSeen` | src/dousi/core/common/tuple_traits.h:24-33 | For any two registered methods a reachable state has a client's call performed with a history that contains another connection's earlier call. |
| `PipelineShared.AnswerDependsOnOtherClient` | src/tests/test_utils/basic_services.h:30-42 | With a service that stores bytes, the same call of client 0 is answered "123" when it comes alone and with client 1's bytes when client 1 stored them before; both states are reachable. |
| `ByteLevel.ByteStepRefines` | src/dousi/core/stream/stream.cc:10-96 | Each byte-level step is either invisible to the frame-level system or the frame-level step named for it. |
| `ByteLevel.ByteRunRefines` | src/dousi/core/stream/stream.cc:10-96 | Every byte-level run is a frame-level run that ends in the corresponding state. |
| `ByteLevel.BytesRouteAnswers` | src/dousi/core/submitter/submitter.h:95-123 | The routing theorem over bytes. |
| `ByteLevel.BytesExactlyOnePlace` | src/dousi/core/stream/stream.cc:10-96 | Exactly once over bytes: in every byte-level run each call of a client with at most 2^32 calls is in exactly one place, the frames in its client's pipe included, wherever they are cut. |
| `ByteLevel.BytesAnswerInOnePlace` | src/dousi/core/stream/stream.cc:10-96 | With at most 2^32 calls per client, in every byte-level run each computed answer is in exactly one place, from its performer's hand through its client's pipe to its client's cache. |
| `ByteLevel.ByteStepDecreases` | src/dousi/core/stream/stream.cc:10-70 | Lexicographic termination: the frame-level measure falls, or it stays and bytes are taken or a stage is completed (a body of size 0 takes none). |
| `ByteLevel.BytesCanStep` | src/dousi/core/stream/stream.cc:10-70 | Deadlock freedom over bytes. |
| `ByteLevel.BytesAnswerEveryCall` | src/dousi/core/submitter/submitter.h:70-93 | Wherever a byte-level run stops for good, with registered methods and a writer, the calls of every client with at most 2^32 of them are answered in its cache, and no byte is left in any pipe of any client. |
| `Submitters.Submitter.RequestObjectID` | src/dousi/core/submitter/submitter.h:95-98 | Ids are handed out consecutively from 0, as the pipeline's step does. |
| `Submitters.Submitter.Submit` | src/dousi/core/submitter/submitter.h:52-54 | For any id and any bytes the stream gains exactly the encoding of the narrowed id and the bytes; for a pending ticket's it is the pipeline's step. |
| `Submitters.Submitter.Call` | src/dousi/core/submitter/service_handle.h:38-85 | A call takes a fresh id, is submitted under it, and hands that id to the future; nothing else of the client or its stream changes. |
| `Submitters.Submitter.OnReturned` | src/dousi/core/submitter/submitter.h:110-123 | The receive callback stores the bytes under the 32-bit id, as the pipeline's step does. |
| `Submitters.Submitter.GetObject` | src/dousi/core/submitter/submitter.h:70-93 | The polling loop ends exactly if a reply arrives, after the first sleep that brings one; the second lookup always succeeds, and sees what the first saw unless a late frame has the same id. The client is changed by the callbacks of those sleeps and by nothing else, so every cached key stays. |
| `Submitters.DousiFuture.Get` | src/dousi/core/submitter/dousi_future.h:17-25 | The first successful `Get` keeps the object and changes the submitter as its `GetObject` does; later ones return the object without touching the submitter. |
| `Submitters.DousiFuture.MemoStaysFresh` | src/dousi/core/submitter/dousi_future.h:17-25 | At every later state of any run with at most 2^32 calls per client, the memo equals what a fresh lookup returns. |
| `Executors.Executor.RegisterMethod` | src/dousi/core/executor/executor.h:101-111 | One name is rebound, all others stay; the table is that of the registrations in order. |
| `Executors.Executor.OnAccept` | src/dousi/core/executor/executor.cc:8-30 | An accepted connection gets the next stream id and is stored under it: the pipeline's two accept steps. |
| `Executors.Executor.InvokeMethod` | src/dousi/core/executor/executor.cc:73-86 | Decode, then queue for the workers or perform inline: the pipeline's steps, malformed tuples and missing methods included. |
| `Executors.Executor.PerformRequest` | src/dousi/core/executor/executor.cc:51-62 | One response with the request's object and stream id and the method's result is queued, the result being that of the arguments after all calls performed before, on whatever streams; it throws exactly for a name that is not in the table. |
| `Executors.Executor.LoopToPerformRequest` | src/dousi/core/executor/executor.cc:64-71 | Run until it would block, a worker performs the whole queue in order and queues the responses in that order. |
| `Executors.ServeAllInOrder` | src/dousi/core/executor/executor.cc:64-71 | Any worker's loop: nothing skipped, nothing reordered, one response each. |
| `Executors.Executor.LoopToWriteResponse` | src/dousi/core/executor/executor.cc:32-49 | Run until it would block, a writer routes every response by its stream id; the assertion fails exactly at the first response whose stream is unknown. |
| `Executors.WritesInOrder` | src/dousi/core/executor/executor.cc:32-49 | Responses go, in order, each to its own stream's client with its id and its result, up to the first one whose stream is unknown. |
| `LockedQueue.NoLostWakeup` | src/dousi/core/common/std_locked_queue.h:14-25 | In every run, whenever items are queued and a consumer sleeps, either the lock's holder can step, or the lock is free and at least as many woken consumers as there are items can take it. |
| `LockedQueue.StepKeepsWakeups` | src/dousi/core/common/std_locked_queue.h:14-25 | Every step keeps: while somebody sleeps, the queued items are at most the roused threads. |
| `LockedQueue.StepRefinesFifo` | src/dousi/core/common/std_locked_queue.h:14-25 | Every lock-level step is its own FIFO operation: pushing the value that the thread holds, taking the front, or nothing. |
| `LockedQueue.InternalStepDecreases` | src/dousi/core/common/std_locked_queue.h:14-25 | Operations that were begun finish or fall asleep. |
| `LockedQueue.QuiescentNotStranded` | src/dousi/core/common/std_locked_queue.h:20-25 | When nothing can move, a sleeping consumer means an empty queue. |
| `LockedQueue.LockedQueueIsFifo` | src/dousi/core/common/std_locked_queue.h:14-25 | In every run, what went in is what the push actions bring, in their order; what went out is as many of the first of them as there were takes; the rest is queued; each producer's order is kept. |
| `LockedQueue.PopReturnsFront` | src/dousi/core/common/std_locked_queue.h:20-25 | In every run, a pop that comes after k others finds the queue non-empty and returns the value that was pushed after k others. |
| `LockedQueue.SleeperGetsItem` | src/dousi/core/common/std_locked_queue.h:14-25 | A reachable state: a consumer that fell asleep on the empty queue returns the value that a producer pushed afterwards. |
| `Fifos.FifoRunOk` | src/dousi/core/common/std_locked_queue.h:14-25 | In every run of the specification, popped followed by queued is pushed. |
| `Fifos.PerProducerOrder` | src/dousi/core/common/std_locked_queue.h:14-25 | Each producer's items come out in the order in which they were pushed, none lost or duplicated. |
| `PollingQueue.StepRefinesFifo` | src/dousi/core/common/boost_lock_free_queue.h:15-28 | Every operation of the polling queue is its own operation of the same specification. |
| `PollingQueue.PollingQueueIsFifo` | src/dousi/core/common/boost_lock_free_queue.h:15-28 | In every run, what went in is what the push actions bring, in their order; what went out is its first part, one for each attempt that finds something; the rest is queued; each producer's order is kept. |
| `QueueObjects.FirstNonEmptyMeaning` | src/dousi/core/common/std_locked_queue.h:20-25 | What a waiting pop takes from: the first non-empty queue it sees, and nothing if there is none. |
| `QueueObjects.StdLockedQueue.WaitAndPop` | src/dousi/core/common/std_locked_queue.h:20-25 | The waiting pop returns the front of the first non-empty queue it sees and leaves the rest. |
| `QueueObjects.StdLockedQueue.GetSize` | src/dousi/core/common/std_locked_queue.h:27-30 | The size is right exactly below 2^32 elements; beyond, whole multiples of 2^32 are missing from it. |
| `QueueObjects.BoostLockFreeQueue.WaitAndPop` | src/dousi/core/common/boost_lock_free_queue.h:19-28 | The polling pop meets the same specification as the locked one. |
| `QueueObjects.BoostLockFreeQueue.GetSize` | src/dousi/core/common/boost_lock_free_queue.h:30-32 | It reports 0, which is the size only for sizes that are multiples of 2^32. |
| `PrettyName.ScanBack` | src/thirdparty/nameof/nameof.hpp:331-369 | A backward scan with a wrapping unsigned counter stops where the true depth is 0, and counts the characters passed over. |
| `PrettyName.ComputePrettyName` | src/thirdparty/nameof/nameof.hpp:314-391 | The function, with its wrapping counters, computes the specified name for every text that fits in memory. |
| `PrettyName.WrapIsExact` | src/thirdparty/nameof/nameof.hpp:331-369 | Wrapping never makes a counter 0 when the depth is not. |
| `PrettyName.StopIsLast` | src/thirdparty/nameof/nameof.hpp:331-369 | A scan stops after the last character that is no bracket and has depth 0 behind it, and finds nothing only if there is none. |
| `PrettyName.DepthCounts` | src/thirdparty/nameof/nameof.hpp:331-369 | The depth is the number of closing brackets less that of opening ones. |
| `PrettyName.CharacterClasses` | src/thirdparty/nameof/nameof.hpp:371-390 | Which characters are digits, letters and identifier characters, one by one. |
| `PrettyName.ResultIsMaximalIdentifier` | src/thirdparty/nameof/nameof.hpp:371-390 | The result is empty or an identifier that is maximal in the name: never over-trimmed or under-trimmed. |
| `PrettyName.Idempotent` | src/thirdparty/nameof/nameof.hpp:314-391 | Applying it again changes nothing. |
| `PrettyName.SpellingToIdentifier` | src/thirdparty/nameof/nameof.hpp:314-391 | A qualifier that does not end in an identifier character, an identifier, well-nested template arguments and call parentheses are mapped to the identifier, for any nesting, unless the text begins as a literal or a number. |
| `PrettyName.LiteralsHaveNoName` | src/thirdparty/nameof/nameof.hpp:315-329 | A text that begins with a digit, or with a quote after no prefix, R, L, U, u or u8, has no name. |
| `PrettyName.MemberPointer` | src/thirdparty/nameof/nameof.hpp:314-391 | The text `&Class::method` gives `method` for every class text and every identifier. |
| `PrettyName.UnmatchedParenKeepsName` | src/thirdparty/nameof/nameof.hpp:331-349 | The first scan leaves any well-nested text followed by closing parentheses that nothing opens whole. |
| `PrettyName.UnmatchedParenCanCut` | src/thirdparty/nameof/nameof.hpp:331-349 | Other unmatched parentheses can make the first scan cut the name: `f(a)(` becomes `f(a`, and `x)g()` becomes `x)g`. |
| `EnumTables.Values` | src/thirdparty/nameof/nameof.hpp:517-531 | The compaction loop terminates and lists exactly the named values in order. |
| `EnumTables.Indexes` | src/thirdparty/nameof/nameof.hpp:579-586 | The index table holds each named value's rank, and the sentinel elsewhere. |
| `EnumTables.SelectOfRank` | src/thirdparty/nameof/nameof.hpp:517-531 | The value listed at a named value's rank is that value. |
| `EnumTables.RankOfSelect` | src/thirdparty/nameof/nameof.hpp:579-586 | The rank of the v-th listed value is v. |
| `EnumTables.IndexesInvertValues` | src/thirdparty/nameof/nameof.hpp:558-586 | After shifting to the minimum, the index table inverts the value list; the sentinel is never a real index. |
| `EnumTables.LookupIsSearch` | src/thirdparty/nameof/nameof.hpp:700-719 | The sparse layout equals a linear search for every value; the dense one does so if and only if the value is named or out of range, and reads a null entry otherwise. |
| `EnumTables.ChosenLayoutIsSearch` | src/thirdparty/nameof/nameof.hpp:591-600 | For the layout that `is_sparse` picks, lookup equals linear search if and only if it is sparse or the value is named or out of range. |
| `EnumTables.SparseIffFewNames` | src/thirdparty/nameof/nameof.hpp:591-600 | The sparse layout is chosen exactly if the pointers it saves outweigh the index table; with 8-byte pointers, if less than 7/8 of the range is named, or less than 3/4 with two-byte indexes. |
| `EnumTables.DenseReadsNull` | src/thirdparty/nameof/nameof.hpp:591-600 | For the enum with values 0 to 7 without 3, with 8-byte pointers and whatever range is reflected around them, `is_sparse` picks the dense layout and the lookup of 3 gets a null pointer. |
| `EnumTables.SparseIsChosen` | src/thirdparty/nameof/nameof.hpp:591-600 | For the enum with values 0 and 100, whatever range is reflected around them, the sparse layout is chosen and every lookup is right. |
| `EnumFlags.Log2` | src/thirdparty/nameof/nameof.hpp:409-417 | The shift loop finds the highest set bit, or 0 for values up to 1. |
| `EnumFlags.Log2OfOneBit` | src/thirdparty/nameof/nameof.hpp:558-562 | On the one-bit values of a flags enum it is the inverse of the shift. |
| `EnumFlags.FlagsMatchTables` | src/thirdparty/nameof/nameof.hpp:605-631 | In either layout the printer's pairs of bit and name are the table's entries. |
| `EnumFlags.NameofEnumFlags` | src/thirdparty/nameof/nameof.hpp:722-751 | The printing loop computes the specified text for any flags and value. |
| `EnumFlags.LayoutsAgree` | src/thirdparty/nameof/nameof.hpp:722-751 | Both layouts print the same text for every set of named bits and every value. |
| `EnumFlags.PrintedIffNamed` | src/thirdparty/nameof/nameof.hpp:733-750 | Something is printed if and only if the value is not zero and all its set bits are named. |
| `EnumFlags.PrintedInOrder` | src/thirdparty/nameof/nameof.hpp:722-751 | The text lists the names of exactly the set bits, each once, lowest first. |
| `EnumFlags.PrintedRoundTrip` | src/thirdparty/nameof/nameof.hpp:722-751 | Splitting the text at the bars and looking the names up gives back exactly the set bits, for distinct names without bars. |
| `EnumFlags.PrintFlags` | src/thirdparty/nameof/nameof.hpp:722-751 | With tables built from the names, the loop prints the names of the set bits, whichever layout was chosen. |
| `IoThreadPools.IOThreadPool.GetNextIOService` | src/dousi/core/executor/io_thread_pool.h:33-37 | It returns the service at the index, which stays in range and moves on by one, wrapping at the pool size. |
| `IoThreadPools.IOThreadPool.Take` | src/dousi/core/executor/io_thread_pool.h:33-37 | Any number of calls returns the services at the indices of the round. |
| `IoThreadPools.PicksExactly` | src/dousi/core/executor/io_thread_pool.h:33-37 | How often each service is picked by n calls: once per whole round, once more if its turn has come. |
| `IoThreadPools.PicksAreFair` | src/dousi/core/executor/io_thread_pool.h:33-37 | Two services' pick counts never differ by more than one. |
| `IoThreadPools.WindowIsPermutation` | src/dousi/core/executor/io_thread_pool.h:33-37 | Any pool-size consecutive picks contain every service exactly once. |
| `Endpoints.StoiDecimal` | src/dousi/common/endpoint.h:29 | Parsing the decimal text of a number gives the number back within `int`, and throws beyond. |
| `Endpoints.StoiNumber` | src/dousi/common/endpoint.h:29 | Spaces, an optional sign, digits and any other text are read as the signed number, or it throws beyond `int`. |
| `Endpoints.StoiNoNumber` | src/dousi/common/endpoint.h:29 | Without a digit after spaces and sign it throws. |
| `Endpoints.ZeroInFront` | src/dousi/common/endpoint.h:29 | Leading zeros do not change the number. |
| `Endpoints.PortTextNarrows` | src/dousi/common/endpoint.h:25-30 | After any host without ':', a decimal port is stored modulo 2^16, or parsing throws if it exceeds `int`. |
| `Endpoints.ParseAtColon` | src/dousi/common/endpoint.h:25-30 | The host is what is before the first colon; the port is read from what is after it, modulo 2^16. |
| `Endpoints.ParseWithoutColon` | src/dousi/common/endpoint.h:25-30 | Without a colon the whole text is the host and is read as the port too. |
| `Endpoints.RoundTripIff` | src/dousi/common/endpoint.h:50-52 | Printing and parsing gives an endpoint with a 16-bit port back if and only if its host has no ':'. |
| `Endpoints.ToStringShape` | src/dousi/common/endpoint.h:50-52 | The host, a colon, and the port's decimal digits without leading zeros. |

## Left out

- Boost.Asio, sockets, name resolution, accept errors and write errors: nondeterministic steps and byte sequences stand for them.
- Partial writes that interleave between threads: one gathered write is one step, as stated under "What is assumed".
- Threads inside the classes `Submitter` and `Executor`: their methods are whole sequential calls, related to the pipeline's steps; the interleaving of these steps is in `Pipeline`.
- The endless loops: the classes' loops run until they would block; `Pipeline` has each iteration's steps in any interleaving.
- Memory-level data races, such as the second, unlocked map lookup in `GetObject` while another thread inserts; what is proved is that it sees the right value if map operations are atomic.
- C++ object lifetimes, such as the raw service pointer bound by `RegisterMethod`.
- The contents of service objects: a method's result is a function of all calls performed before and of its arguments.
- msgpack itself, including conversions of element types; arguments are byte strings.
- The value that a future of a void method decodes from its empty payload.
- The Java client and JNI: the callback that hands bytes to Java.
- `Shutdown` and the destructors: the server's loops never end.
- `CreateService`: it fills a map that nothing reads.
- The wire format of docs/dousi_protocol.md, which the code does not implement.
- Logging, the monitor thread, benchmarks, examples and build files.
- Compiler reflection: `__PRETTY_FUNCTION__` offsets, `is_valid`, `reflected_min`, `reflected_max`, and the `cstring` operators; only which value has which name matters.
- Wrap-around of the 64-bit id counters after 2^64 calls or connections.
- The Boost queue's ignored push result: its queue has room here.
