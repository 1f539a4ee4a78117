# A verified model of iroh-kmp

iroh-kmp wraps the `iroh` QUIC library for Kotlin Multiplatform. Its own code decides lock
scopes, handle ownership, the order of library calls and how data is converted; this project
models those decisions in Dafny and proves what follows from them. The library itself appears
as a nondeterministic environment whose assumed behaviour is written into the model.

`dafny verify dfyconfig.toml` checks everything.

## What is modelled

* **Streams under concurrency.** `SendHalf` and `RecvHalf` are labelled transition systems: any
  number of tasks call into one half; each call queues for the half's FIFO lock (`FifoLock`),
  works while it holds the guard, and returns, fails or is cancelled. Writes are accepted in
  arbitrary non-empty chunks within the credit granted so far, bytes arrive in arbitrary pieces,
  the peer may grant credit, stop, reset or acknowledge, the connection may be lost at any moment.
  A sequence of events is legal when each is enabled where it happens, so "for every legal sequence
  from the initial state" is "in every reachable state". `SendSafety` and `RecvSafety` hold what every interleaving keeps,
  `SendAnswers` and `RecvAnswers` what each caller is told and when,
  `SendProgress` the measure, what a writer without credit does to everyone behind it, and the
  argument about `stopped`.
* **The same halves as objects.** `SendObject.SendStream` and `RecvObject.RecvStream` are classes
  whose methods carry out one call imperatively - waiting for the lock, looping over chunks,
  filling a buffer in place - and are proved to perform legal runs of the transition systems. At
  every await an arbitrary run of everyone else's events happens, and the call may be dropped - never
  by a caller that is `keen`, a parameter of the methods.
* **Two parties.** `Pipe` joins a send half and a receive half by an ordered network; `AtomicLog`
  is the simple system it should look like; `Refinement` proves that it does; `PipeSafety`
  follows stops, acknowledgements, resets and ends to the other side; `RoundTrip` shows the round
  trip of the repository's tests for every payload. `Duplex` puts the two halves of one
  bidirectional stream side by side, on one connection.
* **Accepting and owning connections.** `AcceptQueue` has any number of concurrent `accept_conn`
  and `accept_next` callers on one queue. `Handles` counts connection handles while any number of
  `connect` and `accept_next` calls run through their phases; `HandleSafety` says who keeps a
  connection open, `HandleAnswers` what each caller is given, and `EndpointObject.Endpoint` has the
  connecting and accepting calls as straight-line code. `AcceptSafety` traces every connection and
  every accepting call to its end.
* **Address watching.** `AddrWatch` sets repeated `addr_updated` calls against an unbounded
  history of addresses.
* **Addresses and tickets.** `Addresses` has the two conversions between the native address set
  and its flat form, `Tickets` the normaliser and the ticket functions.
* **Configuration and path classification.** `Config` and `Paths`.

## Assumptions about the library

* The mutex is exclusive and FIFO; a dropped guard releases it and a dropped waiter leaves the
  queue, cancellation included. (`blocking_lock` queues like `lock`.)
* A write appends a non-empty chunk of what is left, within the credit granted so far (section 4
  of RFC 9000 and the local send buffer); it waits while there is none; it fails when the stream is
  finished, reset, stopped by the peer, or the connection is gone. Credit is an event of the
  environment, and nothing obliges it to come: results that need it say so - "given credit" below
  means that the environment grants some whenever the writer that holds the lock has none. `finish` and `reset` follow the sending
  states of section 3.1 of RFC 9000; `finish` on a stream the peer has stopped is accepted
  without effect. The future behind `stopped` is ready once the peer stopped the stream, all of
  it is acknowledged, or the connection is lost. No credit, stop or acknowledgement arrives on a
  lost connection.
* Bytes arrive in order (section 2.2 of RFC 9000). `read` hands over what it returns in one step;
  `read_exact` and `read_to_end` collect pieces. A zero-length `read` returns at once. A
  `read_to_end` that does not return Ok leaves the half unusable for further reads.
* Shutting an endpoint down closes all its connections: no handshake or stream completes after it.
  A connection is closed when its last handle is dropped.
* A watcher reports a change exactly when the version it last saw is no longer the current one.
* Text parsing undoes text printing, except that an IPv6 flow label is not printed and no parsed
  address has one. Address sets are enumerated in a fixed total order. Ticket decoding undoes
  ticket encoding.

These appear as guards of events or as hypotheses (`Addresses.Lawful`, `Tickets.SoundFormat`).

## Where the code and its documentation part

The model follows the code. For each of these a concrete case is given and the exact condition
under which the promise does hold is proved.

* README.md:86-88 advises looping `addrUpdated()` into a flow. A change that falls between one
  return and the next call is not reported (`AddrWatch.ChangeBetweenCallsIsMissed`); the loop is
  up to date exactly when there was none
  (`AddrWatch.LoopIsCurrentExactlyWhenNothingFellBetween`). After a disconnection the loop no
  longer waits at all (`AddrWatch.DisconnectedLoopNeverWaits`).
* src/commonMain/rust/endpoint_addr.rs:63-64 calls `ticket_from_endpoint_addr` the inverse of
  `endpoint_addr_from_ticket`. It is one exactly on addresses with at most one relay, no transport
  other than IP and relay, and no flow label (`Tickets.FlatRoundTripKeepsLosslessTickets`); a ticket
  with two relays does not come back (`Tickets.TwoRelayTicketDoesNotComeBack`).
* src/commonMain/rust/connection.rs:150-164 exports a path that is neither IP nor relay as IP, so
  the snapshot and `conn_type` can disagree (`Paths.OtherTransportIsExportedAsIp`,
  `Paths.SnapshotAgreesExactlyWhen`).
* src/commonMain/rust/stream.rs:104 calls `reset` abrupt. It cannot interrupt a `send_bytes` that
  waits for credit with the guard held (`SendProgress.SendWithoutCreditStarves`): it is not served,
  nor is any other call, until credit, a peer stop, a loss or that send's cancellation
  (`SendProgress.StarvedHoldsUpEveryone`), and those are the only ways out
  (`SendProgress.RelievedExactlyBy`).
* A cancelled `read_exact` keeps the bytes it had taken (`RecvSafety.CancelledReadExactLosesAByte`,
  `RecvSafety.NothingLostExactlyWhen`); a cancelled `recv` never does.

## Model

| member | source | states |
|---|---|---|
| `SendSafety.WrittenIsPartsInLockOrder` | src/commonMain/rust/stream.rs:35-39 | In every reachable state the stream is the concatenation, in lock order (which is call order), of whole messages for calls that returned Ok and prefixes for all others; only the lock holder can be part-way; a finished call holds neither lock nor queue place |
| `SendSafety.OkMessageIsContiguous` | src/commonMain/rust/stream.rs:33-39 | A message whose call returned Ok lies in the stream in one piece, directly after the parts of the calls granted before it |
| `SendSafety.CloseLandsAtCallBoundary` | src/commonMain/rust/stream.rs:70-74 | Whatever event ends the writable life of a stream, it is a `finish` or `reset`, nobody is part-way through a `send_bytes` at that moment, and no byte changes |
| `SendSafety.ClosedStreamNeverGrows` | src/commonMain/rust/stream.rs:105-109 | After a finish or reset no continuation writes a byte or reopens the stream |
| `SendSafety.WrittenOnlyGrows` | src/commonMain/rust/stream.rs:149-152 | Over every continuation what was written stays a prefix of what is written |
| `SendSafety.CreditIsConserved` | src/commonMain/rust/stream.rs:36-37 | Over every run what is written plus the credit left grows by exactly the credit granted, so no run writes more than it was granted |
| `SendSafety.AnswersStayTrue` | src/commonMain/rust/stream.rs:154-186 | Every answer given to a `send_bytes`, `finish`, `reset` or `stopped` call is true of the stream when given and in every later state |
| `SendSafety.StreamMovesForward` | src/commonMain/rust/stream.rs:161-166 | Over every run the sending state only moves along the transitions of section 3.1 of RFC 9000, and a stop or loss is never forgotten |
| `SendAnswers.EveryAnswerHasItsMoment` | src/commonMain/rust/stream.rs:149-186 | Over every run, a call that is over was ended by one event and told what the stream called for there: cancelled only by its own cancellation, `send_bytes` Ok exactly with all bytes written, `finish` Ok exactly on an open stream, `reset` Ok exactly on one not acknowledged or reset, `stopped` with code, None or error by the stream's state |
| `SendAnswers.AnswersAreFinal` | src/commonMain/rust/stream.rs:35-39 | An answer once given never changes |
| `SendAnswers.CancelledExactlyWhenDropped` | src/commonMain/rust/stream.rs:34-35 | Over every run a call is cancelled exactly when its caller dropped it |
| `SendAnswers.UnfinishedCallsCanBeDropped` | src/commonMain/rust/stream.rs:69-74 | Every unfinished asynchronous call can be dropped; that frees its guard or queue place and leaves the stream as it is |
| `SendAnswers.WaitingStoppedAnswers` | src/commonMain/rust/stream.rs:180-186 | In every reachable state a waiting `stopped` can return exactly when the peer stopped the stream, all is acknowledged or the connection is lost, and says exactly which |
| `SendAnswers.StoppedTellsThePeersCode` | src/commonMain/rust/stream.rs:183-186 | Once the peer has stopped the stream, over every run a waiting `stopped` can return, returns the peer's code exactly when it does, is cancelled exactly when dropped, and comes to no other end |
| `SendHalf.StepKeepsInv` | src/commonMain/rust/stream.rs:139-192 | Every event - call, grant, chunk, completion, failure, cancellation, peer or network event - keeps the send-half invariant |
| `SendHalf.RunKeepsInv` | src/commonMain/rust/stream.rs:22-28 | The invariant holds along every legal run |
| `SendProgress.StepWork` | src/commonMain/rust/stream.rs:35-39 | Each step of a call, with any chunk size, strictly lowers remaining bytes plus remaining phases; no other step of existing calls, peer or network raises it |
| `SendProgress.ProgressIsBounded` | src/commonMain/rust/stream.rs:149-166 | Over any run of the calls already made, the number of call steps is bounded by the work at its start |
| `SendProgress.WaitIsBounded` | src/commonMain/rust/stream.rs:35-39 | Nobody is overtaken: over every run, any number of new calls included, a call still queued or holding has seen at most as many call steps as there was work in it and the calls before it |
| `SendProgress.BlockedExactlyWhenStarved` | src/commonMain/rust/stream.rs:35-38 | With calls unfinished, nothing can move exactly when the holder is an unfinished `send_bytes` on a writable stream without credit: no wait cycle is reachable |
| `SendProgress.RelievedExactlyBy` | src/commonMain/rust/stream.rs:36-37 | Credit, a peer stop, a loss or the writer's own cancellation ends that state, after which some call can move; no other event does |
| `SendProgress.StarvedHoldsUpEveryone` | src/commonMain/rust/stream.rs:70-109 | Until one of those events, over every run, nobody is given the lock: every `finish`, `reset`, `stopped`, priority or id call, queued or new, stays unserved and the stream unchanged |
| `SendProgress.SendWithoutCreditStarves` | src/commonMain/rust/stream.rs:149-166 | For every non-empty payload such a state is reachable with a `finish` and a `reset` queued behind the send |
| `SendProgress.GrantedCallsFinish` | src/commonMain/rust/stream.rs:35-39 | Every run of the calls already made in which a starved writer is granted credit ends within a bound known at its start, and cannot be continued exactly when all calls are finished |
| `SendProgress.QuiescentMeansComplete` | src/commonMain/rust/stream.rs:70-74 | A run that can make no further call step and does not end with a writer out of credit has finished every call except waiting `stopped` futures, and the lock is free |
| `SendProgress.Drain` | src/commonMain/rust/stream.rs:149-159 | From any reachable state call steps, given credit, finish all calls and leave every waiting `stopped` untouched |
| `SendProgress.WaitingStoppedBlocksNobody` | src/commonMain/rust/stream.rs:183-186 | A waiting `stopped` neither holds nor wants the lock, and any new call can, given credit, be carried to its end while it still waits |
| `SendProgress.WaitingStoppedCanBeFinished` | src/commonMain/rust/stream.rs:180-186 | From any reachable state on a live connection with a waiting `stopped` and no peer stop, finishing the stream and having it acknowledged resolves it with None |
| `SendProgress.LostStoppedFails` | src/commonMain/rust/stream.rs:183-186 | Once the connection is lost before a stop or full acknowledgement, over every run a waiting `stopped` can resolve and does so with an error, never with an answer |
| `SendProgress.ParkedFreezesTheHalf` | src/commonMain/rust/stream.rs:184-185 | In the variant that waits with the guard held, no queued call is ever served, whatever credit comes, unless the peer stops, the connection dies or the waiter is cancelled |
| `SendProgress.GuardedVariantDeadlocks` | src/commonMain/rust/stream.rs:156-159 | That variant reaches such a state with a `finish` queued behind the `stopped` that waits for it |
| `SendObject.SendStream.SendBytes` | src/commonMain/rust/stream.rs:149-152 | Whatever others do between its chunks the call is a legal run; its bytes are the last on the stream, directly after those of all earlier calls; Ok exactly when all of them are there, otherwise it was dropped or the stream is no longer writable; dropped in the queue it wrote nothing |
| `SendObject.SendStream.Acquire` | src/commonMain/rust/stream.rs:36 | Waiting for the lock ends - however many callers come later - with the lock held and nothing of the call's own done yet, or dropped in the queue |
| `SendObject.SendStream.Finish` | src/commonMain/rust/stream.rs:156-159 | Acting in the state where it got the lock, `finish` succeeds exactly on an open stream, finishes it unless the peer stopped it, and changes nothing else; cancelled exactly when dropped |
| `SendObject.SendStream.Reset` | src/commonMain/rust/stream.rs:162-166 | A code outside the varint range fails without touching lock or stream; otherwise `reset` succeeds, leaving the stream reset, exactly when it was not yet acknowledged in full or reset, and changes nothing when it fails |
| `SendObject.SendStream.BeginStopped` | src/commonMain/rust/stream.rs:183-184 | `stopped` is off the lock when it starts to wait |
| `SendObject.SendStream.AwaitStopped` | src/commonMain/rust/stream.rs:185 | After any run of other events the wait answers with the peer's code if the peer stopped the stream, else None if it is acknowledged in full, else an error on a lost connection; cancelled exactly when its caller drops it |
| `RecvSafety.ReadsAreAPrefixInLockOrder` | src/commonMain/rust/stream.rs:54-64 | In every reachable state what calls took, in lock order, is exactly the consumed prefix of the peer's bytes; returned data is what was taken; a `recv` that did not return took nothing; `read_exact` returns exactly n |
| `RecvSafety.NoneMeansFullyConsumed` | src/commonMain/rust/stream.rs:52-64 | `recv(max)` answers None only for max > 0 at the end of a finished, fully consumed stream, after which nothing is ever consumed |
| `RecvSafety.ReturnedBytesAreContiguous` | src/commonMain/rust/stream.rs:228-233 | Returned bytes are one contiguous piece of the peer's stream, starting where earlier calls left off |
| `RecvSafety.AnswersAreTrue` | src/commonMain/rust/stream.rs:214-247 | Every read's answer is accounted for, errors too: a failure has a reset, a stop, a loss before the end or an earlier spoiling call behind it, or for `read_exact` an end too soon, or for `read_to_end` more bytes than its limit beyond what earlier calls took |
| `RecvAnswers.EveryAnswerHasItsMoment` | src/commonMain/rust/stream.rs:214-247 | Over every run, a call that is over was ended by one event and told what the stream called for there: `recv` the next buffered bytes, else the end, else an error; `read_exact` its n bytes or an error where no more will come; `read_to_end` what it took exactly at the end of an intact stream; `stop` as the library took it; cancelled only by its own cancellation |
| `RecvAnswers.AnswersAreFinal` | src/commonMain/rust/stream.rs:54-64 | An answer once given never changes |
| `RecvAnswers.CancelledExactlyWhenDropped` | src/commonMain/rust/stream.rs:214-240 | Over every run a read is cancelled exactly when its caller dropped it |
| `RecvAnswers.UnfinishedReadsCanBeDropped` | src/commonMain/rust/stream.rs:228-240 | Every unfinished read can be dropped; that frees its guard or queue place and consumes nothing |
| `RecvAnswers.UnreturnedReadToEndSpoilsTheHalf` | src/commonMain/rust/stream.rs:237-240 | After a `read_to_end` that got the lock and failed or was dropped, no run hands out another byte |
| `RecvAnswers.BrokenHalfHandsOutNothing` | src/commonMain/rust/stream.rs:78-90 | On a reset, stopped or spoiled half, over every run no byte is handed out and every unsatisfied read that ends fails or was dropped |
| `RecvSafety.NothingLostExactlyWhen` | src/commonMain/rust/stream.rs:78-83 | Callers together hold every consumed byte exactly when no unreturned `read_exact` or `read_to_end` has taken any |
| `RecvSafety.CancelledReadExactLosesAByte` | src/commonMain/rust/stream.rs:228-233 | A reachable state in which a cancelled `read_exact(2)` has kept one byte |
| `RecvSafety.BlockedExactlyWhenStarving` | src/commonMain/rust/stream.rs:56-57 | With calls unfinished, nothing can move exactly when the holder is a reader starved of bytes |
| `RecvSafety.EnvironmentUnblocks` | src/commonMain/rust/stream.rs:52-64 | Any arrival, end, reset or loss ends the starvation |
| `RecvSafety.ProgressIsBounded` | src/commonMain/rust/stream.rs:78-90 | However bytes arrive and are cut up, the calls already made take a bounded number of steps |
| `RecvSafety.WaitIsBounded` | src/commonMain/rust/stream.rs:56-90 | Nobody is overtaken: over every run, new readers included, a pending read has seen at most as many call steps as there was work in it and the calls before it |
| `RecvHalf.StepKeepsInv` | src/commonMain/rust/stream.rs:204-253 | Every event keeps the receive-half invariant |
| `RecvObject.RecvStream.Recv` | src/commonMain/rust/stream.rs:214-224 | Some(bytes) are the next bytes of the peer's stream, non-empty for max > 0 and at most max; None only at the end; failed or dropped it took nothing, and a failure has its reason in the stream |
| `RecvObject.RecvStream.ReadExact` | src/commonMain/rust/stream.rs:228-233 | Ok is exactly the next n bytes, filled in place piece by piece; a failure means trouble on the stream or an end before n bytes |
| `RecvObject.RecvStream.ReadToEnd` | src/commonMain/rust/stream.rs:237-240 | Ok is all that is left of the peer's finished stream, within the limit; a failure means trouble not of this call's making, or more bytes than the limit beyond what earlier calls took |
| `RecvObject.RecvStream.Stop` | src/commonMain/rust/stream.rs:243-247 | A code outside the varint range fails without touching lock or stream; otherwise, acting in the state where it got the lock, `stop` succeeds and records exactly this code exactly when the half was not stopped yet, and changes nothing when it fails |
| `RecvObject.RecvStream.Acquire` | src/commonMain/rust/stream.rs:216 | Waiting for the lock ends with the lock held and nothing taken yet, whatever was ahead, whoever came later and whatever arrived meanwhile, or dropped in the queue |
| `RecvObject.Fill` | src/commonMain/rust/stream.rs:215-217 | A chunk lands in the buffer at its place and nothing else in it changes |
| `Pipe.ReadToEndCompletesTheMessages` | src/commonMain/rust/stream.rs:35-90 | When `read_to_end` returns, its bytes complete what earlier reads took to everything ever written; with no failed or cancelled send that is the whole messages of the sends that returned, in call order |
| `RoundTrip.EveryPayloadRoundTrips` | src/commonMain/rust/endpoint.rs:451-455 | For every payload and every limit of at least its length there is a run in which it is sent, the stream finished, and `read_to_end` returns exactly it |
| `Pipe.LargeEnoughLimitNeverFails` | src/commonMain/rust/stream.rs:87-90 | A limit covering what is left of the stream never makes `read_to_end` fail |
| `Pipe.StoppedAnswersReflectThePeer` | src/commonMain/rust/stream.rs:180-186 | A code from `stopped` is the one the receiver stopped with; None on a finished stream means every byte has arrived |
| `PipeSafety.StopReachesTheSender` | src/commonMain/rust/stream.rs:183-247 | Once a receiver's stop is delivered, over every run a waiting `stopped` can return and returns the receiver's own code, now or later, unless dropped |
| `PipeSafety.AcknowledgementReachesTheSender` | src/commonMain/rust/stream.rs:180-186 | Once the receiver's acknowledgement is back, over every run a waiting `stopped` can return: None, or the code if the receiver also stopped |
| `PipeSafety.ResetReachesTheReceiver` | src/commonMain/rust/stream.rs:104-109 | Once a reset is delivered, over every run no reader gets another byte and every unsatisfied read that ends fails or was dropped |
| `PipeSafety.EndReachesTheReceiver` | src/commonMain/rust/stream.rs:52-90 | Once the end is delivered, over every run the receiver has every byte ever written, and a reader that has them all is told of the end and cannot fail |
| `Refinement.StepRefines` | src/commonMain/rust/stream.rs:35-90 | Each step of the chunked, locked, two-party system is one step of the atomic message log or invisible in it |
| `Refinement.ChunkedSystemRefinesAtomicLog` | src/commonMain/rust/stream.rs:35-90 | Every run of the real system is a run of the atomic log from the empty log; `recv`'s None and `read_to_end`'s return are the log's end action, possible only when a closed log has been read in full |
| `AtomicLog.SettledMessagesStay` | src/commonMain/rust/stream.rs:33-39 | In the log settled messages never change, reads only grow, and a finished or reset log takes no message |
| `AtomicLog.EndIsFinal` | src/commonMain/rust/stream.rs:52-64 | After the reader is told of the end no message is added or cut short and nothing more is read, over every run of the log |
| `Duplex.RunsAreInterleavings` | src/commonMain/rust/stream.rs:15-28 | A sequence of steps is a run of a bidirectional stream exactly when its projections, each with every loss of the shared connection, are runs of the halves and no half loses the connection alone; and it leads where they lead |
| `Duplex.LossIsShared` | src/commonMain/rust/stream.rs:16-20 | Both halves always agree on whether the connection is gone, and once it is nothing more reaches either |
| `Duplex.BlockedReadNeverDelaysASend` | src/commonMain/rust/stream.rs:35-57 | With a reader starved forever, every send-side call can still, given credit, be finished with the receive half unmoved |
| `AcceptQueue.EveryConnectionIsInOnePlace` | src/commonMain/rust/endpoint.rs:140-162 | For every interleaving each arrived connection is in exactly one place - queued, held, delivered, dropped - and no two calls hold or were given the same one |
| `AcceptSafety.TakenConnectionIsDeliveredOrDropped` | src/commonMain/rust/endpoint.rs:140-162 | A call that took connection c, over every later run: its caller has c, delivered for good, exactly when the handshake (and for `accept_next` the stream) succeeded; it errs exactly when one failed, is cancelled exactly when dropped, and then c is dropped for good; until then it holds c and can succeed on an open endpoint |
| `AcceptSafety.DroppedAndDeliveredExactlyWhen` | src/commonMain/rust/endpoint.rs:147-168 | Over every run a connection is dropped exactly when the call holding it met a handshake failure, a stream failure or a cancellation, or it was still queued at shutdown; delivered exactly when what that call asked for succeeded |
| `AcceptSafety.AnswersComeFromEvents` | src/commonMain/rust/endpoint.rs:140-162 | Over every run each answer has its event and each such event its answer: None, error, connection and cancellation |
| `AcceptSafety.CallsAreThoseInvoked` | src/commonMain/rust/endpoint.rs:139-154 | The calls are those made, in order |
| `AcceptSafety.WaitingCallCanBeServed` | src/commonMain/rust/endpoint.rs:155-161 | On an open endpoint a waiting call can be given exactly the oldest queued connection |
| `AcceptQueue.OneLoopDeliversInArrivalOrder` | src/commonMain/rust/endpoint.rs:133-149 | A single sequential loop delivers an increasing subsequence of the arrivals |
| `AcceptQueue.TwoCallersMayDeliverOutOfOrder` | src/commonMain/rust/endpoint.rs:137-138 | With two callers a later arrival can be delivered first |
| `AcceptQueue.AnswersFitTheCall` | src/commonMain/rust/endpoint.rs:141-161 | None only from a closed endpoint, bare connections only from `accept_conn`, streams only from `accept_next` |
| `AcceptQueue.NothingNewAfterClose` | src/commonMain/rust/endpoint.rs:164-168 | After shutdown nothing arrives, leaves the queue or is delivered, and every unfinished call can end: with None if it waited, with an error if it held a connection |
| `AcceptQueue.CloseEmptiesTheQueue` | src/commonMain/rust/endpoint.rs:166-168 | Shutdown itself puts the queue into that state for good |
| `HandleSafety.HandlesEqualLiveObjects` | src/commonMain/rust/connection.rs:56-80 | In every reachable state, calls part-way included, a connection's handle count is the number of its live connection objects and streams, and it is closed for want of handles exactly when there are none |
| `HandleSafety.NothingLeaks` | src/commonMain/rust/endpoint.rs:140-149 | However calls interleave and wherever they are cancelled, a call that is over holds no object, every object belongs to the application or to a call under way, and every call can be cancelled or has its stream and returns |
| `HandleSafety.ReturnedStreamKeepsConnectionOpen` | src/commonMain/rust/endpoint.rs:99-103 | From the handshake inside `connect` or `accept_next` on, over every run: the returned stream has the connection's only handle and the connection is open exactly while the stream lives, unless the endpoint is shut down or the peer or the network closes it; after failure or cancellation it is closed |
| `HandleAnswers.ReturnedConnectionStaysOpen` | src/commonMain/rust/endpoint.rs:109-162 | From the handshake inside `connect_conn` or `accept_conn` on, over every run: the answer is a new object of the new connection, at first its only handle, the caller's exactly until dropped, and the connection is open while it lives unless shut down |
| `HandleAnswers.OpenedStreamKeepsConnectionOpen` | src/commonMain/rust/connection.rs:56-80 | A stream opened on a connection object is a new object of the kind asked for on the same connection, there exactly until dropped, and keeps the connection open unless shut down |
| `HandleAnswers.NoObjectIsGivenTwice` | src/commonMain/rust/endpoint.rs:113-161 | No two calls ever give their callers the same object |
| `HandleAnswers.AnswersComeFromEvents` | src/commonMain/rust/endpoint.rs:100-162 | Over every run each answer has its event and each such event its answer: None, error, connection, stream and cancellation |
| `HandleAnswers.ClosedEndpointAcceptsNothing` | src/commonMain/rust/endpoint.rs:133-168 | On an endpoint that is shut down, over every run a waiting accepting call can return None and comes to no other end but being dropped, and no connection is made or given |
| `Handles.StepKeepsInv` | src/commonMain/rust/endpoint.rs:107-162 | Every event of calls, application, peer and endpoint keeps handle counts exact and the connection of a call under way its own |
| `HandleSafety.StreamKeepsConnectionOpen` | src/commonMain/rust/stream.rs:11-28 | Any object the application has keeps its connection open through every run that neither drops it nor shuts the connection down |
| `HandleSafety.ShutdownIsFinal` | src/commonMain/rust/connection.rs:108-112 | An explicit shutdown, by the peer or the endpoint included, closes at once and for good, whatever handles remain |
| `HandleAnswers.ShutDownExactlyWhen` | src/commonMain/rust/connection.rs:106-112 | Over every run a connection is shut down exactly when the endpoint was, the peer or the network closed it, or somebody shut it down through a connection object |
| `EndpointObject.Endpoint.Connect` | src/commonMain/rust/endpoint.rs:100-103 | With arbitrary events at each await: success returns a stream on a new connection that is open and has it as its only handle; it fails only if dial or stream does or what it made is shut down, is cancelled only by a caller that drops it, and then leaves nothing behind |
| `EndpointObject.Endpoint.ConnectConn` | src/commonMain/rust/endpoint.rs:109-131 | Success returns a new object with the only handle of a new open connection; it fails only if the dial does or the endpoint is down, and is cancelled only by a caller that drops it |
| `EndpointObject.Endpoint.AcceptNext` | src/commonMain/rust/endpoint.rs:140-149 | None only from a closed endpoint, and always from one closed before the call unless dropped; otherwise as `connect` |
| `EndpointObject.Endpoint.AcceptConn` | src/commonMain/rust/endpoint.rs:154-162 | None only from a closed endpoint, and always from one closed before the call unless dropped; otherwise as `connect_conn` |
| `AddrWatch.SnapshotsGoForward` | src/commonMain/rust/endpoint.rs:186-192 | Until disconnection each call returns a version newer than what was current when it began and current when it returns, and begins no earlier than the version before it: versions strictly increase |
| `AddrWatch.LoopIsCurrentExactlyWhenNothingFellBetween` | README.md:86-88 | A waiting loop's last snapshot is current exactly when no change fell between the last return and the present call |
| `AddrWatch.ChangeBetweenCallsIsMissed` | src/commonMain/rust/endpoint.rs:186-189 | A concrete history in which the loop waits with a stale address |
| `AddrWatch.CancelledCallForgetsTheChange` | src/commonMain/rust/endpoint.rs:186-189 | A dropped call followed by a new one waits from the present version: what the dropped call was about to report is not reported |
| `AddrWatch.DisconnectedLoopNeverWaits` | src/commonMain/rust/endpoint.rs:188-191 | After disconnection any number of calls return at once with the same last version |
| `AddrWatch.DisconnectionIsFinal` | src/commonMain/rust/endpoint.rs:188-191 | After disconnection, over every run the address never changes and every waiting call can return the last version |
| `Addresses.TryFrom` | src/commonMain/rust/endpoint_addr.rs:27-41 | The loop with early exits computes what the flat address denotes, errors included |
| `Addresses.NativeThroughFlat` | src/commonMain/rust/endpoint_addr.rs:24-52 | Native to flat to native always succeeds, keeps the id and leaves exactly the printed IP addresses and the first relay |
| `Addresses.FaithfulAddressesLoseExactly` | src/commonMain/rust/endpoint_addr.rs:44-52 | Without flow labels the result is a subset lacking exactly the relays after the first and all other transports |
| `Addresses.IdentityExactlyWhenLossless` | src/commonMain/rust/endpoint_addr.rs:24-52 | The round trip is the identity exactly with at most one relay, no other transport and no flow label |
| `Addresses.SortedIsUnique` | src/commonMain/rust/endpoint_addr.rs:40 | An ordered address set is determined by its members |
| `Tickets.FailsExactlyWhenMalformed` | src/commonMain/rust/endpoint_addr.rs:27-38 | Building fails exactly when id, an address or the relay does not parse, naming the first in that order |
| `Tickets.NormalFormKeepsTheAddress` | src/commonMain/rust/endpoint_addr.rs:27-51 | Flat to native to flat keeps id, relay and the set of direct addresses, listing them in order without repetition |
| `Tickets.NormalisingIsIdempotent` | src/commonMain/rust/endpoint_addr.rs:27-51 | A normal form is its own normal form |
| `Tickets.FixedExactlyWhenNormal` | src/commonMain/rust/endpoint_addr.rs:24-52 | Flat to native to flat is the identity exactly when id, relay and every direct text are as the library prints them and the direct addresses are in set order, once each |
| `Tickets.TicketRoundTripNormalises` | src/commonMain/rust/endpoint_addr.rs:57-69 | Flat to ticket to flat is the normaliser, errors included |
| `Tickets.FlatRoundTripKeepsLosslessTickets` | src/commonMain/rust/endpoint.rs:109-122 | Ticket to flat to ticket keeps the endpoint always, and the address - with it the dialled target - exactly when lossless; the text exactly when, besides, it was in encoder form |
| `Tickets.TwoRelayTicketDoesNotComeBack` | src/commonMain/rust/endpoint_addr.rs:63-69 | A concrete ticket, with two relays, that the round trip turns into another ticket for another address |
| `Tickets.IdAgreesWithStructuredForm` | src/commonMain/rust/endpoint.rs:271-274 | The id read off a ticket is the id of its structured form, and both fail together |
| `Tickets.BytesRoundTrip` | src/commonMain/rust/endpoint.rs:294-305 | Through raw bytes a ticket keeps its meaning, and its text exactly when in encoder form; likewise bytes through text |
| `Config.BuilderFromOptions` | src/commonMain/rust/config.rs:52-118 | For every preset and options, the first error in source order or a builder with, field by field, what was asked: the preset's relays, none, or the given ones in order; no lookups when off; the given key; the ALPNs as bytes; bind and external addresses appended in order; all else from the preset |
| `Config.ErrorsAreExact` | src/commonMain/rust/config.rs:82-115 | An error rules out validity, and there is only one first error |
| `Config.ChoicesAreIndependent` | src/commonMain/rust/config.rs:64-93 | Choosing relays changes nothing but the relays; lookup off removes every lookup service and nothing else |
| `Config.BindOnlySetsAlpnsAndKey` | src/commonMain/rust/endpoint.rs:44-58 | `bind` is the preset with its ALPNs and key, valid exactly when the key has 32 bytes |
| `Config.Bind` | src/commonMain/rust/endpoint.rs:44-58 | `bind` keeps all of the preset but ALPNs and a given key, and fails exactly on a key that is not 32 bytes |
| `Paths.SnapshotAgreesExactlyWhen` | src/commonMain/rust/connection.rs:151-183 | `conn_type` equals the verdict recomputed from the snapshot exactly when a path is selected, a path is IP, or every path is IP or relay |
| `Paths.OtherTransportIsExportedAsIp` | src/commonMain/rust/connection.rs:155-157 | A concrete disagreement |
| `Paths.OrderIsImmaterialExactlyWhen` | src/commonMain/rust/connection.rs:168-183 | The verdict is the same for every reordering of the paths exactly when all selected paths are relays or none is |
| `Paths.RttAgreesWithSnapshot` | src/commonMain/rust/connection.rs:142-148 | `rtt_ms` is the value on the snapshot's first selected entry, None when nothing is selected |
| `Paths.SnapshotIsFaithful` | src/commonMain/rust/connection.rs:150-164 | The snapshot has one entry per path in order, with its address, selection, relay or not, and its round-trip milliseconds, exact below 2^64 |

## Left out

- Signatures and keys (`crypto.rs`, `sign`, `verify_signature`): they forward to the library.
- Datagrams, stream ids, priorities, `network_change`, `home_relay`, `remote_info`, `bound_sockets`, `set_alpns`, `my_ticket`: direct forwards; the ones that take a stream lock appear as `Query`.
- Error texts (`map_conn_err`, `error.rs`): errors are constructors here.
- QUIC internals - loss recovery, congestion control, how credit is computed: credit appears as an amount the environment may raise, connection-wide and per-stream limits are not told apart.
- `u32` and `u64` widths of lengths and codes: lengths are unbounded, which only adds cases; the varint limit on error codes and the 64-bit truncation of round-trip times are modelled.
- Out-of-order arrival inside the library: the receive half sees the contiguous prefix, so the "size known" state of section 3.2 of RFC 9000 is not told apart from "receiving".
- Whether `stop` on a stream already read to its end succeeds: library-specific; the transition system allows both answers, `RecvObject.RecvStream.Stop` takes the successful one.
- The warm-up task `bind_with` may spawn, and binding itself: no state of the model depends on them.
- Android initialisation, UniFFI scaffolding and build files.
