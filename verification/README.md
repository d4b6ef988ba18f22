# the-fourth-server: a verified model of its request/response protocol

the-fourth-server is an async RPC library. A client task drains a queue of requests over one
connection; a server loop cuts the frames it reads into packets, routes each to a handler and
writes one response per packet. This project models both actors, the routing tables on each
side and the small `/proc` parsers of the benchmark sampler, and proves what they guarantee.

## Layout

- `Wire.dfy`: frames, the packet header, the serializer as a parameter with its laws.
- `TrafficLink.dfy`: stateful traffic processors; one direction of a connection is a lane.
- `Stream.dfy`: the framed transport and the processor object that both ends hold.
- `ServerRouter.dfy`: registration, commit, the tables; `PacketService.dfy`: serving one packet.
- `Connection.dfy`: the server's loop as an automaton, with its order, token and accounting
  properties; `ConnectionLoop.dfy`: segmentation, and the loop itself as a method.
- `ClientTask.dfy`: the client task as methods, as a function, and as an automaton.
- `Session.dfy`: both automata joined by two lanes, as a step system in which the connection may
  be lost at any time; queue discipline.
- `Interleaving.dfy`: every interleaving equals processing the requests one after the other.
- `Framing.dfy`: what the server makes of the client's frames.
- `Pairing.dfy`: which answer each consumer gets, for all data; the specification.
- `Guarantees.dfy`: the results about whole runs: pairing of answers and of names, refinement,
  drift.
- `Execution.dfy`: at-most-once execution of handlers in every run.
- `Progress.dfy`: bounds, absence of deadlock, completion.
- `Mispairing.dfy`: the runs in which requests without data do harm; a service that shows the
  assumptions can be met.
- `ProcStat.dfy`: the field parsers.

`dafny verify dfyconfig.toml` checks everything.

## How the results fit together

The imperative server loop (`TfServer.HandleConnection`) is proved to do what the server
automaton does, and that this is one of the automaton's runs (`ConnectionLoop.DriveIsRun`), so
the order, token and accounting results are about the loop; the imperative client task
(`ClientConnect.ConnectionMain`) is proved to do what the client automaton does over its whole
queue (`ClientTask.ProcessAllIsRun`). The step system interleaves those two automata freely and
may lose the connection, with any of the frames under way, at any step. One inductive invariant
(`Interleaving.RunInStep`) shows that interleaving, lanes and processors do not show: the client
sees what it would see if the server answered at once. `Pairing` then replaces frames by a backlog of answers (`BacklogIsExact`, for all data),
and the backlog by a specification with neither frames nor cache (`NoBacklog`, as long as no
request without data is sent).

The main claim of the protocol, that consumer k gets the answer to request k, is **false of the
code for requests without data**: the client always writes a payload frame, even an empty one,
and the server reads one only when the header announces it. The results on it:

- `Guarantees.OwnAnswerIff` is the exact condition, for all data and in every interleaving: a
  consumer that is handed something is handed the answer to its own packet if and only if every
  request completed before its own had data. `Guarantees.OwnNameAnswerIff` is the same for the
  name queries that requests give rise to.
- `Guarantees.RpcRefinement`: each such consumer gets what the specification says of its request.
  A request without data that is still queued, was dropped, or comes later spoils nothing.
- `Guarantees.NoWrongAnswers` carries this past the loss or the end of the connection: from then
  on requests are dropped, and no consumer is given another's answer.
- `Mispairing.EmptyRequestMispairs` is the counterexample as a run, on any server with
  well-behaved handlers, and `Mispairing.MispairingHappens` a concrete one;
  `Guarantees.ExactDrift` counts the stale answers.
- The harm is not confined to answers: **after a request without data a wrong handler can run**.
  A request by one name may take another name's answer for its own; the wrong id is then cached
  for good and the request's data goes to the other name's handler
  (`Mispairing.EmptyRequestMisroutes`, `Mispairing.MisroutingHappens`).

`Guarantees.ConsumerIsGiven` says the specification by what was registered: which handler runs,
with what, and what its consumer is told, errors included.

Whatever the data and whatever is lost, no request is executed twice (`Execution.AtMostOnce`), and
none is held up for ever by later ones (`Progress.RequestSettledInTime`).

Where a comment and the code differ the model follows the code: `src/server/handler.rs:17-18`
says that returning the sender asks for a hand-off, but the loop hands off when something was
sent through it and takes a returned sender as a reason to go on.

## Assumptions

The crate `the_fourth_utils` (serializer, key types, transports, processors) is not part of
this model; what it must provide is stated as predicates and shown to be satisfiable together
(`Mispairing.AssumptionsAreMet`).

- Serializer (`Wire.Lawful`): decoding inverts encoding; a name query does not decode as a
  header, the empty frame decodes as neither, an error reply does not decode as a name answer.
  Nothing is assumed of other bytes, so payloads and handler replies may look like anything.
  Encoding a header or a query may fail; the encodings that the source unwraps do not.
- Key equality: `IdRespecting`, and for name-to-handler results `MatchesByMembership`.
- Processors (`TrafficLink.LaneLawful`): in matching states receiving undoes sending and the
  states match again. States are opaque and numbered.
- Handlers terminate. Their results come from an oracle over the call's number and arguments,
  and a second oracle says what is sent later through a connection's sender that a handler did
  not give back, by each look the loop takes into its channel. A panic is a handler result.
  `TokenConserved` and `HandOffIsOwnHandlers` need the contract `HonoursToken`;
  `TokenConservedIff` needs that no handler gives back the connection's sender after an earlier
  call had put it away (`AllOwned`); `EmptyRequestMispairs` and
  `EmptyRequestMisroutes` are about handlers that always give the sender back (`AlwaysReturns`). No other result restricts what handlers do.
- In the step system each lane delivers in order. When the connection is lost, any number of the
  last frames in either lane is lost with it, later writes fail or vanish, and either side reads
  the end once it has read what still arrives.

## Model

| member | source | states |
|---|---|---|
| `ServerRouter.Lifecycle` | src/server/server_router.rs:54-93 | after any sequence of add and commit calls: ids count registrations, a commit of nothing does not freeze, the tables are set once by the first commit that has something to commit, and hold the registrations made before it |
| `ServerRouter.FrozenForGood` | src/server/server_router.rs:60-62 | after that commit no sequence of further calls changes any part of the router |
| `ServerRouter.IdsInOrder` | src/server/server_router.rs:67-73 | registration k has id k modulo 18446744073709551616 |
| `ServerRouter.IdsDistinctIff` | src/server/server_router.rs:67-73 | ids are distinct exactly as long as no more than 2^64 routes were registered |
| `ServerRouter.HashLookupIsLinearSearch` | src/server/server_router.rs:82-92 | for any key equality that implies equal ids, whichever matching entry the hash table answers with, it is the one a scan of the registrations finds |
| `ServerRouter.OverlapIsNotTransitive` | src/server/server_router.rs:111-116 | the natural key equality, overlap of type sets, meets the assumptions and is not transitive |
| `ServerRouter.HandlerReachable` | src/server/server_router.rs:109-116 | every registration, also one whose name was taken over, is reached by its own id with exactly its own types |
| `ServerRouter.NameAnswered` | src/server/server_router.rs:145-154 | a name is known exactly if it was registered before the commit |
| `ServerRouter.NameAnswersLastId` | src/server/server_router.rs:85-88 | a name answers with the id of its last registration |
| `ServerRouter.NameReachesHandler` | src/server/server_router.rs:109-151 | the id a name answers with, with any type of that registration, reaches that registration's route |
| `ServerRouter.TfServerRouter.AddRoute` | src/server/server_router.rs:54-74 | unless committed, one registration more: the next number, the route, the name, and a type set that holds just the types of the popped list; nothing else changes |
| `ServerRouter.RegisteredAs` | src/server/server_router.rs:54-74 | an add before the effective commit registers its route, name and types under the next number, and no later call changes that |
| `ServerRouter.AddedRouteReached` | src/server/server_router.rs:63-116 | a route added with a list of types is reached by its number with a type if and only if the type is in the list |
| `ServerRouter.UnregisteredIsUnrouted` | src/server/server_router.rs:116-124 | a number that was not given out reaches no route |
| `ServerRouter.InsertMeans` | src/server/server_router.rs:82-84 | insertion appends, or gives the first equal key a new value in place |
| `ServerRouter.TfServerRouter.CommitRoutes` | src/server/server_router.rs:77-93 | the drain loop's new state: both tables built from all pending registrations, in order |
| `PacketService.CalledIff` | src/server/server_router.rs:108-157 | a handler runs exactly for packets whose header decodes and whose key some entry matches; the others give the sender back, and get the no-such-handler error if the header decodes and the malformed-header error if it decodes neither as a header nor as a query |
| `PacketService.CallAndReply` | src/server/server_router.rs:126-141 | the matching entry's handler is given the packet's type and payload and the loop's sender; its data, its error and its panic become the replies the source gives them |
| `Connection.GoesOnAfter` | src/server/server.rs:268-288 | whether the loop goes on after a reply, in every run: exactly if the write worked, the reply by itself lets it, and nothing came from someone who kept the connection's sender; after a packet that reached no handler it ends only by a failed write or such a late message |
| `Connection.OneResponsePerPacket` | src/server/server.rs:218-289 | at every point of every run: one response attempt per served packet, and frames read equal served headers plus served payloads plus discarded ones plus those in hand |
| `Connection.TokenConserved` | src/server/server.rs:216-282 | if handlers keep their contract, whenever the loop reads it holds the live sender of its channel, nobody else does, and the channel is empty |
| `Connection.TokenConservedIff` | src/server/server.rs:264-282 | run by run, without the contract: while the loop reads it holds its own sender if and only if every handler it called gave back the sender it was given (unless a handler gives back one that an earlier call had put away) |
| `Connection.ForeignSenderLosesToken` | src/server/server.rs:265-267 | without the contract this fails: on any route, a handler returning any sender of its own leaves the loop running without its token, and the token in other hands |
| `Connection.RunIsOrderly` | src/server/server.rs:218-289 | every run's trace obeys the order: served, attempted with that reply's bytes, then exactly the ending or continuation that the channel, the returned sender and the write call for; the channel holds what that packet's handler sent, and otherwise something only if a handler kept the sender |
| `Connection.HandOffSafety` | src/server/server.rs:264-277 | hand-off happens at most once, last, right after the attempt to write a reply, whether or not the write worked, with the function found in the channel: what that packet's handler sent in its call, or, if it sent nothing, what came through a sender that a handler had kept |
| `Connection.HandOffIff` | src/server/server.rs:271-277 | in every run a reply is followed by a hand-off to fn exactly if its handler was given the connection's sender and sent fn through it, or, if it sent nothing, someone who has the sender had sent fn by then; the write does not matter |
| `Connection.KeptIff` | src/server/server.rs:264-267 | someone else may have the connection's sender exactly if some handler kept it and no later one gave it back |
| `Connection.HandOffIsOwnHandlers` | src/server/server.rs:264-277 | if handlers keep their contract, a hand-off is the doing of the handler of the packet just answered |
| `Connection.EndIsFinal` | src/server/server.rs:277-288 | after hand-off or close nothing is read, served or written |
| `Connection.PanicContained` | src/server/server_router.rs:126-141 | a panic gets exactly one attempt to write the internal error with the text "handler died :(", and then the loop ends: by hand-off to what the handler had sent through the token, or to what else the channel holds by then, and by close otherwise |
| `ConnectionLoop.LoopServesSegments` | src/server/server.rs:218-263 | for every sequence of frames, recoverable errors, fatal errors and end of stream the loop's work is a function of the recursive segmentation of its reads |
| `ConnectionLoop.ErrorsInSegments` | src/server/server.rs:309-333 | kind by kind: which read errors end the packets, and which are passed over, taking a waiting header with them |
| `ConnectionLoop.ErrorsInLoop` | src/server/server.rs:221-256 | kind by kind: which read errors close the loop and after which it reads on from a header |
| `ConnectionLoop.ServedIsPrefix` | src/server/server.rs:264-269 | the packets served are the first ones of the segmentation, one response each |
| `ConnectionLoop.StopsOnlyAtLast` | src/server/server.rs:271-288 | and all of them, unless the last one served stopped the loop |
| `ConnectionLoop.DriveIsRun` | src/server/server.rs:218-289 | driving the automaton over a connection's reads is one of its runs, so what holds of every run holds of the loop |
| `ConnectionLoop.TfServer.ReceiveMessage` | src/server/server.rs:301-333 | a frame is pre-processed and advances the receive state; a reset, an abort, a broken pipe, an unexpected end of file and the end of the stream end the connection; invalid data and other errors do not |
| `ConnectionLoop.TfServer.SendMessage` | src/server/server.rs:292-299 | one write of the post-processed message, and how it turned out |
| `ConnectionLoop.TfServer.HandleConnection` | src/server/server.rs:209-290 | the loop ends as the automaton does on the reads as processed, having written just the automaton's responses as the processor sends them |
| `TrafficLink.LockStep` | src/server/server.rs:292-311 | frame k is received in a state matching the one it was sent in, and comes out as it went in |
| `TrafficLink.SendAllKeepsStep` | src/client/mod.rs:269-273 | frames post-processed in a row are under way in step with those before them |
| `ClientTask.ClientConnect.RequestRoute` | src/client/target_router.rs:43-58 | a cached name costs nothing; otherwise one exchange, and only an answer enters the cache |
| `ClientTask.ClientConnect.RequestRouteFromServer` | src/client/target_router.rs:60-89 | the query frame, the one read, and the decoded id or failure |
| `ClientTask.ClientConnect.ProcessRequest` | src/client/mod.rs:236-281 | cache, transport, processor and outcome after one request, error paths included |
| `ClientTask.ClientConnect.ConnectionMain` | src/client/mod.rs:199-211 | the queue is drained in order, each request once, failures not retried |
| `ClientTask.ProcessIsRun` | src/client/mod.rs:236-281 | processing a request is running the client automaton until it is idle again |
| `ClientTask.ProcessAllIsRun` | src/client/mod.rs:199-211 | draining the queue, as the task's loop does, is running the client automaton over its queue: same cache, transport and outcomes, and an empty queue |
| `ClientTask.AdvanceUsesWeight` | src/client/mod.rs:236-281 | each step of the automaton uses up weight, so every request comes to an end |
| `Session.QueueDiscipline` | src/client/mod.rs:182-211 | in every run: requests in order, each at most once, one at a time, outcome k to request k only, queue within capacity, each name fetched at most once |
| `Interleaving.RunInStep` | src/client/mod.rs:259-278 | the inductive invariant of every run over both actors' phases, both lanes and all processor states, also after the connection was lost |
| `Interleaving.EveryInterleavingIsSequential` | src/client/mod.rs:236-281 | in every interleaving, for all data, also when the connection is lost, outcomes are those of performing the requests one after the other, until the client runs into the end of the connection |
| `Interleaving.MoreFramesMoreResponses` | src/server/server.rs:218-289 | further frames add responses and take none back; after the end they do nothing |
| `Framing.FramingRoundTrip` | src/server/server.rs:219-263 | segmenting and decoding the client's frames gives back its queries and requests, with one malformed packet after each request without data, even if payloads look like headers |
| `Framing.FramingExactIff` | src/client/mod.rs:259-273 | it gives back just what was said exactly when no request is without data |
| `Framing.EmittedIsFramed` | src/client/mod.rs:259-273 | whatever requests are performed, the frames emitted are those of name queries and of just the completed requests, in order, so the round trip is about the requests of every run |
| `Pairing.BacklogIsExact` | src/client/mod.rs:263-276 | for all data: performing requests with frames equals performing them with a backlog of owed answers (outcomes, cache, handler calls, owed answers, liveness) |
| `Pairing.Drift` | src/client/mod.rs:263-275 | while the loop runs, the answers owed are as many as the requests completed without data; if there were none, none is owed, whether it runs or not |
| `Pairing.NothingOwedIff` | src/client/mod.rs:263-275 | a completed request was answered with nothing else owed if and only if no request completed before it was empty |
| `Pairing.NothingOwedAtQueryIff` | src/client/target_router.rs:60-89 | an answered name query was sent with nothing else owed if and only if no request completed before was empty |
| `Pairing.NoBacklog` | src/client/mod.rs:236-281 | as long as no request without data is sent there is no backlog, outcomes and calls are the specified ones, and the cache agrees with the server's table |
| `Pairing.EmptyDataShiftsAnswers` | src/client/mod.rs:263-273 | performing in turn, after one request without data the next consumer gets the malformed-header error in place of its answer |
| `Guarantees.RpcRefinement` | src/client/mod.rs:236-281 | in every interleaving, each consumer before which no request without data was sent gets what the sequential specification says of its request, and as long as none was sent the cache is coherent |
| `Guarantees.ConsumerIsGiven` | src/server/server_router.rs:54-157 | from registrations to consumers, in every interleaving: with no request without data sent before, a request to a handler registered for its type makes one call with its type and data and its consumer is told what came of it, one to no such handler gets that error and makes no call, and one that cannot be sent is dropped |
| `Guarantees.SimpleServes` | src/server/server_router.rs:54-157 | the sequential specification itself, said by the registrations, for every request and every state of the specification |
| `Guarantees.OwnAnswerIff` | src/client/mod.rs:259-278 | in every interleaving, for all data: a consumer that is handed something is handed the answer to its own packet if and only if every request completed before had data, and one to something sent earlier otherwise |
| `Guarantees.OwnNameAnswerIff` | src/client/target_router.rs:43-89 | in every interleaving, for all data: an answered name query got the server's answer to it, which is what its table says, if and only if every request completed before had data, and otherwise an answer to something sent earlier; what was read is cached for good if it decodes, and drops the request if not |
| `Guarantees.NoWrongAnswers` | src/client/mod.rs:236-281 | in every run without hand-off, also after the connection was lost or has ended: a consumer before which no request without data was sent gets the specified answer to its own request or nothing, and as long as none was sent the cache is coherent and no response is left for a later consumer |
| `Guarantees.HandlersCalledOnce` | src/server/server_router.rs:116-127 | between requests, as long as none without data was sent, the handler calls made are those of the specification: one for each routed request, in order, with its type and data |
| `Execution.ServerDoesWhatItRead` | src/server/server.rs:218-289 | in every run, also once the client has run into a loss or an end: the server has done, or is doing, what the frames it read ask for, and these are the first ones the client produced |
| `Execution.ProducedOnce` | src/client/mod.rs:259-273 | in every run the frames produced are those of name queries and accepted requests, each request's at most once and in order |
| `Execution.AtMostOnce` | src/server/server_router.rs:116-127 | in every run, for all data and through loss, close and hand-off: the handler calls are those of different requests, in the order accepted, each with its request's type and data |
| `Guarantees.ExactDrift` | src/client/mod.rs:263-275 | whatever the data, when both sides are quiet the unread responses are as many as the requests completed without data |
| `Mispairing.EmptyRequestMispairs` | src/client/mod.rs:263-273 | on any server with well-behaved handlers there is a run, nothing lost, in which the consumer after a request without data gets the malformed-header error, while the specification has its own handler's reply for it |
| `Mispairing.MispairingHappens` | src/client/mod.rs:263-273 | a concrete server and run in which the second consumer does not get the answer specified for it |
| `Mispairing.EmptyRequestMisroutes` | src/client/target_router.rs:43-89 | on any server with well-behaved handlers there is a run, nothing lost, in which after a request without data a request by one known name is dropped, its id is cached for another name, and that name's request data has gone to the wrong handler |
| `Mispairing.MisroutingHappens` | src/client/target_router.rs:43-89 | a concrete server and run in which the data sent to one name is served by the route of another |
| `Guarantees.CachedIdIsLastRegistration` | src/client/target_router.rs:39-53 | in every run, also past loss or end: as long as no request without data was sent, a cached id is the number of the last registration under its name, and what the client reads off the server's answer |
| `Guarantees.NamedRequestIsServed` | src/server/server_router.rs:85-127 | a request by name is served by one call of the handler last registered under it, and its consumer gets that call's data or error |
| `Progress.StepUses` | src/client/mod.rs:272-278 | every step but accepting a request, loss included, decreases a measure over queue, phases, unsent frames and lanes |
| `Progress.RequestSettledInTime` | src/client/mod.rs:199-211 | each accepted request is settled within a bound on the steps other than accepting, and on all steps, that is fixed when it is in the queue, whatever is accepted meanwhile, lost, or handed off |
| `Progress.NoDeadlock` | src/client/mod.rs:272-278 | unless the connection was handed off, lost or not, some step other than a loss is enabled whenever a request is unfinished |
| `Progress.NothingLeftMeansDone` | src/client/mod.rs:199-211 | a run with nothing left to do has settled every request |
| `Progress.RunCompletes` | src/client/mod.rs:199-211 | every run can be carried on to that point within the bound, without losing the connection |
| `ProcStat.TailDecides` | tf-examples/src/bench/proc.rs:44-46 | for every text: no result without a closing parenthesis or with nothing after the last one; otherwise one single-byte character is skipped, whichever, and the rest decides |
| `ProcStat.NameIsSkipped` | tf-examples/src/bench/proc.rs:42-46 | for every process name and every tail without a closing parenthesis the parser depends on the tail only |
| `ProcStat.SplitLaid` | tf-examples/src/bench/proc.rs:47 | splitting finds the fields of any layout with white space of any kind between them |
| `ProcStat.EveryTextIsLaid` | tf-examples/src/bench/proc.rs:47 | and every text is such a layout of just the fields found |
| `ProcStat.ParseDecimal` | tf-examples/src/bench/proc.rs:48-49 | a printed number parses back to itself exactly if it fits in 64 bits |
| `ProcStat.ParsePrinted` | tf-examples/src/bench/proc.rs:48-49 | leading zeros and a plus sign make no difference to a printed number |
| `ProcStat.ParsedIsPrinted` | tf-examples/src/bench/proc.rs:48-49 | and nothing but a printed number parses |
| `ProcStat.StatRoundTrip` | tf-examples/src/bench/proc.rs:40-51 | a stat line, with any white space between its fields, gives utime plus stime modulo 18446744073709551616, and the true sum exactly if it fits |
| `ProcStat.NoTimesIff` | tf-examples/src/bench/proc.rs:48-49 | a stat line gives nothing exactly if it has fewer than 13 fields after the name or one of the two is not a 64-bit number |
| `ProcStat.ReadVmhwmKb` | tf-examples/src/bench/proc.rs:54-62 | no line that starts with "VmHWM:" gives nothing; otherwise the first such line decides, and gives the number that the kernel printed in it |
| `ProcStat.FirstTokenCounts` | tf-examples/src/bench/proc.rs:57-58 | the first token after the label is read, whatever follows |
| `ProcStat.LinesOfText` | tf-examples/src/bench/proc.rs:56 | cutting a text gives back its lines, with either line ending and a last line that is not ended |
| `ProcStat.EveryTextIsLines` | tf-examples/src/bench/proc.rs:56 | and every text is such lines |
| `ProcStat.StatusRoundTrip` | tf-examples/src/bench/proc.rs:54-62 | in a text of any lines, ended by line feeds or carriage returns and line feeds, a first labelled line "VmHWM:", tab, number, " kB" gives back the number |

## Left out

- Connection setup over TCP, TLS and WebSocket, and codec handshakes: wrappers over crates that are not part of this model.
- The acceptor loop and `send_stop`: they hang on the runtime's notification semantics.
- The SPAKE2/AES-GCM codec and its replay protection: implemented in another crate.
- The byte layout of the serializer and the hashing of keys: only the assumptions above are used.
- The WASM variant of the client loop: the same body under another spawner.
- What an accept function does with a connection it took over: user code; in the step system it may write any frames to the client, or close.
- Outcomes after a hand-off, once the client reads what the new owner writes: only queue discipline, at-most-once execution and the bounds are proved of such runs.
- Recoverable read errors in the step system: they are part of the connection loop's own results only.
- A write that fails on a connection that stays up (a frame over the codec's size limit): the codec's limits are not part of this model, so in the step system writes fail only once the connection is lost or the server's loop is over.
- The unreachable `None` results of `receive_message`: the function never returns them, so the model's result has no such case.
- Overflow of the handler counter and of utime plus stime wraps, as in a release build; a debug build panics there.
- CPU percentage, timing and histograms of the benchmark runner: clocks and floating point.
- Logging.
