# Homa operation layer in Dafny

This project models the operation layer of the Homa RPC transport
(`src/Op/Op.cc`). That layer turns raw inbound and outbound messages into two
small, forward-only state machines and correlates them through a per-transport
registry:

- `RemoteOp` is a client call: `NotStarted -> InProgress -> {Completed, Failed}`,
  plus one edge `poll` adds: a response that arrives after `isReady` declared
  the op `Failed` still makes it `Completed`.
  `send` draws a fresh operation id from the manager's counter and registers
  the op under it. `isReady` notices a failed request. The destructor releases
  the op's messages and erases its registry entry.
- `ServerOp` is one stage of a server-side call:
  `NotStarted -> InProgress -> {Completed, Dropped, Failed}`. It is a move-only
  handle:
  - moving it resets the source to an empty op;
  - `makeProgress` is the transition function;
  - `reply` and `delegate` choose the header's stage id and the destination;
  - the destructor either moves a started, undetached op into the manager's
    detached list or releases the messages it holds.
- `OpManager` holds the registry (`remoteOps`), the FIFO queue of new server
  ops (`pendingServerOps`) and the list of detached server ops
  (`detachedServerOps`):
  - `receiveServerOp` pops the front of the queue and starts that op;
  - `poll` drains the transport in arrival order, then sweeps the detached list;
  - the destructor clears the registry and erases both lists.

The project is laid out as follows:

- `protocol.dfy` (module `Protocol`): operation ids, the three header fields the
  layer reads and writes, and the two reserved stage ids.
- `messages.dfy` (module `Messages`): the message handles the transport hands
  out. Each is a class whose fields record what the transport reports (status,
  dropped flag) and every call this layer makes on it (prepend, send, release,
  cancel, acknowledge, fail). That lets contracts say that a message is
  released exactly once.
- `remote_lifecycle.dfy` and `server_lifecycle.dfy`: the two state machines as
  pure functions of what `isReady` and `makeProgress` read, with lemmas about
  repeated calls.
- `scenarios.dfy` (module `Scenarios`): behaviours of the code as written,
  each exhibited on the manager (see below).
- `op.dfy` (module `Op`): the three classes and their operations, written as
  imperative methods over the classes' fields. Each method is proved against
  those functions and against the manager's invariant `OpManager.Valid`. That
  invariant says:
  - every registry entry maps an issued id to a started op carrying that id;
  - pending ops hold only their request;
  - detached ops are started, belong to the manager and hold both messages;
  - no two pending or detached ops share a message, and no detached op's
    response is a registered op's request;
  - no two registered ops hold the same response, and no registered op's
    response is held by a pending or detached op.

The two reserved stage ids come from `Protocol.h`, which is not part of this
model. They are taken as `ULTIMATE_RESPONSE_ID = 0` and
`INITIAL_REQUEST_ID = 1`. The proofs rely only on the ultimate-response id
being 0, the smallest stage id, so that a delegated stage id, which is the
previous one plus one, is never mistaken for a response. That holds because
stage ids are unbounded naturals here; the field's width is also declared in
`Protocol.h`, and a wrap-around of `stageId + 1` is not modelled (see
"Left out").
`Protocol::OpId` is declared in `Protocol.h` too. Its default-constructed
value, the id an op carries until it is sent, is taken as transport id 0 and
sequence number 0 (`Protocol.DEFAULT_OP_ID`). `Op.OpManager.DefaultIdIssued`
and `Scenarios.UnsentDestroyErasesLiveEntry` depend on that value. Both
fields of an id are unbounded naturals here; see "Left out" for the counter.
`OpManagerInternal.h` is not part of this model either, so the counter's
first value is a constructor parameter.

The comment on the `FAILED` branch of `makeProgress`
(`src/Op/Op.cc:213-214`) says that a detached op returns an error to its
sender once the server has given up on it. As written, the code only does that
for an op that was already `FAILED` when it was detached: during the sweep
(`src/Op/Op.cc:328-339`) an op whose response fails moves from `IN_PROGRESS`
to `FAILED`, only its response is cancelled, and the same sweep erases it, so
`fail()` is never called for it. `Op.OpManager.Visit` states exactly this
(one `Advanced` step, then erasure unless the op is still `InProgress`), and
the imperative model keeps the code as written. The discrepancy and the
intended behaviour are under "Findings".

Three further behaviours of the code as written are stated as members of
`scenarios.dfy` (module `Scenarios`):

- `Scenarios.LateResponseAfterFailure`: `poll` does not look at a registered
  op's state, so a response arriving for an op that `isReady` declared
  `Failed` makes it `Completed` (`src/Op/Op.cc:304-309`).
- `Scenarios.SecondResponseOverwritesFirst`: two responses for one op overwrite
  each other. The request is cancelled twice, and the first response is
  released by nobody, since the destructor releases only the response the op
  holds (`src/Op/Op.cc:36-38`, `304-309`).
- `Scenarios.UnsentDestroyErasesLiveEntry`: destroying an op that was never
  sent erases the default id from the registry (`src/Op/Op.cc:40`). When the
  transport id is 0 and the counter started at 0, the first op sent carries
  that same id, so the live op loses its entry and its responses are dropped.
  `Op.OpManager.DefaultIdIssued` states exactly when the default id can be
  issued.

## Model

| member | source | states |
|---|---|---|
| Protocol.DelegatedStage | src/Op/Op.cc:243 | the stage id `delegate` writes is larger than the current one and is never the ultimate-response id |
| Protocol.StageChainIncreases | src/Op/Op.cc:238-251 | along any chain of delegations of one request the stage ids strictly increase, and no forwarded request carries the ultimate-response id |
| RemoteLifecycle.IsReady | src/Op/Op.cc:60-84 | the answer is true exactly when the resulting state is Completed or Failed; the state changes only from InProgress with a Failed request, and then to Failed; the state never moves backward |
| RemoteLifecycle.ReadyIsStable | src/Op/Op.cc:60-84 | once `isReady` answered true, every later call answers true and leaves the state alone, whatever the request's status |
| ServerLifecycle.Progress | src/Op/Op.cc:179-221 | the state changes only from InProgress and never moves backward, and NotStarted is never re-entered; a dropped request gives Dropped whatever the response status; otherwise the op becomes Completed iff the response is Completed, or is Sent and the op is not delegated, and becomes Failed iff the response failed; acknowledge happens iff it completes at a stage other than the initial one, cancel iff it fails, fail iff it is Failed and detached |
| ServerLifecycle.RunForwardOnly | src/Op/Op.cc:187-216 | over any number of `makeProgress` calls the state never moves backward, and a terminal state is never left |
| ServerLifecycle.RunStaysInProgress | src/Op/Op.cc:189-205 | an in-flight op stays InProgress after a series of calls iff none of them saw a drop, a completed or failed response, or (undelegated) a sent one |
| ServerLifecycle.RunFirstDecisiveWins | src/Op/Op.cc:189-205 | the first call that sees a decisive transport report fixes the op's final state |
| ServerLifecycle.DelegatedSentIsNotEnough | src/Op/Op.cc:194-196 | after `delegate`, a response reported only as Sent never completes the op, however often it is polled; without delegation one Sent report completes it |
| Op.KeptMembers | src/Op/Op.cc:325-341 | the detached ops the sweep keeps are exactly those that are InProgress |
| Op.AnswerViewAppend | src/Op/Op.cc:301-308 | answering a registered op with two batches of responses is the same as answering it with both at once: the last response wins, and each one cancels the request once |
| Op.RemoteOp.constructor | src/Op/Op.cc:23-31 | a fresh, blank request; no response; the default op id; NotStarted |
| Op.RemoteOp.Destroy | src/Op/Op.cc:33-41 | the request is released once, and so is the response if there is one; the registry loses exactly the entry for the op's id; the manager's invariant is kept |
| Op.RemoteOp.Send | src/Op/Op.cc:43-58 | the op is InProgress; its id pairs the transport id with the counter's old value, and the counter advances by one, so the id was never issued before and ids increase from send to send; the op is registered under that id; the request gets the initial-request header and is sent once to the destination |
| Op.RemoteOp.Complete | src/Op/Op.cc:303-308 | a matched response becomes the op's response, the request is cancelled once, and the op is Completed |
| Op.RemoteOp.IsReady | src/Op/Op.cc:60-84 | the stored state and the answer are what `RemoteLifecycle.IsReady` gives for the old state and the request's status |
| Op.ServerOp.constructor | src/Op/Op.cc:94-104 | every field of the new op holds the empty op's value |
| Op.ServerOp.MoveFrom | src/Op/Op.cc:106-126 | the new op has every field the source had, and the source is left empty |
| Op.ServerOp.MoveAssign | src/Op/Op.cc:145-168 | the target takes every field of the source (when they differ), and the source is left empty |
| Op.ServerOp.IsNonEmpty | src/Op/Op.cc:170-177 | true exactly when the op holds a request, so an empty (moved-from) op is false |
| Op.ServerOp.MakeProgress | src/Op/Op.cc:179-221 | the op and its messages change exactly as `ServerLifecycle.Progress` says (new state, one acknowledge, cancel or fail call, nothing released), and the new state is returned |
| Op.ServerOp.Start | src/Op/Op.cc:284-287 | the op gets a fresh blank response and the manager, and becomes InProgress; nothing else changes |
| Op.ServerOp.Reply | src/Op/Op.cc:223-236 | a non-empty op sends its response once to the reply address, with the ultimate-response header for its id; an empty op sends nothing |
| Op.ServerOp.Delegate | src/Op/Op.cc:238-251 | a non-empty op is marked delegated and sends its response once to the destination, with its id and the next stage id; an empty op changes nothing |
| Op.ServerOp.Destroy | src/Op/Op.cc:128-143 | a started, undetached op with a manager is moved, marked detached, to the back of the manager's detached list and releases nothing; it is left empty and the invariant is kept; any other op releases each message it holds exactly once and is not changed |
| Op.OpManager.constructor | src/Op/Op.cc:253-257 | an empty registry and empty lists, the counter at its first value, no id issued |
| Op.OpManager.ReceiveServerOp | src/Op/Op.cc:274-289 | on an empty queue, an empty op and nothing changes; otherwise the front op is popped (FIFO), its fields move into the returned op with a fresh blank response, this manager and InProgress, the moved-from front is empty, and the rest of the queue keeps its order |
| Op.OpManager.TakeFront | src/Op/Op.cc:280-287 | the front op's fields move into the caller's op, which is started; the queue loses its front |
| Op.OpManager.Deliver | src/Op/Op.cc:296-323 | for one drained message: a response whose id is registered completes that op and cancels its request, and no other registered op changes; a response whose id is not registered is released once; any other message becomes a new op at the back of the pending queue, holding the message and the header's id, stage and reply address; no other message is released |
| Op.OpManager.Enqueue | src/Op/Op.cc:315-322 | the new op at the back of the queue holds the message and the header's fields; the message is untouched |
| Op.OpManager.DrainStep | src/Op/Op.cc:294-324 | one iteration of the drain loop keeps the loop's invariant: the queue, the registered ops and the release counts reflect exactly the messages handled so far; its frame allows no other change to a drained message |
| Op.OpManager.Drain | src/Op/Op.cc:294-324 | after the whole drain, the queue is the old queue followed by one new op per request message, in arrival order; each registered op has been answered by exactly the responses addressed to it (the last becomes its response, each cancels the request once); each message is released once iff it is a response with no registered op, and its dropped flag, acknowledgements and failures are unchanged |
| Op.OpManager.DrainLoop | src/Op/Op.cc:296-324 | the drain loop ends with its invariant at the last message: queue, registered ops and release counts reflect every message, and nothing else about the messages changed |
| Op.OpManager.Visit | src/Op/Op.cc:328-339 | one `makeProgress` step on the detached op; it is erased (and its messages released) iff the new state is not InProgress |
| Op.OpManager.Erase | src/Op/Op.cc:338 | the op leaves the detached list, the others keep their order, and each of its two messages is released once |
| Op.OpManager.SweepStep | src/Op/Op.cc:326-340 | one iteration of the sweep keeps the loop's invariant: visited ops made progress once and only the InProgress ones remain, in order; unvisited ops are untouched |
| Op.OpManager.SweepDetached | src/Op/Op.cc:325-341 | each detached op makes progress exactly once; the list becomes exactly the ops still InProgress, in their old order; the ops dropped from it had their messages released once |
| Op.OpManager.Poll | src/Op/Op.cc:291-342 | the registry is unchanged, the pending queue grows by one op per request message at its back, and the detached list keeps exactly its InProgress ops in order |
| Op.OpManager.ErasePending | src/Op/Op.cc:263-266 | the front pending op leaves the queue and, never having been started, releases its request once |
| Op.OpManager.ClearPendingFront | src/Op/Op.cc:263-266 | one iteration of the first destructor loop: one more pending request released, nothing else released |
| Op.OpManager.ClearPending | src/Op/Op.cc:263-266 | the queue is emptied and every pending request is released exactly once, and no detached message is released |
| Op.OpManager.ClearDetachedFront | src/Op/Op.cc:267-270 | one iteration of the second destructor loop: the next detached op's two messages are released, nothing else |
| Op.OpManager.ClearDetached | src/Op/Op.cc:267-271 | the detached list is emptied and each detached op's request and response are released exactly once |
| Op.OpManager.Destroy | src/Op/Op.cc:259-272 | the registry and both lists end empty, every message a pending or detached op held is released exactly once, and the invariant is kept |
| Op.OpManager.DefaultIdIssued | src/Op/Op.cc:49-50 | the default op id is among the ids issued so far exactly when the transport id is 0, the counter started at 0 and at least one op was sent |
| ServerLifecycle.DetachedFailuresAsWritten | src/Op/Op.cc:326-340 | over any series of sweeps, a detached op is failed back to its sender once if it was Failed when detached, and never otherwise, in particular not when it fails while detached |
| ServerLifecycle.DetachedFailureLost | src/Op/Op.cc:189-205 | the counterexample: an in-flight, undelegated, detached op whose response the transport reports Failed ends Failed after one sweep with no `fail()` call |
| ServerLifecycle.ProgressReported | src/Op/Op.cc:210-216 | the corrected step: the same state, acknowledge and cancel as `makeProgress`, and `fail()` exactly when the op is detached and is Failed or becomes Failed in this call |
| ServerLifecycle.DetachedFailuresExactlyOnce | src/Op/Op.cc:210-216 | with the corrected step, a detached op that was in flight or Failed is failed back to its sender exactly once if the sweeps leave it Failed, and never otherwise |
| Scenarios.FailedWhileDetached | src/Op/Op.cc:326-340 | on the manager: the one detached op, in flight with a failed response, is Failed and erased after one sweep; it still holds the same request, whose failure count is unchanged |
| Scenarios.LateResponseAfterFailure | src/Op/Op.cc:301-309 | a response for a registered op already Failed makes it Completed, holding that response |
| Scenarios.SecondResponseOverwritesFirst | src/Op/Op.cc:301-309 | two responses for one op in one drain: the op holds the second, the request is cancelled twice, and neither response is released |
| Scenarios.PollSparesDrained | src/Op/Op.cc:291-342 | after `poll`, each drained message has the dropped flag, acknowledgements and failures it had before; only its release count may change |
| Scenarios.UnsentDestroyErasesLiveEntry | src/Op/Op.cc:33-41 | destroying an unsent op whose default id is registered to a live op removes that live op's entry |

## Left out

- `RemoteOp::wait` (`src/Op/Op.cc:86-92`) is not modelled. It spins on `poll()` until `isReady()` holds, which has no termination argument without a fairness assumption on the transport. What each `poll` and `isReady` call does is modelled.
- The spin lock and the atomic loads and stores are modelled as plain field reads and writes. The model is sequential, so interleavings between `poll` and application threads are not covered.
- The transport and the driver are not modelled:
  - `internal->poll()` and the `receive()` loop become the `incoming` sequence of already-decoded deliveries that `Poll` and `Drain` take;
  - `alloc()` becomes a fresh message object;
  - `getLocalAddress()` becomes a manager field;
  - `addressToWireFormat` and `getAddress` are the identity on an opaque `Address`;
  - the network side of `send` is recorded, not performed.
- The byte layout of the header, and `get`, `strip` and `reserve`, are left out; a header is just its three fields.
- `PANIC` on an unknown state cannot happen with a closed Dafny datatype. The `assert`s in `makeProgress` and in the sweep become preconditions or invariants. The `WARNING` branches of `reply` and `delegate` are the no-op branches.
- Op.ServerOp.MoveAssign: like the source, it does not release the messages the target held before; every caller in the source assigns onto an empty op.
- Op.OpManager.Drain: does not state that the new pending ops are freshly allocated objects, only their contents.
- Op.OpManager.Poll: its own contract states only the registry, queue-length and sweep results; that a drained message changes only in its release count is stated for its callers by `Scenarios.PollSparesDrained`, from Poll's frame; what happens to each message and each op is stated by `Op.OpManager.Drain` and `Op.OpManager.SweepDetached`, which it calls in sequence.
- Protocol.DelegatedStage: stage ids are unbounded naturals. The header field's width is declared in `Protocol.h`, which is not part of this model, so a wrap-around of `stageId + 1` at the field's maximum, which would produce the ultimate-response id 0, is not modelled.
- Op.RemoteOp.Send: the sequence counter behind `opId = {transportId, nextOpSequenceNumber++}` (`src/Op/Op.cc:49-50`) is an unbounded natural, and so are both fields of an id. The source's counter has a fixed width, declared in `OpManagerInternal.h` and `Protocol.h`, which are not part of this model. The wrap-around after its maximum is therefore not modelled. Send's "never issued before" and "ids increase from send to send" hold only up to that wrap-around.
- Op.OpManager.constructor: the counter's first value is a parameter, since `OpManagerInternal.h` is not part of this model; the model therefore does not exclude transport id 0 with a counter starting at 0, where the default id collides with the first issued id (`Op.OpManager.DefaultIdIssued`).
- Op.OpManager.Destroy: the RemoteOp objects the registry pointed to are not touched, as in the source; the loop of the final `detachedServerOps.clear()` is a no-op after the erase loop and is not modelled separately.

## Findings

| source | as written | input that shows it | evidently intended | confidence | as-written member | corrected member |
|---|---|---|---|---|---|---|
| src/Op/Op.cc:210-216 | `fail()` is called only in the `FAILED` branch, which a detached op reaches on a later sweep; but the sweep at lines 330-338 erases the op on the very call that moved it from `IN_PROGRESS` to `FAILED` | a detached, undelegated op in `IN_PROGRESS`, request not dropped, response reported `FAILED`: one `poll` leaves it `FAILED` and erased, and `fail()` is never called | the comment at lines 213-214: a detached op the server gave up on returns an error to its sender, once, whether it failed before or while detached | medium; not executed | ServerLifecycle.DetachedFailuresAsWritten | ServerLifecycle.DetachedFailuresExactlyOnce |

The as-written half is also shown by `ServerLifecycle.DetachedFailureLost` (the
input above) and on the manager by `Scenarios.FailedWhileDetached`. The
corrected step is `ServerLifecycle.ProgressReported`. The imperative classes
keep `makeProgress` as written, since they model `src/Op/Op.cc` itself.
