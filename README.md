# tensorpipe bookkeeping, modelled in Dafny

This project models the sequential bookkeeping at the heart of tensorpipe.
It covers how work is deferred to event loops, how transports throttle and
queue their operations, how connections move through their handshakes and
fail, and how the top-level context registers and tears down its parts.
Every piece runs on one thread, and whatever the code gets from the operating
system, libibverbs or libuv (a syscall result, a batch of work completions,
a number of bytes) is an input to the model.

Modules, one per source file:

- `DeferredExecutor` (deferred_executor.dfy) covers the on-demand executor
  and the event-loop executor of `common/deferred_executor.h`, and the
  busy-polling loop of `common/busy_polling_loop.h`. It has the owner slot,
  the pending list (newest first), the "thread is consuming" flag, `closed_`
  and `deferredFunctionCount_`. A task is an id whose body may defer further
  tasks or run them in the loop. `TaskModel` (task_model.dfy) gives each
  operation a functional specification on a state `Exec(pending, ran, count)`:
  `RunTask`, `RunSeq`, `Pass` (one claim of the list) and `Drain`. The lemmas
  there state exactly-once execution, oldest-first order and termination.
- `IbvReactor` (reactor.dfy) covers the RDMA reactor of
  `transport/ibv/reactor.cc`:
  - write and ack credits, each with a FIFO queue of requests waiting for credit;
  - the queue-pair handler table;
  - dispatch of a polled batch of work completions;
  - receive-queue refills in batches.
- `ShmConnection` (shm_connection.dfy) covers the shared-memory connection
  of `transport/shm/connection.cc`:
  - the handshake Initializing → SendFds → RecvFds → Established;
  - the first-error latch;
  - the epoll event dispatch;
  - one `OpQueue` object per direction, with its queued operations, the bytes
    its ring buffer has ready for them and the callbacks fired in sequence
    order.
- `UvConnection` (uv_connection.dfy) covers the libuv connection of
  `transport/uv/connection.cc`: the read queue that starts and stops reading,
  writes completed in FIFO order, the error latch, and teardown, which fails
  reads but keeps writes.
- `CoreContext` (core_context.dfy) covers `core/context_impl.cc`:
  - the transport and channel registries, each a by-name map plus a map keyed
    by negated priority;
  - enrolment of listeners and pipes;
  - close and join, each run once, as one log of the calls they make on
    listeners, pipes, transports and channels;
  - identifier construction.
- `Messages` (message.dfy) covers `core/message.h`: swap-based moves of
  `Message`, the LIFO message free list with its `dead` flag, and
  `MessageHandle`.
- `IbvContext` (ibv_context.dfy), `UvContext` (uv_context.dfy) and
  `TransportContext` (transport_context.dfy, shared by both) cover the
  transport contexts: domain descriptors, connection and listener ids,
  close/join, and address lookup (first usable interface, first bindable
  address, first error).
- `Segment` (segment.dfy) covers `getDefaultPageType` of `util/shm/segment.cc`.
- `System` (system.dfy) covers `tstampToStr` and `removeBlankSpaces` of
  `common/system.cc`.
- There are also helper modules:
  - `Common`: `Option` and `Min`;
  - `Decimal`: `std::to_string` on unsigned numbers and its parse-back;
  - `Operations`: the `Error` values, and queued operations and their
    callbacks, shared by both connections.

Fatal assertions that are always on (`TP_THROW_ASSERT`) become a returned
`fatal` flag, a `Fault` or a `Fatal` outcome. Debug checks on callers
(`TP_DCHECK`) become `requires` clauses.

## Model

| member | source | states |
|---|---|---|
| TaskModel.Reverse | tensorpipe/common/deferred_executor.h:237-240 | the claimed list is run from its last entry to its first: element i of the result is element n-1-i of the input |
| TaskModel.PassShrinks | tensorpipe/common/deferred_executor.h:183-194 | every pass of the drain loop strictly lowers the total size of the pending tasks, so draining terminates |
| TaskModel.PassConserves | tensorpipe/common/deferred_executor.h:217-222 | a pass neither loses nor duplicates a task: the ids run plus the ids still pending are unchanged |
| TaskModel.DrainRunsEachTaskOnce | tensorpipe/common/deferred_executor.h:183-194 | draining leaves the pending list empty and runs every task pending or deferred meanwhile exactly once; without a thread it leaves the counter alone |
| TaskModel.PassRunsOldestFirst | tensorpipe/common/deferred_executor.h:225-255 | a pass runs the claimed list oldest first, and the first task it starts is the oldest pending one |
| TaskModel.PassRunsNewest | tensorpipe/common/deferred_executor.h:225-255 | the newest task of the claimed list also runs in that pass, so a caller waiting on it is released by the loop thread's next pass |
| TaskModel.RunTaskTrace | tensorpipe/common/deferred_executor.h:57-58 | running a task appends its trace: its id first, then the tasks it runs inline, in order |
| TaskModel.RunSeqTrace | tensorpipe/common/deferred_executor.h:237-240 | running a sequence of tasks appends their traces one after the other |
| TaskModel.RunTaskConserves | tensorpipe/common/deferred_executor.h:100-103 | running a task moves its ids into the run log or the pending list, and no others |
| TaskModel.RunSeqConserves | tensorpipe/common/deferred_executor.h:237-240 | the same for a sequence of tasks |
| TaskModel.RunTaskCounts | tensorpipe/common/busy_polling_loop.h:66-69 | with counting on, the pending count rises by exactly the number of tasks deferred |
| TaskModel.RunSeqCounts | tensorpipe/common/busy_polling_loop.h:66-69 | the same for a sequence of tasks |
| TaskModel.RunSeqAppend | tensorpipe/common/deferred_executor.h:225-242 | running `a + b` is running `a` and then `b`, so splitting a list into 16-entry chunks changes nothing |
| TaskModel.ReverseAppend | tensorpipe/common/deferred_executor.h:225-242 | reversing `a + b` gives reversed `b` followed by reversed `a` |
| TaskModel.RunReversedStep | tensorpipe/common/deferred_executor.h:237-240 | running one more entry from the back of a stack extends the backwards run by that entry |
| TaskModel.RunReversedSplit | tensorpipe/common/deferred_executor.h:225-242 | running `a + b` backwards is running `b` backwards and then `a` backwards |
| TaskModel.SeqIdsReverse | tensorpipe/common/deferred_executor.h:237-240 | reversing a list keeps its multiset of task ids |
| TaskModel.Trace | tensorpipe/common/deferred_executor.h:57-58 | a task's trace starts with its own id |
| DeferredExecutor.Executor.constructor | tensorpipe/common/deferred_executor.h:312-314 | a new executor has no owner and nothing pending, consumes on its thread, is not closed and counts zero |
| DeferredExecutor.Executor.Enqueue | tensorpipe/common/deferred_executor.h:158-161 | the task is pushed onto the head of the pending list |
| DeferredExecutor.Executor.WakeupEventLoopToDeferFunction | tensorpipe/common/busy_polling_loop.h:66-69 | the pending count goes up by one |
| DeferredExecutor.Executor.StopBusyPolling | tensorpipe/common/busy_polling_loop.h:49-52 | only `closed` is set; nothing is drained or waited for |
| DeferredExecutor.Executor.Run | tensorpipe/common/deferred_executor.h:57-58 | running a task in the loop matches `RunTask`: its deferrals are pushed (and counted) and its runInLoop calls run inline |
| DeferredExecutor.Executor.UnrollEventLoopStack | tensorpipe/common/deferred_executor.h:225-242 | the claimed list is run oldest first (`RunSeq` of the reversed list) and its length returned, whatever the chunking and depth |
| DeferredExecutor.Executor.FillStack | tensorpipe/common/deferred_executor.h:226-232 | the 16-slot stack receives the first min(16, n) entries of the list, in list order |
| DeferredExecutor.Executor.RunStackBackwards | tensorpipe/common/deferred_executor.h:237-240 | the stack's entries are run from the last to the first |
| DeferredExecutor.Executor.UnrollEventLoopDynamic | tensorpipe/common/deferred_executor.h:244-255 | the vector fallback runs the rest of the list oldest first and returns its length |
| DeferredExecutor.Executor.RunDeferredFunctions | tensorpipe/common/deferred_executor.h:197-223 | one call is one `Pass`: it claims the whole list, runs it oldest first and returns how many tasks it claimed, or returns 0 with no change when the list is empty |
| DeferredExecutor.Executor.Loop | tensorpipe/common/deferred_executor.h:181-195 | when another owner holds the slot it returns at once with no change; otherwise its effect is `Drain`: everything pending or deferred meanwhile runs exactly once and the slot is released |
| DeferredExecutor.Executor.DeferToLoop | tensorpipe/common/deferred_executor.h:264-271 | the event-loop executor with its thread consuming pushes the task and counts one wakeup; otherwise (on-demand, or the thread has stopped) the caller drains the queue, after which every task has run and none is pending |
| DeferredExecutor.Executor.RunInLoop | tensorpipe/common/deferred_executor.h:49-74 | inside the loop the task runs inline (its trace is appended). Outside it, with no thread consuming, it is deferred and has run, with nothing left queued, when the call returns. Outside it, with the thread in its event loop, it is queued and one wakeup counted, and the call returns after that thread's next pass, which has run it. Before the thread has started, it stays queued with one wakeup counted. No task is lost or run twice |
| DeferredExecutor.Executor.PollIteration | tensorpipe/common/busy_polling_loop.h:56-62 | deferred tasks run only when polling found nothing; with nothing counted an idle pass changes no state; the tasks run plus those pending are conserved |
| DeferredExecutor.Executor.EventLoop | tensorpipe/common/busy_polling_loop.h:54-64 | the loop exits exactly at the first pass on which it is closed and its owner is ready to close; no task is lost or duplicated meanwhile |
| DeferredExecutor.Executor.ThreadStart | tensorpipe/common/deferred_executor.h:321 | the loop thread takes the owner slot before its event loop |
| DeferredExecutor.Executor.ThreadExit | tensorpipe/common/deferred_executor.h:323-326 | after the event loop the thread releases the slot, stops consuming and drains what is left, so every pending task has run |
| IbvReactor.Events | tensorpipe/transport/ibv/reactor.cc:159-181 | an accepted batch fires one callback per completion, in order: onError for a failed status, otherwise chosen by opcode |
| IbvReactor.CreditsIgnoreStatus | tensorpipe/transport/ibv/reactor.cc:140-157 | the receive, write and send counts of a batch do not depend on the completions' statuses, so failed completions also return credit |
| IbvReactor.CountsBounded | tensorpipe/transport/ibv/reactor.cc:125-157 | a batch counts at most one receive, write or send per completion |
| IbvReactor.Batches | tensorpipe/transport/ibv/reactor.cc:68-82 | `num` receive requests are posted in batches of 1 to k that add up to `num`; none are posted when `num` <= 0 |
| IbvReactor.BatchesStep | tensorpipe/transport/ibv/reactor.cc:69-81 | one batch of min(left, k) followed by the batches of what is left is the batching of `left` |
| IbvReactor.BatchesAreFull | tensorpipe/transport/ibv/reactor.cc:68-82 | every batch but the last is full |
| IbvReactor.BatchStep | tensorpipe/transport/ibv/reactor.cc:125-182 | a rejected completion makes the whole batch rejected; an accepted one extends the events and counts by its own |
| IbvReactor.Reactor.constructor | tensorpipe/transport/ibv/reactor.cc:18-62 | the reactor is viable exactly when libibverbs loads and a device exists, and only then posts its initial receive requests in batches and starts its thread; credits start at their initial values with nothing queued and no handler |
| IbvReactor.Reactor.IsViable | tensorpipe/transport/ibv/reactor.cc:64-66 | viability is what the constructor found |
| IbvReactor.Reactor.PostRecvRequestsOnSRQ | tensorpipe/transport/ibv/reactor.cc:68-82 | the batches posted are exactly `Batches(num, k)`, appended in order |
| IbvReactor.Reactor.PostWrite | tensorpipe/transport/ibv/reactor.cc:219-235 | with credit the write is submitted and credit drops by one; without it the write joins the back of the queue with credit left at 0; the credit invariant holds and submitted-then-queued grows by the request |
| IbvReactor.Reactor.PostAck | tensorpipe/transport/ibv/reactor.cc:237-253 | the same for acks |
| IbvReactor.Reactor.ReplenishWrites | tensorpipe/transport/ibv/reactor.cc:186-192 | returned credit submits min(queued, credit) writes strictly from the front of the queue; afterwards a non-empty queue means zero credit |
| IbvReactor.Reactor.ReplenishAcks | tensorpipe/transport/ibv/reactor.cc:194-200 | the same for acks |
| IbvReactor.Reactor.DispatchCompletion | tensorpipe/transport/ibv/reactor.cc:159-181 | one callback is fired for the completion, the one `Dispatch` chooses |
| IbvReactor.Reactor.DispatchBatch | tensorpipe/transport/ibv/reactor.cc:125-182 | the batch is accepted exactly when every completion has a known queue pair and opcode (and immediate data where required); an accepted batch fires `Events` and counts receives, writes and sends |
| IbvReactor.Reactor.PollOnce | tensorpipe/transport/ibv/reactor.cc:106-203 | fatal exactly on a failed poll or a rejected completion; an empty poll changes nothing, no callback firing and no credit or queue moving; otherwise callbacks fire in order, receives are refilled, and credits come back by the write and send counts, releasing queued requests in FIFO order |
| IbvReactor.Reactor.Replenish | tensorpipe/transport/ibv/reactor.cc:184-200 | refills the receive queue, then returns write and ack credit, keeping both credit invariants and the FIFO order of requests |
| IbvReactor.Reactor.ReadyToClose | tensorpipe/transport/ibv/reactor.cc:205-207 | ready to close exactly when no queue pair is registered |
| IbvReactor.Reactor.RegisterQp | tensorpipe/transport/ibv/reactor.cc:209-213 | the queue pair is registered unless it already was, in which case its handler is kept; the reactor is then not ready to close |
| IbvReactor.Reactor.UnregisterQp | tensorpipe/transport/ibv/reactor.cc:215-217 | the queue pair is erased; removing the last one makes the reactor ready to close |
| IbvReactor.Reactor.Close | tensorpipe/transport/ibv/reactor.cc:88-92 | the first close stops the busy-polling loop and changes nothing else of it; later closes change nothing |
| IbvReactor.Reactor.JoinAsWritten | tensorpipe/transport/ibv/reactor.cc:94-100 | as written, the first join joins the thread whether or not the constructor started it, which is fatal exactly when no thread was started; otherwise the thread is joined once |
| IbvReactor.NonViableJoinAsWritten | tensorpipe/transport/ibv/reactor.cc:18-32 | a reactor built without libibverbs is not viable, and joining it as written is fatal |
| IbvReactor.Reactor.Join | tensorpipe/transport/ibv/reactor.cc:94-100 | join closes first, then, once only, joins the thread if the constructor started one, so a started thread is joined exactly once and a never-started one never |
| Operations.Fire | tensorpipe/transport/shm/connection.cc:736-742 | failing a queue fires one callback per operation, in queue order, with that operation's sequence number and the error |
| Operations.FirePrefix | tensorpipe/transport/shm/connection.cc:736-742 | failing one more operation extends the callbacks by that operation's callback |
| Operations.FireStep | tensorpipe/transport/uv/connection.cc:378-381 | the same step, in the form used after callbacks already fired |
| Operations.FireKeepsOrder | tensorpipe/transport/shm/connection.cc:314-320 | failing consecutive operations after in-order callbacks keeps the callbacks in sequence-number order |
| Operations.PendingAppend | tensorpipe/transport/shm/connection.cc:687-697 | the bytes a queue still needs are the sum over its parts |
| ShmConnection.SocketError | tensorpipe/transport/shm/connection.cc:559-573 | EPOLLERR always yields an error: the getsockopt failure or the socket's pending error |
| ShmConnection.PendingSplit | tensorpipe/transport/shm/connection.cc:687-697 | the bytes needed by a queue split at any point into those of its two halves |
| ShmConnection.PendingStep | tensorpipe/transport/shm/connection.cc:687-697 | completing the next operation adds its remaining bytes to those used |
| ShmConnection.ServedStops | tensorpipe/transport/shm/connection.cc:687-697 | stopping at the first operation the bytes cannot complete leaves the queue `Served` with no bytes left |
| ShmConnection.OpQueue.constructor | tensorpipe/transport/shm/connection.cc:231-247 | a direction starts with no operations, no ready bytes and no callbacks |
| ShmConnection.OpQueue.Call | tensorpipe/transport/shm/connection.cc:319-328 | a callback fires with the next sequence number to call |
| ShmConnection.OpQueue.ServeFront | tensorpipe/transport/shm/connection.cc:687-697 | the front operation takes min(remaining, ready) bytes and is popped and called back with success only once complete |
| ShmConnection.OpQueue.ServeNext | tensorpipe/transport/shm/connection.cc:687-697 | one step of serving: the peer is triggered exactly when bytes moved, and serving stops only when it leaves the queue `Served` |
| ShmConnection.OpQueue.Serve | tensorpipe/transport/shm/connection.cc:677-698 | the queue is served front first: the completed operations are popped and called back with success in order, the front of the rest got the remaining bytes, no operation waits while bytes remain, and the peer is triggered exactly when bytes moved |
| ShmConnection.OpQueue.FailAll | tensorpipe/transport/shm/connection.cc:736-742 | every queued operation is called back with the error, in order, and the queue is emptied |
| ShmConnection.Connection.constructor | tensorpipe/transport/shm/connection.cc:231-247 | a connection starts Initializing with no error and empty queues, holding a socket only if it came from a listener |
| ShmConnection.Connection.InitFromLoop | tensorpipe/transport/shm/connection.cc:249-298 | the first failure of create, connect (only without a socket) or non-blocking becomes the error and fails everything queued; otherwise the connection waits in SendFds for writability |
| ShmConnection.Connection.EnterSendFds | tensorpipe/transport/shm/connection.cc:277-297 | with the inbox created and both reactions installed, the connection registers for EPOLLOUT in SendFds |
| ShmConnection.Connection.ProcessReadOperations | tensorpipe/transport/shm/connection.cc:677-698 | nothing happens unless Established; then the read queue is served from the inbox as `Serve` states |
| ShmConnection.Connection.ProcessWriteOperations | tensorpipe/transport/shm/connection.cc:700-719 | nothing happens unless Established; then the write queue is served into the outbox as `Serve` states |
| ShmConnection.Connection.ReadFromLoop | tensorpipe/transport/shm/connection.cc:311-340 | a read takes the next sequence number; after an error it is called back at once with that error and nothing is queued; otherwise it is queued and, once established, served |
| ShmConnection.Connection.WriteFromLoop | tensorpipe/transport/shm/connection.cc:450-479 | the same for writes |
| ShmConnection.Connection.OnInboxReaction | tensorpipe/transport/shm/connection.cc:282-286 | bytes the peer wrote into the inbox are used to serve reads once established, and are kept for later otherwise |
| ShmConnection.Connection.OnOutboxReaction | tensorpipe/transport/shm/connection.cc:289-293 | space the peer freed in the outbox is used to serve writes once established, and is kept for later otherwise |
| ShmConnection.Connection.HandleEventsFromLoop | tensorpipe/transport/shm/connection.cc:544-590 | exactly one event is handled per call, with priority ERR > IN > OUT > HUP; ERR stores the socket error, HUP or IN while Established gives EOFError, and the state moves at most one step forward |
| ShmConnection.Connection.HandleEventInFromLoop | tensorpipe/transport/shm/connection.cc:592-646 | fatal before RecvFds; in RecvFds a receive error becomes the error, otherwise the connection is established and both queues are served; when Established it is EOF |
| ShmConnection.Connection.Establish | tensorpipe/transport/shm/connection.cc:615-633 | with the outbox loaded empty, the connection becomes Established and serves writes, then reads |
| ShmConnection.Connection.HandleEventOutFromLoop | tensorpipe/transport/shm/connection.cc:648-675 | fatal outside SendFds; a send error becomes the error; otherwise the connection moves to RecvFds and registers for EPOLLIN |
| ShmConnection.Connection.SetError | tensorpipe/transport/shm/connection.cc:721-730 | only the first non-success error is stored and handled; later errors and success change nothing; the state is unchanged |
| ShmConnection.Connection.HandleError | tensorpipe/transport/shm/connection.cc:732-758 | every queued read and write is called back with the error and both queues are emptied; both reactions are removed; the socket is unregistered only past Initializing |
| ShmConnection.Connection.ReleaseResources | tensorpipe/transport/shm/connection.cc:744-757 | the reactions present are removed, and the socket is unregistered only past Initializing, then dropped |
| ShmConnection.Connection.CloseFromLoop | tensorpipe/transport/shm/connection.cc:760-764 | closing is setting ConnectionClosedError: it changes nothing once any error is set |
| UvConnection.Connection.constructor | tensorpipe/transport/uv/connection.cc:129-146 | a connection starts with no error, nothing queued, nothing fired and not reading |
| UvConnection.Connection.FireRead | tensorpipe/transport/uv/connection.cc:179-186 | a read callback fires with the next sequence number to call |
| UvConnection.Connection.FireWrite | tensorpipe/transport/uv/connection.cc:243-250 | a write callback fires with the next sequence number to call |
| UvConnection.Connection.InitFromLoop | tensorpipe/transport/uv/connection.cc:148-168 | the connection keeps itself alive until its handle closes |
| UvConnection.Connection.ConnectCallback | tensorpipe/transport/uv/connection.cc:154-158 | a failed connect becomes the first error, failing every queued read; writes are untouched |
| UvConnection.Connection.ReadFromLoop | tensorpipe/transport/uv/connection.cc:170-198 | a read takes the next sequence number; after an error it is called back at once and nothing is queued; otherwise it is queued, and reading starts exactly when the queue goes from empty to one read |
| UvConnection.Connection.WriteFromLoop | tensorpipe/transport/uv/connection.cc:233-269 | without an error the write is queued behind those in flight; after an error it fails at once when none is in flight, and otherwise right after them, so write callbacks stay in sequence order |
| UvConnection.Connection.WriteFromLoopAsWritten | tensorpipe/transport/uv/connection.cc:252-255 | as written, a write after an error while others are in flight is called back at once, and the write callbacks leave sequence order |
| UvConnection.Connection.ReadCallback | tensorpipe/transport/uv/connection.cc:304-331 | negative nread sets the error; otherwise bytes go to the front read only, which is popped and called back with success once complete; reading stops when the queue empties; data with nothing queued is fatal |
| UvConnection.Connection.WriteCallback | tensorpipe/transport/uv/connection.cc:333-352 | a failed status is recorded first; either way the front write is popped and called back with the connection's error as it now stands, writes staying FIFO; a completion with nothing in flight is fatal |
| UvConnection.Connection.CompleteFrontWrite | tensorpipe/transport/uv/connection.cc:343-351 | the front write is popped and called back, and once the last write in flight completes, the late writes are failed in order |
| UvConnection.Connection.PopFrontWrite | tensorpipe/transport/uv/connection.cc:343-351 | the front write is popped and called back with the current error, keeping sequence order |
| UvConnection.Connection.FailLateWrites | tensorpipe/transport/uv/connection.cc:252-255 | the writes that came after an error are failed with it, in order |
| UvConnection.Connection.CloseCallback | tensorpipe/transport/uv/connection.cc:354-359 | with no write pending, the self-reference is dropped |
| UvConnection.Connection.CloseFromLoop | tensorpipe/transport/uv/connection.cc:290-294 | closing sets ConnectionClosedError, failing queued reads; once any error is set it changes nothing |
| UvConnection.Connection.SetError | tensorpipe/transport/uv/connection.cc:361-370 | only the first non-success error is stored and handled; writes are untouched either way |
| UvConnection.Connection.HandleError | tensorpipe/transport/uv/connection.cc:372-386 | every queued read is called back with the error, in order, and the read queue is emptied; writes stay queued; the handle starts closing |
| UvConnection.PopConsecutive | tensorpipe/transport/uv/connection.cc:343-351 | popping the front of consecutively numbered writes leaves the rest consecutive from the next number |
| UvConnection.FireCons | tensorpipe/transport/uv/connection.cc:343-351 | calling back one write and then failing the rest is failing them all in order |
| CoreContext.EmptyRegistryValid | tensorpipe/core/context_impl.cc:49-56 | the empty registry's two maps agree |
| CoreContext.Register | tensorpipe/core/context_impl.cc:58-79 | an empty name, a taken name or a taken priority is fatal, checked in that order and before viability; a context that is not viable leaves both maps unchanged |
| CoreContext.Lookup | tensorpipe/core/context_impl.cc:154-161 | a lookup succeeds exactly for registered names |
| CoreContext.RegisterKeepsValid | tensorpipe/core/context_impl.cc:75-78 | a registration keeps the by-name map and the by-priority map in agreement |
| CoreContext.RegisterThenLookup | tensorpipe/core/context_impl.cc:75-78 | after registering a viable context its name finds it, and every other name finds what it found before |
| CoreContext.RegisterPreferred | tensorpipe/core/context_impl.cc:75-78 | a new context comes first in the ordered map exactly when its priority exceeds every earlier one (keys are negated priorities) |
| CoreContext.ContextId | tensorpipe/core/context_impl.cc:49-56 | the context id is the name when the name is non-empty, otherwise the created id |
| CoreContext.CreateContextIdInjective | tensorpipe/core/context_impl.cc:37-45 | different (pid, counter) pairs give different created ids |
| CoreContext.ListenerIdInjective | tensorpipe/core/context_impl.cc:123-133 | different listener counters give different listener ids |
| CoreContext.PipeIdInjective | tensorpipe/core/context_impl.cc:135-152 | different pipe counters give different pipe ids |
| CoreContext.Visit | tensorpipe/core/context_impl.cc:262-267 | iterating over an unordered map visits each entry exactly once |
| CoreContext.AppendInPhaseOrder | tensorpipe/core/context_impl.cc:247-311 | calls of one kind appended after calls of earlier kinds keep the log ordered by kind |
| CoreContext.CloseThenJoinInPhaseOrder | tensorpipe/core/context_impl.cc:247-311 | in closing then joining, no listener is closed after a pipe, no pipe after a transport or channel, no transport after a channel, no CUDA channel before a CPU one, no close after a join, and among joins no transport after a channel and no CUDA channel before a CPU one |
| CoreContext.Context.constructor | tensorpipe/core/context_impl.cc:49-56 | a context has the id `ContextId`, empty registries, nothing enrolled and zero counters |
| CoreContext.Context.RegisterTransport | tensorpipe/core/context_impl.cc:58-79 | the transport registry becomes what `Register` gives, with id `id + ".tr_" + name`, or stays unchanged with the fault reported |
| CoreContext.Context.RegisterChannel | tensorpipe/core/context_impl.cc:81-105 | the same for the channel registry of the device type, leaving the other device's registry unchanged |
| CoreContext.Context.GetTransport | tensorpipe/core/context_impl.cc:154-161 | the registered transport for the name, or EINVAL exactly when none is registered |
| CoreContext.Context.GetChannel | tensorpipe/core/context_impl.cc:163-172 | the same for channels of the device type |
| CoreContext.Context.Listen | tensorpipe/core/context_impl.cc:123-133 | the listener id is `id + "[l" + n + "]"` and the counter advances |
| CoreContext.Context.Connect | tensorpipe/core/context_impl.cc:135-152 | the pipe id is `id + ".p" + n`, or `id + "_to_" + remoteName` when one is given, and the counter advances either way |
| CoreContext.Context.EnrollListener | tensorpipe/core/context_impl.cc:206-212 | a new listener is added |
| CoreContext.Context.EnrollPipe | tensorpipe/core/context_impl.cc:214-220 | a new pipe is added |
| CoreContext.Context.UnenrollListener | tensorpipe/core/context_impl.cc:222-226 | exactly one listener is removed |
| CoreContext.Context.UnenrollPipe | tensorpipe/core/context_impl.cc:228-232 | exactly one pipe is removed |
| CoreContext.Context.Close | tensorpipe/core/context_impl.cc:247-281 | the body runs once only. The first time, the call log becomes: every listener enrolled at that moment, then every pipe enrolled at that moment, then every transport, then every CPU channel, then every CUDA channel, each closed exactly once; the listeners and pipes that unenroll inline while being closed are gone afterwards and the others stay. Later calls change neither the log nor the enrolled objects |
| CoreContext.Context.CloseAll | tensorpipe/core/context_impl.cc:253-276 | it appends closes of every listener and every pipe of the copies taken before the walk, then every transport, then every CPU and then every CUDA channel, each exactly once, and removes exactly the listeners and pipes that unenroll inline |
| CoreContext.Context.JoinAll | tensorpipe/core/context_impl.cc:297-304 | it appends joins of every transport, then every CPU channel, then every CUDA channel, each exactly once |
| CoreContext.Context.VisitChannels | tensorpipe/core/context_impl.cc:272-276 | the CPU channels and the CUDA channels are each visited exactly once, as two walks, the CPU one first |
| CoreContext.Context.Join | tensorpipe/core/context_impl.cc:283-311 | join closes first. On a context not yet closed, the log becomes close's calls followed by the joins of every transport, then every CPU channel, then every CUDA channel. On a closed one, it adds those joins once only. The first join leaves enrolled exactly the listeners and pipes that have not unenrolled, inline or in a callback run before it, and reports that nothing is left exactly when every enrolled one has unenrolled |
| CoreContext.Context.CloseOnce | tensorpipe/core/context_impl.cc:250-278 | the first close marks the context closed, logs closing's walk over the listeners and pipes enrolled at that moment and over every transport and channel, and removes exactly the ones that unenroll inline |
| CoreContext.Context.Unenroll | tensorpipe/core/context_impl.h:89-96 | the listeners and pipes given unenroll and no other |
| CoreContext.Context.JoinOnce | tensorpipe/core/context_impl.cc:286-310 | after the callbacks run before it remove the listeners and pipes that unenroll there, the first join appends the joins of every transport, then every CPU and every CUDA channel, each exactly once, and reports that nothing is left enrolled exactly when all of them have unenrolled |
| Messages.Message.constructor | tensorpipe/core/message.h:34 | a new message is empty |
| Messages.Message.FromMoved | tensorpipe/core/message.h:37-39 | the new message takes the source's contents and the source is left empty |
| Messages.Message.MoveAssign | tensorpipe/core/message.h:40-47 | move assignment swaps metadata, payloads and tensors with the source |
| Messages.Message.Clear | tensorpipe/core/message.h:49-53 | metadata, payloads and tensors are all emptied |
| Messages.MoveBack | tensorpipe/core/message.h:40-47 | moving a message into another and back restores both |
| Messages.Node.constructor | tensorpipe/core/message.h:87-90 | a new node has no successor and an empty message |
| Messages.FreeList.constructor | tensorpipe/core/message.h:92-94 | a free list starts empty and alive |
| Messages.FreeList.Allocate | tensorpipe/core/message.h:104-109 | the head node is popped when the list is non-empty (LIFO), and a fresh node with an empty message is made otherwise |
| Messages.FreeList.Deallocate | tensorpipe/core/message.h:110-117 | the node is pushed on the head unless the list is dead, in which case it is deleted |
| Messages.FreeList.Destroy | tensorpipe/core/message.h:95-103 | the list is marked dead and every node on it is deleted |
| Messages.FreeThenAllocate | tensorpipe/core/message.h:104-117 | allocating right after deallocating returns the same node and leaves the list as it was |
| Messages.MessageHandle.constructor | tensorpipe/core/message.h:127-130 | a new handle holds a node from the free list whose message is cleared |
| Messages.MessageHandle.FromMessage | tensorpipe/core/message.h:131-134 | the handle's node takes the moved message's contents |
| Messages.MessageHandle.FromMoved | tensorpipe/core/message.h:136-139 | the new handle takes the node and the moved-from handle holds null |
| Messages.MessageHandle.MoveAssign | tensorpipe/core/message.h:147-150 | move assignment swaps the two handles' nodes |
| Messages.MessageHandle.AssignMessage | tensorpipe/core/message.h:152-158 | assigning a message swaps it with the node's message |
| Messages.MessageHandle.Destroy | tensorpipe/core/message.h:140-144 | a null handle returns nothing; otherwise its node goes back to the free list, or is deleted if the list is dead |
| Segment.GetDefaultPageType | tensorpipe/util/shm/segment.cc:47-61 | 1 GB huge pages exactly from 1006632960 bytes, 2 MB huge pages exactly from 1572864 bytes below that, default pages below 1572864 |
| Segment.Waste | tensorpipe/util/shm/segment.cc:47-61 | rounding up to whole pages wastes less than one page |
| Segment.WasteBound | tensorpipe/util/shm/segment.cc:51-56 | at most 64 MiB is wasted in the 1 GB case up to 1 GiB, and at most 512 KiB in the 2 MB case up to 2 MiB |
| System.PadLeft | tensorpipe/common/system.cc:35-39 | padding keeps the string at the end, fills only on the left, and reaches the width without truncating |
| System.TstampToStr | tensorpipe/common/system.cc:30-40 | the invalid timestamp prints "NA"; any other ends in "us" after a point and exactly three digits |
| System.TrimPadded | tensorpipe/common/system.cc:35-39 | dropping the space padding of the integer field gives back its digits |
| System.ParseFields | tensorpipe/common/system.cc:35-39 | a string laid out as `whole + "." + frac + "us"` reads back as its integer field times 1000 plus its fraction field |
| System.FieldValues | tensorpipe/common/system.cc:35-39 | the padded integer field reads back as ts/1000 and the zero-padded fraction field as ts%1000 |
| System.ParseFormatted | tensorpipe/common/system.cc:35-39 | the two fields of a formatted timestamp read back as q*1000+m |
| System.TstampRoundTrip | tensorpipe/common/system.cc:30-40 | every valid timestamp reads back from its printed form |
| System.RemoveBlankSpaces | tensorpipe/common/system.cc:55-62 | the result is no longer than the input and contains no whitespace |
| System.RemoveBlankSpacesKeepsOrder | tensorpipe/common/system.cc:55-62 | the result is a subsequence of the input |
| System.RemoveBlankSpacesCounts | tensorpipe/common/system.cc:55-62 | every non-blank character keeps its number of occurrences and every blank one is gone |
| System.RemoveBlankSpacesIdempotent | tensorpipe/common/system.cc:55-62 | removing blanks twice is removing them once |
| System.NoBlanksIsFixpoint | tensorpipe/common/system.cc:55-62 | a string without blanks is left unchanged |
| Decimal.NatToString | tensorpipe/core/context_impl.cc:37-45 | `std::to_string` of an unsigned number is a non-empty digit string with no leading zero |
| Decimal.ParseNatToString | tensorpipe/core/context_impl.cc:37-45 | parsing the printed number gives it back |
| Decimal.NatToStringInjective | tensorpipe/core/context_impl.cc:37-45 | different numbers print differently |
| Decimal.NumberedInjective | tensorpipe/core/context_impl.cc:135-152 | a fixed prefix followed by different numbers gives different strings |
| Decimal.DigitPrefixOf | tensorpipe/core/context_impl.cc:37-45 | the digits of a number end where a non-digit starts |
| Decimal.ParseZeroPadded | tensorpipe/common/system.cc:37-38 | zero padding on the left does not change the value read back |
| Decimal.ParseZeros | tensorpipe/common/system.cc:37-38 | a string of zeros reads back as 0 |
| TransportContext.DomainDescriptor | tensorpipe/transport/ibv/context.cc:42-50 | the descriptor is the transport's name followed by ":*" |
| TransportContext.DomainDescriptorInjective | tensorpipe/transport/ibv/context.cc:42-50 | different transport names give different domain descriptors |
| TransportContext.LookupAddrForIface | tensorpipe/transport/ibv/context.cc:266-294 | a listing error is returned; otherwise the address of the first entry with an address, the name and an IPv4 or IPv6 family, or NoAddrFoundError when none fits |
| TransportContext.FirstBindable | tensorpipe/transport/ibv/context.cc:315-346 | a lookup error comes first; otherwise the first address that binds, or, when none binds, the first error met, or NoAddrFoundError with no candidates |
| IbvContext.GenerateDomainDescriptor | tensorpipe/transport/ibv/context.cc:40-50 | the descriptor is "ibv:*" |
| IbvContext.IdsDistinct | tensorpipe/transport/ibv/context.cc:215-240 | connection ids `id + ".c" + n` and listener ids `id + ".l" + n` differ from each other and across counters |
| IbvContext.IfaddrsError | tensorpipe/transport/ibv/context.cc:61-70 | getifaddrs fails exactly when it returns a negative value |
| IbvContext.ResolveError | tensorpipe/transport/ibv/context.cc:72-104 | a gethostname failure comes first; otherwise the lookup fails exactly when getaddrinfo does |
| IbvContext.BindOutcome | tensorpipe/transport/ibv/context.cc:323-328 | an address is usable exactly when both creating and binding the socket succeed, and a socket-creation error comes before any bind error |
| IbvContext.Context.constructor | tensorpipe/transport/ibv/context.cc:172 | the context has domain descriptor "ibv:*", zero counters, and is neither closed nor joined |
| IbvContext.Context.IsViable | tensorpipe/transport/ibv/context.cc:246-248 | the context is viable exactly when its reactor is |
| IbvContext.Context.Close | tensorpipe/transport/ibv/context.cc:178-188 | the body runs once only: it closes the closing emitter, the loop and the reactor |
| IbvContext.Context.Join | tensorpipe/transport/ibv/context.cc:194-205 | join closes first, then, once only, joins the loop and the reactor, whose thread ends up joined exactly once if it was started and never otherwise |
| IbvContext.Context.Connect | tensorpipe/transport/ibv/context.cc:215-225 | the connection id is `id + ".c" + n` and the counter advances |
| IbvContext.Context.Listen | tensorpipe/transport/ibv/context.cc:231-240 | the listener id is `id + ".l" + n` and the counter advances |
| IbvContext.Context.SetId | tensorpipe/transport/ibv/context.cc:353-357 | the context takes the new id |
| IbvContext.LookupAddrForIface | tensorpipe/transport/ibv/context.cc:262-295 | a getifaddrs failure is returned; otherwise the address of the first entry that has an address, the name and an IPv4 or IPv6 family, or NoAddrFoundError when none does |
| IbvContext.LookupAddrForHostname | tensorpipe/transport/ibv/context.cc:301-347 | a gethostname, then a getaddrinfo failure is returned first; otherwise the first resolved address whose socket is created and bound, or, when none is, the first attempt's error, or NoAddrFoundError when nothing resolved |
| UvContext.GenerateDomainDescriptor | tensorpipe/transport/uv/context_impl.cc:27-31 | the descriptor is "uv:*" |
| UvContext.UvResult | tensorpipe/transport/uv/context_impl.cc:52-55 | a negative libuv result is the error UVError of that result, and any other is success |
| UvContext.AsInterface | tensorpipe/transport/uv/context_impl.cc:57-76 | the lookup for a name may use a libuv entry exactly when the entry has that name and an IPv4 or IPv6 address, and then it gives that address |
| UvContext.LookupAddrForIface | tensorpipe/transport/uv/context_impl.cc:47-79 | a negative result becomes UVError; otherwise the address of the first libuv entry that has the name and an IPv4 or IPv6 family, or NoAddrFoundError when none does |
| UvContext.LookupAddrForHostnameFromLoop | tensorpipe/transport/uv/context_impl.cc:90-134 | hostname and resolve failures come first as UVError; otherwise the first resolved address that binds, or, when none does, the UVError of the first bind, or NoAddrFoundError when nothing resolved |

## Left out

- Threads, atomics and memory ordering. The model is sequential, so a compare-and-swap on the owner slot always succeeds when the slot is free.
- The promise and future that make `runInLoop` block, and the exception it rethrows to the caller. A task here always completes, so there is nothing to rethrow.
- Thread start and join in the executors and the reactor. Starting or joining the thread is modelled as an owner change, a flag or a counter; the thread's name is not modelled.
- IbvReactor.Reactor.DispatchBatch and IbvReactor.Reactor.PollOnce: the source runs the completion handlers inline, and a handler may call back into `postWrite`, `postAck` or `unregisterQp` during the batch. The model logs each handler call as an event and keeps the handler table and the queues fixed until the batch ends, so such re-entrant calls are not modelled.
- CoreContext.Register: the source takes `-priority` of a 64-bit integer (context_impl.cc:66, 78), which overflows for the smallest 64-bit value. Priorities here are unbounded integers, so that case is not modelled.
- ShmConnection.Connection.HandleError: the read queue and the write queue keep separate callback logs. That every read callback fires before any write callback (connection.cc:736-742) is not recorded.
- The commented-out per-thread queue code and the unused queued-function counter in deferred_executor.h.
- libibverbs: device, PD, CQ and SRQ setup, `poll_cq`, `post_send` and `post_srq_recv`. Completions are an input sequence and submissions an output log. A failed `post_send` or `post_srq_recv` is not modelled, because the calls are foreign.
- The once-a-100-ms polling heartbeat print in the reactor.
- `kNumPolledWorkCompletions` and the initial write and ack credits live in reactor.h and constants.h, which are not part of this model. They are constructor parameters.
- Sockets, epoll, fd passing and libuv handles. Syscall and libuv results (error codes, `nread`, write status, readiness bits) are method parameters.
- The shm ring buffers. Only their byte counts are modelled: bytes readable in the inbox and space free in the outbox. What the bytes hold, nop (de)serialisation and the peer's reactor trigger are left out; only the trigger calls are counted.
- The shm reads come in three forms (unsized 311-340, nop object 355-390, sized 403-434) and writes in two (450-479, 494-525). Each kind is modelled once, as a request for a number of bytes.
- In uv, the unsized and the sized `readFromLoop` (170-198, 200-231) are modelled once. `nread` is capped at what the front read needs, because the alloc callback bounds the buffer to that.
- `setId` and `setIdFromLoop_` of both connections, and the ibv context forwarding its new id to the reactor (`reactor_.setId`, context.cc:356), which only rename for logging and the loop thread.
- The closing emitter and receiver, and the ibv epoll loop. The ibv context only counts how often they are closed and joined.
- The message free list is a `thread_local` in the source. Here it is passed to `MessageHandle` explicitly.
- `MessageHandle`'s dereference operators, which only give access to the message.
- The contents of a message: metadata, payloads and tensors are one abstract value.
- `kInvalidTimeStamp` is declared in system.h, which is not part of this model. It is taken as the largest 64-bit value.
- `util/shm/segment.h`, the Segment constructors, `common/memory.h` and the ringbuffer mapping code: mmap and fallocate syscalls.
- `common/allocator.h`: it promises no behaviour worth proving.
- `getBootID`, `getProcFsStr` and `setThreadName` in system.cc: OS helpers.
- Logging everywhere.
- IbvReactor.Reactor.Replenish: it states the two credit invariants rather than the whole `Valid`. `PollOnce`, which calls it, re-establishes `Valid`.
- DeferredExecutor.Executor.RunInLoop: when the caller is outside the loop while the loop thread consumes the queue, the model does not block. If the thread is in its event loop, the call ends after that thread's next pass, which runs the task. If the thread has not started yet, the call ends with the task queued for it, and the model does not promise that the task has run.

## Findings

| source | as written | input that shows it | evidently intended | confidence | as-written member | corrected member |
|---|---|---|---|---|---|---|
| tensorpipe/transport/ibv/reactor.cc:94-100 | `join` calls `joinThread()` on its first call whatever happened in the constructor, but a constructor that finds no libibverbs or no device returns at 18-32, before `startThread` at 61; `thread_.join()` on a thread never started throws, and `~Reactor` (102-104) or the ibv context's destructor then terminates the process | a reactor built where libibverbs cannot be loaded, then joined or destroyed | join the thread only if the constructor started it | medium, not executed | IbvReactor.Reactor.JoinAsWritten | IbvReactor.Reactor.Join |
| tensorpipe/transport/uv/connection.cc:252-255 | after an error, `writeFromLoop` calls the new write's callback at once, even while earlier writes are still in flight in libuv; those get their callbacks later from `writeCallbackFromLoop_` | a connection with write #0 in flight, then an error, then write #1: the callback of #1 fires before the callback of #0, breaking the sequence-order check at 244, in the callback wrapper built at 243-250 | write callbacks fire in sequence order, so a write made after an error is failed right after the writes in flight | medium, not executed | UvConnection.Connection.WriteFromLoopAsWritten | UvConnection.Connection.WriteFromLoop |
