/**
 * The connection of tensorpipe/transport/shm/connection.cc: a handshake over
 * a UNIX domain socket exchanging the descriptors of two shared-memory ring
 * buffers (an inbox and an outbox), after which reads drain the inbox and
 * writes fill the outbox, each in FIFO order.
 *
 * Sockets, epoll and the ring buffers are outside the model: the syscalls'
 * outcomes are inputs, the inbox is the number of bytes available in it and
 * the outbox the number of bytes of free space in it.
 */
module ShmConnection {
  import opened Common
  import opened Operations

  const kBufferSize: nat := 2 * 1024 * 1024

  datatype State = Initializing | SendFds | RecvFds | Established

  /** The handshake's progress; it only ever moves forward, one step at a time. */
  function Rank(s: State): nat
  {
    match s
    case Initializing => 1
    case SendFds => 2
    case RecvFds => 3
    case Established => 4
  }

  datatype Interest = EpollIn | EpollOut

  /** The readiness bits epoll reported for the socket. */
  datatype EpollEvents = EpollEvents(epollErr: bool, epollIn: bool, epollOut: bool, epollHup: bool)

  /** What `getsockopt(SO_ERROR)` gives while handling EPOLLERR. */
  datatype SockOpt = GetsockoptFailed | PendingError(code: int)

  function SocketError(so: SockOpt): (e: Error)
    ensures e != NoError
  {
    match so
    case GetsockoptFailed => SystemError("getsockopt", -1)
    case PendingError(code) => SystemError("async error on socket", code)
  }

  /**
   * The error `initFromLoop` stops at: creating and connecting a socket are
   * tried only when none was given, then making it non-blocking.
   */
  function InitError(hadSocket: bool, createErr: Error, connectErr: Error, blockErr: Error): Error
  {
    if !hadSocket && createErr != NoError then createErr
    else if !hadSocket && connectErr != NoError then connectErr
    else blockErr
  }

  /**
   * Serving the queue `before` from `bytesBefore` available bytes left
   * `after` and `bytesAfter`: the first `|before| - |after|` operations
   * completed, the front of what is left got what remained, and the bytes
   * the operations no longer need are exactly the bytes used. An operation is
   * left waiting only once the bytes ran out.
   */
  predicate Served(before: seq<Op>, bytesBefore: nat, after: seq<Op>, bytesAfter: nat)
  {
    && |after| <= |before|
    && bytesAfter <= bytesBefore
    && Pending(before) - Pending(after) == bytesBefore - bytesAfter
    && (after != [] ==>
          var k := |before| - |after|;
          && bytesAfter == 0
          && after[0].seqNum == before[k].seqNum
          && 0 < after[0].remaining <= before[k].remaining
          && after[1..] == before[k + 1..])
  }

  lemma PendingSplit(ops: seq<Op>, k: nat)
    requires k <= |ops|
    ensures Pending(ops) == Pending(ops[..k]) + Pending(ops[k..])
  {
    assert ops == ops[..k] + ops[k..];
    PendingAppend(ops[..k], ops[k..]);
  }

  /** Completing the operation at `k` adds its remaining bytes to what the first `k` needed. */
  lemma PendingStep(ops: seq<Op>, k: nat)
    requires k < |ops|
    ensures Pending(ops[..k + 1]) == Pending(ops[..k]) + ops[k].remaining
  {
    PendingSplit(ops[..k + 1], k);
    assert ops[..k + 1][..k] == ops[..k];
    assert ops[..k + 1][k..] == [ops[k]];
  }

  /** Stopping at an operation that took `bytes` but is not done leaves the queue served. */
  lemma ServedStops(before: seq<Op>, k: nat, bytes0: nat, bytes: nat, after: seq<Op>)
    requires k < |before| && bytes <= bytes0 && Pending(before[..k]) == bytes0 - bytes
    requires bytes < before[k].remaining
    requires after == [before[k].(remaining := before[k].remaining - bytes)] + before[k + 1..]
    ensures Served(before, bytes0, after, 0)
  {
    PendingSplit(before, k);
    assert before[k..] == [before[k]] + before[k + 1..];
    assert Pending(before[k..]) == before[k].remaining + Pending(before[k + 1..]);
    assert Pending(after) == before[k].remaining - bytes + Pending(before[k + 1..]);
  }

  /**
   * One direction of the connection: its queue of operations, oldest
   * first, the bytes its ring buffer has ready for them (readable in the
   * inbox for reads, free in the outbox for writes), the numbering of its
   * callbacks, and how often the peer's reactor was told about this
   * direction's progress.
   */
  class OpQueue {
    var ops: seq<Op>
    var ready: nat
    var nextBuffer: nat
    var nextCallback: nat
    /** The callbacks fired so far, in order. */
    var callbacks: seq<Callback>
    var peerTriggers: nat

    /**
     * Queued operations carry consecutive sequence numbers starting with
     * the next callback to call, callbacks so far fired in sequence order,
     * and the ring buffer holds at most its capacity.
     */
    predicate Valid()
      reads this
    {
      && Consecutive(ops, nextCallback)
      && nextBuffer == nextCallback + |ops|
      && |callbacks| == nextCallback && InOrder(callbacks, 0)
      && ready <= kBufferSize
    }

    /** No operation is left waiting while the ring buffer has bytes for it. */
    predicate Drained()
      reads this`ops, this`ready
    {
      ops != [] ==> ready == 0
    }

    constructor()
      ensures Valid() && ops == [] && ready == 0 && nextBuffer == 0 && callbacks == [] && peerTriggers == 0
    {
      ops := [];
      ready := 0;
      nextBuffer := 0;
      nextCallback := 0;
      callbacks := [];
      peerTriggers := 0;
    }

    /** Calls a callback; it must be the next one in sequence. */
    method Call(seqNum: nat, err: Error)
      requires seqNum == nextCallback
      modifies this`callbacks, this`nextCallback
      ensures callbacks == old(callbacks) + [Callback(seqNum, err)]
      ensures nextCallback == old(nextCallback) + 1
    {
      nextCallback := nextCallback + 1;
      callbacks := callbacks + [Callback(seqNum, err)];
    }

    /**
     * Lets the front operation take what it can from the ring buffer,
     * telling the peer if it took anything, and pops and completes it if it
     * is done.
     */
    method ServeFront() returns (done: bool)
      requires Valid() && ops != []
      modifies this`ops, this`ready, this`callbacks, this`nextCallback, this`peerTriggers
      ensures Valid()
      ensures var op := old(ops[0]); var n := Min(op.remaining, old(ready));
        && ready == old(ready) - n
        && peerTriggers == old(peerTriggers) + (if n > 0 then 1 else 0)
        && (done <==> op.remaining <= old(ready))
        && (done ==> ops == old(ops[1..]) && callbacks == old(callbacks) + [Callback(op.seqNum, NoError)])
        && (!done ==> ops == [op.(remaining := op.remaining - n)] + old(ops[1..])
                      && callbacks == old(callbacks) && ready == 0)
    {
      var op := ops[0];
      var n := Min(op.remaining, ready);
      ready := ready - n;
      op := op.(remaining := op.remaining - n);
      if n > 0 {
        peerTriggers := peerTriggers + 1;
      }
      if op.remaining == 0 {
        Call(op.seqNum, NoError);
        ops := ops[1..];
        return true;
      }
      ops := [op] + ops[1..];
      return false;
    }

    /**
     * One turn of the loop over the queue `before` that started with
     * `bytes0` ready bytes and the callbacks `fired`: the operation at `k`
     * is served, and either it completed and the loop goes on from `k + 1`,
     * or the bytes ran out and the queue is served.
     */
    method ServeNext(ghost before: seq<Op>, ghost k: nat, ghost bytes0: nat, ghost fired: seq<Callback>) returns (done: bool)
      requires Valid() && k < |before| && ops == before[k..]
      requires callbacks == fired + Fire(before[..k], NoError)
      requires ready <= bytes0 && Pending(before[..k]) == bytes0 - ready
      modifies this`ops, this`ready, this`callbacks, this`nextCallback, this`peerTriggers
      ensures Valid() && ready <= old(ready)
      ensures peerTriggers == old(peerTriggers) + (if ready == old(ready) then 0 else 1)
      ensures done ==>
        ops == before[k + 1..] && callbacks == fired + Fire(before[..k + 1], NoError)
        && Pending(before[..k + 1]) == bytes0 - ready
      ensures !done ==> Served(before, bytes0, ops, ready) && callbacks == old(callbacks) && |ops| == |before| - k
    {
      ghost var bytes := ready;
      assert ops[0] == before[k] && ops[1..] == before[k + 1..];
      done := ServeFront();
      if !done {
        ServedStops(before, k, bytes0, bytes, ops);
        return;
      }
      FireStep(fired, before, k, NoError);
      PendingStep(before, k);
    }

    /**
     * Serves operations from the front, popping each one that completes and
     * stopping at the first that does not. The peer is told whenever bytes
     * were taken.
     */
    method Serve()
      requires Valid()
      modifies this`ops, this`ready, this`callbacks, this`nextCallback, this`peerTriggers
      ensures Valid() && Drained()
      ensures Served(old(ops), old(ready), ops, ready)
      ensures callbacks == old(callbacks) + Fire(old(ops)[..|old(ops)| - |ops|], NoError)
      ensures (peerTriggers == old(peerTriggers)) <==> (ready == old(ready))
    {
      ghost var before := ops;
      ghost var k := 0;
      while ops != []
        invariant Valid()
        invariant 0 <= k <= |before| && ops == before[k..]
        invariant callbacks == old(callbacks) + Fire(before[..k], NoError)
        invariant ready <= old(ready) && Pending(before[..k]) == old(ready) - ready
        invariant peerTriggers >= old(peerTriggers)
        invariant (peerTriggers == old(peerTriggers)) <==> (ready == old(ready))
        decreases |ops|
      {
        var done := ServeNext(before, k, old(ready), old(callbacks));
        if !done {
          break;
        }
        k := k + 1;
      }
      if ops == [] {
        assert before[..k] == before;
      }
    }

    /** Fails every queued operation, in order, with `err`. */
    method FailAll(err: Error)
      requires Valid()
      modifies this`ops, this`callbacks, this`nextCallback
      ensures Valid() && ops == []
      ensures callbacks == old(callbacks) + Fire(old(ops), err)
    {
      var pending := ops;
      ghost var fired := callbacks;
      var i := 0;
      while i < |pending|
        invariant 0 <= i <= |pending| && nextCallback == old(nextCallback) + i
        invariant callbacks == fired + Fire(pending[..i], err)
        modifies this`callbacks, this`nextCallback
      {
        FireStep(fired, pending, i, err);
        Call(pending[i].seqNum, err);
        i := i + 1;
      }
      assert pending[..i] == pending;
      ops := [];
      FireKeepsOrder(fired, pending, 0, err);
    }
  }

  class Connection {
    var state: State
    var error: Error
    /** Whether `socket_` holds a socket. */
    var hasSocket: bool
    /** What the socket is registered with the loop for, if at all. */
    var registered: Option<Interest>
    var unregisterCalls: nat
    /** Whether the inbox and outbox reactions are installed in the reactor. */
    var inboxToken: bool
    var outboxToken: bool
    var removedReactions: nat

    /** Reads, served from the inbox; writes, served into the outbox. */
    const readQueue: OpQueue
    const writeQueue: OpQueue

    /**
     * Both queues are well formed; an error has failed every operation and
     * released the reactions and the socket; the socket is registered for
     * writability while sending descriptors and for readability after; and
     * once established no operation waits while its ring buffer has bytes
     * for it.
     */
    predicate Valid()
      reads this, readQueue, writeQueue
    {
      && readQueue != writeQueue && readQueue.Valid() && writeQueue.Valid()
      && (error != NoError ==>
            readQueue.ops == [] && writeQueue.ops == [] && !inboxToken && !outboxToken && !hasSocket)
      && (registered.Some? <==> state != Initializing && error == NoError)
      && (state == SendFds && error == NoError ==> registered == Some(EpollOut))
      && (Rank(state) >= 3 && error == NoError ==> registered == Some(EpollIn))
      && (state != Initializing && error == NoError ==> hasSocket && inboxToken && outboxToken)
      && (state == Initializing && error == NoError ==> !inboxToken && !outboxToken)
      && (state == Established && error == NoError ==> readQueue.Drained() && writeQueue.Drained())
    }

    /** A connection made from an accepted socket, or one that will connect to an address. */
    constructor(fromListener: bool)
      ensures Valid() && state == Initializing && error == NoError && hasSocket == fromListener
      ensures fresh(readQueue) && fresh(writeQueue)
      ensures readQueue.ops == [] && writeQueue.ops == [] && readQueue.callbacks == [] && writeQueue.callbacks == []
      ensures readQueue.ready == 0 && writeQueue.ready == 0
      ensures unregisterCalls == 0 && removedReactions == 0 && readQueue.peerTriggers == 0 && writeQueue.peerTriggers == 0
    {
      state := Initializing;
      error := NoError;
      hasSocket := fromListener;
      registered := None;
      unregisterCalls := 0;
      inboxToken := false;
      outboxToken := false;
      removedReactions := 0;
      readQueue := new OpQueue();
      writeQueue := new OpQueue();
    }

    /**
     * Sets up the connection on the loop: obtain a connected non-blocking
     * socket, create the inbox and install the two reactions, then wait to
     * send descriptors. Any failure becomes the connection's error.
     */
    method InitFromLoop(createErr: Error, connectErr: Error, blockErr: Error)
      requires Valid() && state == Initializing && error == NoError
      modifies this, readQueue, writeQueue
      ensures Valid()
      ensures var e := InitError(old(hasSocket), createErr, connectErr, blockErr);
        (e != NoError ==>
           error == e && state == Initializing && unregisterCalls == old(unregisterCalls)
           && readQueue.callbacks == old(readQueue.callbacks) + Fire(old(readQueue.ops), e)
           && writeQueue.callbacks == old(writeQueue.callbacks) + Fire(old(writeQueue.ops), e))
        && (e == NoError ==>
              error == NoError && state == SendFds && registered == Some(EpollOut) && readQueue.ready == 0
              && readQueue.ops == old(readQueue.ops) && writeQueue.ops == old(writeQueue.ops))
    {
      var e := InitError(hasSocket, createErr, connectErr, blockErr);
      if e != NoError {
        // creating, connecting or making the socket non-blocking failed
        SetError(e);
        return;
      }
      hasSocket := true;
      EnterSendFds();
    }

    /** Creates the inbox, installs the two reactions and waits for the socket to take the descriptors. */
    method EnterSendFds()
      requires Valid() && state == Initializing && error == NoError && hasSocket
      modifies this`inboxToken, this`outboxToken, this`state, this`registered, readQueue`ready
      ensures Valid() && state == SendFds && registered == Some(EpollOut) && readQueue.ready == 0
    {
      readQueue.ready := 0;
      inboxToken := true;
      outboxToken := true;
      state := SendFds;
      registered := Some(EpollOut);
    }

    /** Serves queued reads from the inbox, but only once the connection is established. */
    method ProcessReadOperations()
      requires readQueue.Valid()
      modifies readQueue`ops, readQueue`ready, readQueue`callbacks, readQueue`nextCallback, readQueue`peerTriggers
      ensures readQueue.Valid()
      ensures state != Established ==> unchanged(readQueue)
      ensures state == Established ==>
        && readQueue.Drained() && Served(old(readQueue.ops), old(readQueue.ready), readQueue.ops, readQueue.ready)
        && readQueue.callbacks == old(readQueue.callbacks)
             + Fire(old(readQueue.ops)[..|old(readQueue.ops)| - |readQueue.ops|], NoError)
        && ((readQueue.peerTriggers == old(readQueue.peerTriggers)) <==> (readQueue.ready == old(readQueue.ready)))
    {
      if state != Established {
        return;
      }
      readQueue.Serve();
    }

    /** Serves queued writes into the outbox, but only once the connection is established. */
    method ProcessWriteOperations()
      requires writeQueue.Valid()
      modifies writeQueue`ops, writeQueue`ready, writeQueue`callbacks, writeQueue`nextCallback, writeQueue`peerTriggers
      ensures writeQueue.Valid()
      ensures state != Established ==> unchanged(writeQueue)
      ensures state == Established ==>
        && writeQueue.Drained() && Served(old(writeQueue.ops), old(writeQueue.ready), writeQueue.ops, writeQueue.ready)
        && writeQueue.callbacks == old(writeQueue.callbacks)
             + Fire(old(writeQueue.ops)[..|old(writeQueue.ops)| - |writeQueue.ops|], NoError)
        && ((writeQueue.peerTriggers == old(writeQueue.peerTriggers)) <==> (writeQueue.ready == old(writeQueue.ready)))
    {
      if state != Established {
        return;
      }
      writeQueue.Serve();
    }

    /** Queues a read needing `need` bytes, or fails it at once if the connection has an error. */
    method ReadFromLoop(need: nat)
      requires Valid()
      modifies readQueue
      ensures Valid()
      ensures readQueue.nextBuffer == old(readQueue.nextBuffer) + 1
      ensures old(error) != NoError ==>
        readQueue.callbacks == old(readQueue.callbacks) + [Callback(old(readQueue.nextBuffer), error)] && readQueue.ops == []
      ensures old(error) == NoError && state != Established ==>
        readQueue.ops == old(readQueue.ops) + [Op(old(readQueue.nextBuffer), need)]
        && readQueue.callbacks == old(readQueue.callbacks)
      ensures old(error) == NoError && state == Established ==>
        var queued := old(readQueue.ops) + [Op(old(readQueue.nextBuffer), need)];
        Served(queued, old(readQueue.ready), readQueue.ops, readQueue.ready)
        && readQueue.callbacks == old(readQueue.callbacks) + Fire(queued[..|queued| - |readQueue.ops|], NoError)
    {
      var sequenceNumber := readQueue.nextBuffer;
      readQueue.nextBuffer := readQueue.nextBuffer + 1;
      if error != NoError {
        readQueue.Call(sequenceNumber, error);
        return;
      }
      readQueue.ops := readQueue.ops + [Op(sequenceNumber, need)];
      ProcessReadOperations();
    }

    /** Queues a write of `need` bytes, or fails it at once if the connection has an error. */
    method WriteFromLoop(need: nat)
      requires Valid()
      modifies writeQueue
      ensures Valid()
      ensures writeQueue.nextBuffer == old(writeQueue.nextBuffer) + 1
      ensures old(error) != NoError ==>
        writeQueue.callbacks == old(writeQueue.callbacks) + [Callback(old(writeQueue.nextBuffer), error)] && writeQueue.ops == []
      ensures old(error) == NoError && state != Established ==>
        writeQueue.ops == old(writeQueue.ops) + [Op(old(writeQueue.nextBuffer), need)]
        && writeQueue.callbacks == old(writeQueue.callbacks)
      ensures old(error) == NoError && state == Established ==>
        var queued := old(writeQueue.ops) + [Op(old(writeQueue.nextBuffer), need)];
        Served(queued, old(writeQueue.ready), writeQueue.ops, writeQueue.ready)
        && writeQueue.callbacks == old(writeQueue.callbacks) + Fire(queued[..|queued| - |writeQueue.ops|], NoError)
    {
      var sequenceNumber := writeQueue.nextBuffer;
      writeQueue.nextBuffer := writeQueue.nextBuffer + 1;
      if error != NoError {
        writeQueue.Call(sequenceNumber, error);
        return;
      }
      writeQueue.ops := writeQueue.ops + [Op(sequenceNumber, need)];
      ProcessWriteOperations();
    }

    /** The inbox reaction: the peer wrote `written` bytes into the inbox. */
    method OnInboxReaction(written: nat)
      requires Valid() && inboxToken && readQueue.ready + written <= kBufferSize
      modifies readQueue
      ensures Valid()
      ensures state == Established ==>
        Served(old(readQueue.ops), old(readQueue.ready) + written, readQueue.ops, readQueue.ready)
      ensures state != Established ==>
        readQueue.ready == old(readQueue.ready) + written && readQueue.ops == old(readQueue.ops)
    {
      readQueue.ready := readQueue.ready + written;
      ProcessReadOperations();
    }

    /** The outbox reaction: the peer read `freed` bytes from the outbox. */
    method OnOutboxReaction(freed: nat)
      requires Valid() && outboxToken && writeQueue.ready + freed <= kBufferSize
      modifies writeQueue
      ensures Valid()
      ensures state == Established ==>
        Served(old(writeQueue.ops), old(writeQueue.ready) + freed, writeQueue.ops, writeQueue.ready)
      ensures state != Established ==>
        writeQueue.ready == old(writeQueue.ready) + freed && writeQueue.ops == old(writeQueue.ops)
    {
      writeQueue.ready := writeQueue.ready + freed;
      ProcessWriteOperations();
    }

    /**
     * Handles one event of the socket, the most urgent first: an error, then
     * readability, then writability, then hang-up. Returns whether the event
     * was one the connection's state cannot take, which is fatal.
     */
    method HandleEventsFromLoop(ev: EpollEvents, so: SockOpt, recvErr: Error, sendErr: Error) returns (fatal: bool)
      requires Valid() && registered.Some?
      modifies this, readQueue, writeQueue
      ensures Valid()
      ensures fatal <==>
        (!ev.epollErr && ((ev.epollIn && Rank(old(state)) < 3) || (!ev.epollIn && ev.epollOut && old(state) != SendFds)))
      ensures state == old(state) || Rank(state) == Rank(old(state)) + 1
      ensures ev.epollErr ==> error == SocketError(so) && state == old(state)
      ensures !ev.epollErr && ev.epollIn && old(state) == Established ==> error == EOFError
      ensures !ev.epollErr && ev.epollIn && old(state) == RecvFds ==>
        (recvErr != NoError ==> error == recvErr && state == RecvFds)
        && (recvErr == NoError ==> error == NoError && state == Established)
      ensures !ev.epollErr && !ev.epollIn && ev.epollOut && old(state) == SendFds ==>
        (sendErr != NoError ==> error == sendErr && state == SendFds)
        && (sendErr == NoError ==> error == NoError && state == RecvFds && registered == Some(EpollIn))
      ensures !ev.epollErr && !ev.epollIn && !ev.epollOut && ev.epollHup ==> error == EOFError && state == old(state)
      ensures !ev.epollErr && !ev.epollIn && !ev.epollOut && !ev.epollHup ==>
        error == old(error) && state == old(state) && readQueue.ops == old(readQueue.ops) && writeQueue.ops == old(writeQueue.ops)
    {
      if ev.epollErr {
        SetError(SocketError(so));
        return false;
      }
      if ev.epollIn {
        fatal := HandleEventInFromLoop(recvErr);
        return;
      }
      if ev.epollOut {
        fatal := HandleEventOutFromLoop(sendErr);
        return;
      }
      if ev.epollHup {
        SetError(EOFError);
        return false;
      }
      return false;
    }

    /**
     * Readability: in RECV_FDS, receive the peer's descriptors, load the
     * outbox and become established, then serve queued writes and reads; once
     * established, readability means the peer hung up.
     */
    method HandleEventInFromLoop(recvErr: Error) returns (fatal: bool)
      requires Valid() && registered.Some?
      modifies this, readQueue, writeQueue
      ensures Valid()
      ensures fatal <==> Rank(old(state)) < 3
      ensures fatal ==> state == old(state) && error == old(error)
      ensures old(state) == Established ==> error == EOFError && state == Established
      ensures old(state) == RecvFds && recvErr != NoError ==> error == recvErr && state == RecvFds
      ensures old(state) == RecvFds && recvErr == NoError ==>
        error == NoError && state == Established
        && Served(old(writeQueue.ops), kBufferSize, writeQueue.ops, writeQueue.ready)
        && Served(old(readQueue.ops), old(readQueue.ready), readQueue.ops, readQueue.ready)
    {
      if state == RecvFds {
        if recvErr != NoError {
          SetError(recvErr);
          return false;
        }
        Establish();
        return false;
      }
      if state == Established {
        SetError(EOFError);
        return false;
      }
      return true;
    }

    /**
     * The peer's descriptors arrived: the outbox is loaded with its whole
     * capacity free, the connection is established, and queued writes and
     * then queued reads are served.
     */
    method Establish()
      requires Valid() && state == RecvFds && error == NoError
      modifies this`state, readQueue, writeQueue
      ensures Valid() && state == Established
      ensures Served(old(writeQueue.ops), kBufferSize, writeQueue.ops, writeQueue.ready)
      ensures Served(old(readQueue.ops), old(readQueue.ready), readQueue.ops, readQueue.ready)
    {
      writeQueue.ready := kBufferSize;
      state := Established;
      ProcessWriteOperations();
      ProcessReadOperations();
    }

    /** Writability: in SEND_FDS, send our descriptors and wait for the peer's. */
    method HandleEventOutFromLoop(sendErr: Error) returns (fatal: bool)
      requires Valid() && registered.Some?
      modifies this, readQueue, writeQueue
      ensures Valid()
      ensures fatal <==> old(state) != SendFds
      ensures fatal ==> state == old(state) && error == old(error)
      ensures !fatal && sendErr != NoError ==> error == sendErr && state == SendFds
      ensures !fatal && sendErr == NoError ==> error == NoError && state == RecvFds && registered == Some(EpollIn)
    {
      if state == SendFds {
        if sendErr != NoError {
          SetError(sendErr);
          return false;
        }
        state := RecvFds;
        registered := Some(EpollIn);
        return false;
      }
      return true;
    }

    /** Records the first error and tears the connection down; later errors and successes are ignored. */
    method SetError(e: Error)
      requires Valid()
      modifies this, readQueue, writeQueue
      ensures Valid() && state == old(state)
      ensures old(error) != NoError || e == NoError ==>
        error == old(error) && unchanged(readQueue, writeQueue)
        && unregisterCalls == old(unregisterCalls) && removedReactions == old(removedReactions)
      ensures old(error) == NoError && e != NoError ==>
        error == e && readQueue.ops == [] && writeQueue.ops == []
        && readQueue.callbacks == old(readQueue.callbacks) + Fire(old(readQueue.ops), e)
        && writeQueue.callbacks == old(writeQueue.callbacks) + Fire(old(writeQueue.ops), e)
        && unregisterCalls == old(unregisterCalls) + (if old(state) != Initializing then 1 else 0)
      ensures readQueue.ready == old(readQueue.ready) && writeQueue.ready == old(writeQueue.ready)
    {
      if error != NoError || e == NoError {
        return;
      }
      error := e;
      HandleError();
    }

    /**
     * Fails every queued read and every queued write with the error,
     * removes both reactions, and releases the socket, unregistering it from
     * the loop only if it had been registered (past INITIALIZING).
     */
    method HandleError()
      requires readQueue != writeQueue && readQueue.Valid() && writeQueue.Valid() && error != NoError
      modifies readQueue`ops, readQueue`callbacks, readQueue`nextCallback
      modifies writeQueue`ops, writeQueue`callbacks, writeQueue`nextCallback
      modifies this`inboxToken, this`outboxToken, this`removedReactions
      modifies this`hasSocket, this`registered, this`unregisterCalls
      ensures readQueue.Valid() && writeQueue.Valid()
      ensures readQueue.ops == [] && writeQueue.ops == []
      ensures readQueue.callbacks == old(readQueue.callbacks) + Fire(old(readQueue.ops), error)
      ensures writeQueue.callbacks == old(writeQueue.callbacks) + Fire(old(writeQueue.ops), error)
      ensures !inboxToken && !outboxToken && !hasSocket
      ensures removedReactions == old(removedReactions) + (if old(inboxToken) then 1 else 0) + (if old(outboxToken) then 1 else 0)
      ensures old(hasSocket) && state != Initializing ==> unregisterCalls == old(unregisterCalls) + 1 && registered.None?
      ensures !(old(hasSocket) && state != Initializing) ==>
        unregisterCalls == old(unregisterCalls) && registered == old(registered)
    {
      readQueue.FailAll(error);
      writeQueue.FailAll(error);
      ReleaseResources();
    }

    /**
     * Removes whichever reactions are still installed and releases the
     * socket, unregistering it from the loop only past INITIALIZING.
     */
    method ReleaseResources()
      modifies this`inboxToken, this`outboxToken, this`removedReactions
      modifies this`hasSocket, this`registered, this`unregisterCalls
      ensures !inboxToken && !outboxToken && !hasSocket
      ensures removedReactions == old(removedReactions) + (if old(inboxToken) then 1 else 0) + (if old(outboxToken) then 1 else 0)
      ensures old(hasSocket) && state != Initializing ==> unregisterCalls == old(unregisterCalls) + 1 && registered.None?
      ensures !(old(hasSocket) && state != Initializing) ==>
        unregisterCalls == old(unregisterCalls) && registered == old(registered)
    {
      if inboxToken {
        removedReactions := removedReactions + 1;
        inboxToken := false;
      }
      if outboxToken {
        removedReactions := removedReactions + 1;
        outboxToken := false;
      }
      if hasSocket {
        if state != Initializing {
          unregisterCalls := unregisterCalls + 1;
          registered := None;
        }
        hasSocket := false;
      }
    }

    /** Closing is failing with ConnectionClosedError: a no-op once any error is set. */
    method CloseFromLoop()
      requires Valid()
      modifies this, readQueue, writeQueue
      ensures Valid()
      ensures old(error) != NoError ==> error == old(error) && unchanged(readQueue, writeQueue)
      ensures old(error) == NoError ==>
        (error == ConnectionClosedError && readQueue.ops == [] && writeQueue.ops == []
         && readQueue.callbacks == old(readQueue.callbacks) + Fire(old(readQueue.ops), ConnectionClosedError)
         && writeQueue.callbacks == old(writeQueue.callbacks) + Fire(old(writeQueue.ops), ConnectionClosedError))
    {
      SetError(ConnectionClosedError);
    }
  }
}
