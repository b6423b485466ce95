/**
 * The RDMA reactor of tensorpipe/transport/ibv/reactor.cc: flow control of
 * RDMA writes and acks by credit counters and pending queues, dispatch of
 * polled work completions to the handlers of their queue pairs, and refill of
 * the shared receive queue.
 *
 * libibverbs is outside the model: a poll of the completion queue is an
 * input, and what the reactor posts is recorded in output logs.
 */
module IbvReactor {
  import opened Common
  import DeferredExecutor

  type QpNum = nat
  type HandlerId = nat

  /** A work request handed to `postWrite`/`postAck`, for the queue pair `qp`. */
  datatype Request = Request(qp: QpNum, wr: nat)

  datatype Opcode = RecvRdmaWithImm | Recv | RdmaWrite | Send | UnknownOpcode(code: nat)

  const WcSuccess: nat := 0

  datatype WorkCompletion = WorkCompletion(
    qpNum: QpNum, opcode: Opcode, status: nat, wrId: nat, withImm: bool, immData: nat)

  /** What `poll_cq` returned: some completions (none means nothing to do), or a failure. */
  datatype Poll = Completions(wcs: seq<WorkCompletion>) | PollFailed

  /** The handler callbacks a completion triggers. */
  datatype Event =
    | OnError(handler: HandlerId, status: nat, wrId: nat)
    | OnRemoteProducedData(handler: HandlerId, imm: nat)
    | OnRemoteConsumedData(handler: HandlerId, imm: nat)
    | OnWriteCompleted(handler: HandlerId)
    | OnAckCompleted(handler: HandlerId)

  datatype PollOutcome = NothingPolled | Polled | Fatal

  /** A completion `pollOnce` refuses: unknown queue pair, unknown opcode, or a receive without immediate data. */
  predicate Rejected(handlers: map<QpNum, HandlerId>, wc: WorkCompletion)
  {
    wc.qpNum !in handlers || wc.opcode.UnknownOpcode?
    || ((wc.opcode.Recv? || wc.opcode.RecvRdmaWithImm?) && !wc.withImm)
  }

  /** The callback for an accepted completion: errors go to onError, successes by opcode. */
  function Dispatch(h: HandlerId, wc: WorkCompletion): Event
    requires !wc.opcode.UnknownOpcode?
  {
    if wc.status != WcSuccess then OnError(h, wc.status, wc.wrId)
    else match wc.opcode
      case RecvRdmaWithImm => OnRemoteProducedData(h, wc.immData)
      case Recv => OnRemoteConsumedData(h, wc.immData)
      case RdmaWrite => OnWriteCompleted(h)
      case Send => OnAckCompleted(h)
  }

  /** Every completion of `wcs` is accepted. */
  predicate AllAccepted(handlers: map<QpNum, HandlerId>, wcs: seq<WorkCompletion>)
  {
    forall i {:trigger wcs[i]} :: 0 <= i < |wcs| ==> !Rejected(handlers, wcs[i])
  }

  /** The callbacks a batch of accepted completions fires: one per completion, in order. */
  function Events(handlers: map<QpNum, HandlerId>, wcs: seq<WorkCompletion>): (r: seq<Event>)
    requires AllAccepted(handlers, wcs)
    ensures |r| == |wcs|
    ensures forall i :: 0 <= i < |wcs| ==> r[i] == Dispatch(handlers[wcs[i].qpNum], wcs[i])
  {
    if wcs == [] then []
    else Events(handlers, wcs[..|wcs| - 1]) + [Dispatch(handlers[wcs[|wcs| - 1].qpNum], wcs[|wcs| - 1])]
  }

  /** How many completions of `wcs` are receives, writes or sends (whatever their status). */
  function CountRecvs(wcs: seq<WorkCompletion>): nat
  {
    if wcs == [] then 0
    else CountRecvs(wcs[..|wcs| - 1]) + (if wcs[|wcs| - 1].opcode in {Recv, RecvRdmaWithImm} then 1 else 0)
  }

  function CountWrites(wcs: seq<WorkCompletion>): nat
  {
    if wcs == [] then 0
    else CountWrites(wcs[..|wcs| - 1]) + (if wcs[|wcs| - 1].opcode == RdmaWrite then 1 else 0)
  }

  function CountSends(wcs: seq<WorkCompletion>): nat
  {
    if wcs == [] then 0
    else CountSends(wcs[..|wcs| - 1]) + (if wcs[|wcs| - 1].opcode == Send then 1 else 0)
  }

  predicate SameButStatus(a: seq<WorkCompletion>, b: seq<WorkCompletion>)
  {
    |a| == |b| && forall i :: 0 <= i < |a| ==> a[i].opcode == b[i].opcode
  }

  /** Credits come back for every write or send completion, failed or not. */
  lemma {:induction false} CreditsIgnoreStatus(a: seq<WorkCompletion>, b: seq<WorkCompletion>)
    requires SameButStatus(a, b)
    ensures CountWrites(a) == CountWrites(b) && CountSends(a) == CountSends(b) && CountRecvs(a) == CountRecvs(b)
    decreases |a|
  {
    if a != [] {
      CreditsIgnoreStatus(a[..|a| - 1], b[..|b| - 1]);
    }
  }

  /** Each completion counts towards at most one of the three kinds. */
  lemma {:induction false} CountsBounded(wcs: seq<WorkCompletion>)
    ensures CountRecvs(wcs) + CountWrites(wcs) + CountSends(wcs) <= |wcs|
    decreases |wcs|
  {
    if wcs != [] {
      CountsBounded(wcs[..|wcs| - 1]);
    }
  }

  /** The batch sizes in which `num` receive requests are posted, `k` at most per batch. */
  function Batches(num: int, k: nat): (r: seq<nat>)
    requires k > 0
    ensures forall i :: 0 <= i < |r| ==> 1 <= r[i] <= k
    ensures num > 0 ==> Sum(r) == num
    ensures num <= 0 ==> r == []
    decreases num
  {
    if num <= 0 then [] else [Min(num, k)] + Batches(num - Min(num, k), k)
  }

  /** Posting the first batch of `left` moves it from what is still to post to what was posted. */
  lemma BatchesStep(posted: seq<nat>, left: int, k: nat)
    requires k > 0 && left > 0
    ensures posted + Batches(left, k) == (posted + [Min(left, k)]) + Batches(left - Min(left, k), k)
  {
    assert Batches(left, k) == [Min(left, k)] + Batches(left - Min(left, k), k);
  }

  function Sum(xs: seq<nat>): nat
  {
    if xs == [] then 0 else xs[0] + Sum(xs[1..])
  }

  /** Only the last batch can be partial. */
  lemma {:induction false} BatchesAreFull(num: int, k: nat)
    requires k > 0
    ensures forall i :: 0 <= i < |Batches(num, k)| - 1 ==> Batches(num, k)[i] == k
    decreases num
  {
    if num > k {
      BatchesAreFull(num - k, k);
      assert Batches(num, k) == [k] + Batches(num - k, k);
    } else if num > 0 {
      assert Batches(num, k) == [num];
    }
  }

  /**
   * One more completion of a batch: a rejected one rejects the batch, an
   * accepted one adds its callback and its count.
   */
  lemma BatchStep(handlers: map<QpNum, HandlerId>, wcs: seq<WorkCompletion>, i: nat)
    requires i < |wcs| && AllAccepted(handlers, wcs[..i])
    ensures Rejected(handlers, wcs[i]) ==> !AllAccepted(handlers, wcs)
    ensures !Rejected(handlers, wcs[i]) ==>
      && AllAccepted(handlers, wcs[..i + 1])
      && Events(handlers, wcs[..i + 1]) == Events(handlers, wcs[..i]) + [Dispatch(handlers[wcs[i].qpNum], wcs[i])]
      && CountRecvs(wcs[..i + 1]) == CountRecvs(wcs[..i]) + (if wcs[i].opcode in {Recv, RecvRdmaWithImm} then 1 else 0)
      && CountWrites(wcs[..i + 1]) == CountWrites(wcs[..i]) + (if wcs[i].opcode == RdmaWrite then 1 else 0)
      && CountSends(wcs[..i + 1]) == CountSends(wcs[..i]) + (if wcs[i].opcode == Send then 1 else 0)
  {
    var next := wcs[..i + 1];
    assert next[..i] == wcs[..i] && next[i] == wcs[i];
    if !Rejected(handlers, wcs[i]) {
      assert forall j :: 0 <= j < |next| ==> next[j] == wcs[j];
    }
  }

  class Reactor {
    /** `kNumPolledWorkCompletions`: the size of a poll and of a receive batch. */
    const numPolled: nat
    /** Whether libibverbs was found and a device opened (`isViable`). */
    const viable: bool
    /** The busy-polling loop this reactor runs on. */
    const loop: DeferredExecutor.Executor
    /** Whether the constructor got as far as starting the loop's thread. */
    const threadStarted: bool

    var numAvailableWrites: int
    var numAvailableAcks: int
    var pendingQpWrites: seq<Request>
    var pendingQpAcks: seq<Request>
    var handlers: map<QpNum, HandlerId>

    /** What was handed to `post_send` for writes and for acks, in order. */
    var postedWrites: seq<Request>
    var postedAcks: seq<Request>
    /** The batch sizes handed to `post_srq_recv`, in order. */
    var recvBatches: seq<nat>
    /** The handler callbacks fired, in order. */
    var events: seq<Event>

    var closed: bool
    var joined: bool
    /** How many times the loop's thread was joined. */
    var threadJoins: nat

    predicate WriteCreditsValid()
      reads this
    {
      numAvailableWrites >= 0 && (pendingQpWrites != [] ==> numAvailableWrites == 0)
    }

    predicate AckCreditsValid()
      reads this
    {
      numAvailableAcks >= 0 && (pendingQpAcks != [] ==> numAvailableAcks == 0)
    }

    /** Credits never go negative, and nothing waits while credit is available. */
    predicate Valid()
      reads this, loop
    {
      && numPolled > 0 && WriteCreditsValid() && AckCreditsValid() && (closed ==> loop.closed)
      && (joined ==> closed)
      && threadJoins == (if joined && threadStarted then 1 else 0)
    }

    /**
     * A reactor is viable when libibverbs loads and a device exists; only
     * then are the initial receive requests posted and the loop's thread
     * started, as the constructor returns early otherwise.
     */
    constructor(libFound: bool, numDevices: nat, numPolled: nat, numPendingRecvReqs: nat,
                initialWrites: nat, initialAcks: nat, loopThread: DeferredExecutor.ThreadId)
      requires numPolled > 0
      ensures Valid() && fresh(loop) && loop.hasThread && loop.Valid()
      ensures viable <==> libFound && numDevices > 0
      ensures threadStarted == viable
      ensures recvBatches == if viable then Batches(numPendingRecvReqs, numPolled) else []
      ensures numAvailableWrites == initialWrites && numAvailableAcks == initialAcks
      ensures pendingQpWrites == [] && pendingQpAcks == [] && handlers == map[]
      ensures postedWrites == [] && postedAcks == [] && events == []
      ensures !closed && !joined && threadJoins == 0
    {
      this.numPolled := numPolled;
      viable := libFound && numDevices > 0;
      threadStarted := libFound && numDevices > 0;
      loop := new DeferredExecutor.Executor(true, loopThread);
      numAvailableWrites := initialWrites;
      numAvailableAcks := initialAcks;
      pendingQpWrites := [];
      pendingQpAcks := [];
      handlers := map[];
      postedWrites := [];
      postedAcks := [];
      recvBatches := [];
      events := [];
      closed := false;
      joined := false;
      threadJoins := 0;
      new;
      if viable {
        PostRecvRequestsOnSRQ(numPendingRecvReqs);
      }
    }

    function IsViable(): (r: bool)
      ensures r == viable
    {
      viable
    }

    /** Posts `num` receive requests on the shared receive queue, `numPolled` at most per call. */
    method PostRecvRequestsOnSRQ(num: int)
      requires numPolled > 0
      modifies this`recvBatches
      ensures recvBatches == old(recvBatches) + Batches(num, numPolled)
    {
      var left := num;
      while left > 0
        invariant recvBatches + Batches(left, numPolled) == old(recvBatches) + Batches(num, numPolled)
        decreases left
      {
        var batch := Min(left, numPolled);
        BatchesStep(recvBatches, left, numPolled);
        recvBatches := recvBatches + [batch];
        left := left - batch;
      }
    }

    /** Submits an RDMA write if a credit is available, otherwise queues it at the back. */
    method PostWrite(req: Request)
      requires numAvailableWrites >= 0
      modifies this`numAvailableWrites, this`postedWrites, this`pendingQpWrites
      ensures old(numAvailableWrites) > 0 ==>
        postedWrites == old(postedWrites) + [req] && numAvailableWrites == old(numAvailableWrites) - 1
        && pendingQpWrites == old(pendingQpWrites)
      ensures old(numAvailableWrites) == 0 ==>
        pendingQpWrites == old(pendingQpWrites) + [req] && numAvailableWrites == 0
        && postedWrites == old(postedWrites)
      ensures old(WriteCreditsValid()) ==>
        (WriteCreditsValid() && postedWrites + pendingQpWrites == old(postedWrites + pendingQpWrites) + [req])
    {
      if numAvailableWrites > 0 {
        postedWrites := postedWrites + [req];
        numAvailableWrites := numAvailableWrites - 1;
      } else {
        pendingQpWrites := pendingQpWrites + [req];
      }
    }

    /** Submits a send (an ack) if a credit is available, otherwise queues it at the back. */
    method PostAck(req: Request)
      requires numAvailableAcks >= 0
      modifies this`numAvailableAcks, this`postedAcks, this`pendingQpAcks
      ensures old(numAvailableAcks) > 0 ==>
        postedAcks == old(postedAcks) + [req] && numAvailableAcks == old(numAvailableAcks) - 1
        && pendingQpAcks == old(pendingQpAcks)
      ensures old(numAvailableAcks) == 0 ==>
        pendingQpAcks == old(pendingQpAcks) + [req] && numAvailableAcks == 0
        && postedAcks == old(postedAcks)
      ensures old(AckCreditsValid()) ==>
        (AckCreditsValid() && postedAcks + pendingQpAcks == old(postedAcks + pendingQpAcks) + [req])
    {
      if numAvailableAcks > 0 {
        postedAcks := postedAcks + [req];
        numAvailableAcks := numAvailableAcks - 1;
      } else {
        pendingQpAcks := pendingQpAcks + [req];
      }
    }

    /** Returns `n` write credits and submits queued writes from the front while credit lasts. */
    method ReplenishWrites(n: nat)
      requires numAvailableWrites >= 0
      modifies this`numAvailableWrites, this`postedWrites, this`pendingQpWrites
      ensures var k := Min(|old(pendingQpWrites)|, old(numAvailableWrites) + n);
        postedWrites == old(postedWrites) + old(pendingQpWrites)[..k]
        && pendingQpWrites == old(pendingQpWrites)[k..]
        && numAvailableWrites == old(numAvailableWrites) + n - k
      ensures WriteCreditsValid()
      ensures postedWrites + pendingQpWrites == old(postedWrites + pendingQpWrites)
      ensures numAvailableWrites + |postedWrites| == old(numAvailableWrites + |postedWrites|) + n
    {
      numAvailableWrites := numAvailableWrites + n;
      ghost var k := 0;
      while pendingQpWrites != [] && numAvailableWrites > 0
        invariant 0 <= k <= |old(pendingQpWrites)|
        invariant postedWrites == old(postedWrites) + old(pendingQpWrites)[..k]
        invariant pendingQpWrites == old(pendingQpWrites)[k..]
        invariant numAvailableWrites == old(numAvailableWrites) + n - k >= 0
        decreases |pendingQpWrites|
      {
        PostWrite(pendingQpWrites[0]);
        pendingQpWrites := pendingQpWrites[1..];
        k := k + 1;
      }
      assert old(pendingQpWrites) == old(pendingQpWrites)[..k] + old(pendingQpWrites)[k..];
    }

    /** Returns `n` ack credits and submits queued acks from the front while credit lasts. */
    method ReplenishAcks(n: nat)
      requires numAvailableAcks >= 0
      modifies this`numAvailableAcks, this`postedAcks, this`pendingQpAcks
      ensures var k := Min(|old(pendingQpAcks)|, old(numAvailableAcks) + n);
        postedAcks == old(postedAcks) + old(pendingQpAcks)[..k]
        && pendingQpAcks == old(pendingQpAcks)[k..]
        && numAvailableAcks == old(numAvailableAcks) + n - k
      ensures AckCreditsValid()
      ensures postedAcks + pendingQpAcks == old(postedAcks + pendingQpAcks)
      ensures numAvailableAcks + |postedAcks| == old(numAvailableAcks + |postedAcks|) + n
    {
      numAvailableAcks := numAvailableAcks + n;
      ghost var k := 0;
      while pendingQpAcks != [] && numAvailableAcks > 0
        invariant 0 <= k <= |old(pendingQpAcks)|
        invariant postedAcks == old(postedAcks) + old(pendingQpAcks)[..k]
        invariant pendingQpAcks == old(pendingQpAcks)[k..]
        invariant numAvailableAcks == old(numAvailableAcks) + n - k >= 0
        decreases |pendingQpAcks|
      {
        PostAck(pendingQpAcks[0]);
        pendingQpAcks := pendingQpAcks[1..];
        k := k + 1;
      }
      assert old(pendingQpAcks) == old(pendingQpAcks)[..k] + old(pendingQpAcks)[k..];
    }

    /** Fires the callback of an accepted completion. */
    method DispatchCompletion(h: HandlerId, wc: WorkCompletion)
      requires !wc.opcode.UnknownOpcode?
      modifies this`events
      ensures events == old(events) + [Dispatch(h, wc)]
    {
      if wc.status != WcSuccess {
        events := events + [OnError(h, wc.status, wc.wrId)];
      } else {
        match wc.opcode {
          case RecvRdmaWithImm =>
            events := events + [OnRemoteProducedData(h, wc.immData)];
          case Recv =>
            events := events + [OnRemoteConsumedData(h, wc.immData)];
          case RdmaWrite =>
            events := events + [OnWriteCompleted(h)];
          case Send =>
            events := events + [OnAckCompleted(h)];
        }
      }
    }

    /**
     * Walks a polled batch: rejects it at the first completion that is not
     * accepted, otherwise counts receives, writes and sends and fires every
     * completion's callback.
     */
    method DispatchBatch(wcs: seq<WorkCompletion>) returns (accepted: bool, numRecvs: nat, numWrites: nat, numAcks: nat)
      modifies this`events
      ensures accepted <==> AllAccepted(handlers, wcs)
      ensures accepted ==>
        (events == old(events) + Events(handlers, wcs)
         && numRecvs == CountRecvs(wcs) && numWrites == CountWrites(wcs) && numAcks == CountSends(wcs))
    {
      numRecvs, numWrites, numAcks := 0, 0, 0;
      var i := 0;
      while i < |wcs|
        invariant 0 <= i <= |wcs|
        invariant AllAccepted(handlers, wcs[..i])
        invariant events == old(events) + Events(handlers, wcs[..i])
        invariant numRecvs == CountRecvs(wcs[..i]) && numWrites == CountWrites(wcs[..i]) && numAcks == CountSends(wcs[..i])
        modifies this`events
      {
        var wc := wcs[i];
        BatchStep(handlers, wcs, i);
        if wc.qpNum !in handlers {
          return false, 0, 0, 0;
        }
        var h := handlers[wc.qpNum];
        match wc.opcode {
          case RecvRdmaWithImm =>
            if !wc.withImm {
              return false, 0, 0, 0;
            }
            numRecvs := numRecvs + 1;
          case Recv =>
            if !wc.withImm {
              return false, 0, 0, 0;
            }
            numRecvs := numRecvs + 1;
          case RdmaWrite =>
            numWrites := numWrites + 1;
          case Send =>
            numAcks := numAcks + 1;
          case UnknownOpcode(_) =>
            return false, 0, 0, 0;
        }
        DispatchCompletion(h, wc);
        i := i + 1;
      }
      assert wcs[..i] == wcs;
      accepted := true;
    }

    /**
     * Handles one poll of the completion queue. Each completion fires its
     * handler's callback; then the receive queue is refilled by the number
     * of receives, and write and ack credits come back by the number of write
     * and send completions, failed ones included, releasing queued requests.
     * A failed poll or a rejected completion is fatal.
     */
    method PollOnce(poll: Poll) returns (outcome: PollOutcome)
      requires Valid()
      requires poll.Completions? ==> |poll.wcs| <= numPolled
      modifies this`events, this`recvBatches
      modifies this`numAvailableWrites, this`postedWrites, this`pendingQpWrites
      modifies this`numAvailableAcks, this`postedAcks, this`pendingQpAcks
      ensures Valid()
      ensures outcome == Fatal <==> poll.PollFailed? || !AllAccepted(handlers, poll.wcs)
      ensures outcome == NothingPolled <==> poll == Completions([])
      ensures outcome != Polled ==>
        postedWrites == old(postedWrites) && pendingQpWrites == old(pendingQpWrites)
        && postedAcks == old(postedAcks) && pendingQpAcks == old(pendingQpAcks)
        && numAvailableWrites == old(numAvailableWrites) && numAvailableAcks == old(numAvailableAcks)
        && recvBatches == old(recvBatches)
      ensures outcome == NothingPolled ==> events == old(events)
      ensures outcome == Polled ==>
        events == old(events) + Events(handlers, poll.wcs)
        && recvBatches == old(recvBatches) + Batches(CountRecvs(poll.wcs), numPolled)
        && numAvailableWrites + |postedWrites| == old(numAvailableWrites + |postedWrites|) + CountWrites(poll.wcs)
        && numAvailableAcks + |postedAcks| == old(numAvailableAcks + |postedAcks|) + CountSends(poll.wcs)
      ensures postedWrites + pendingQpWrites == old(postedWrites + pendingQpWrites)
      ensures postedAcks + pendingQpAcks == old(postedAcks + pendingQpAcks)
    {
      if poll.PollFailed? {
        return Fatal;
      }
      var wcs := poll.wcs;
      if |wcs| == 0 {
        return NothingPolled;
      }
      var accepted, numRecvs, numWrites, numAcks := DispatchBatch(wcs);
      if !accepted {
        return Fatal;
      }
      Replenish(numRecvs, numWrites, numAcks);
      return Polled;
    }

    /**
     * After a batch: refills the receive queue by the receives it consumed
     * and returns the write and ack credits of its write and send completions.
     */
    method Replenish(numRecvs: nat, numWrites: nat, numAcks: nat)
      requires numPolled > 0 && numAvailableWrites >= 0 && numAvailableAcks >= 0
      modifies this`recvBatches
      modifies this`numAvailableWrites, this`postedWrites, this`pendingQpWrites
      modifies this`numAvailableAcks, this`postedAcks, this`pendingQpAcks
      ensures WriteCreditsValid() && AckCreditsValid()
      ensures recvBatches == old(recvBatches) + Batches(numRecvs, numPolled)
      ensures numAvailableWrites + |postedWrites| == old(numAvailableWrites + |postedWrites|) + numWrites
      ensures numAvailableAcks + |postedAcks| == old(numAvailableAcks + |postedAcks|) + numAcks
      ensures postedWrites + pendingQpWrites == old(postedWrites + pendingQpWrites)
      ensures postedAcks + pendingQpAcks == old(postedAcks + pendingQpAcks)
    {
      PostRecvRequestsOnSRQ(numRecvs);
      ReplenishWrites(numWrites);
      ReplenishAcks(numAcks);
    }

    /** The reactor may stop once no queue pair is registered. */
    function ReadyToClose(): (r: bool)
      reads this
      ensures r <==> forall qpn :: qpn !in handlers
    {
      |handlers| == 0
    }

    /** Registers a handler for a queue pair; an existing registration is kept. */
    method RegisterQp(qpn: QpNum, handler: HandlerId)
      modifies this`handlers
      ensures qpn in handlers && !ReadyToClose()
      ensures qpn in old(handlers) ==> handlers == old(handlers)
      ensures qpn !in old(handlers) ==> handlers == old(handlers)[qpn := handler]
    {
      if qpn !in handlers {
        handlers := handlers[qpn := handler];
      }
    }

    method UnregisterQp(qpn: QpNum)
      modifies this`handlers
      ensures handlers == old(handlers) - {qpn}
      ensures old(handlers.Keys) <= {qpn} ==> ReadyToClose()
    {
      handlers := handlers - {qpn};
    }

    /** Tells the busy-polling loop to stop, the first time only. */
    method Close()
      requires Valid()
      modifies this`closed, loop
      ensures Valid() && closed && loop.closed
      ensures old(closed) ==> unchanged(loop)
      ensures !old(closed) ==>
        (loop.owner == old(loop.owner) && loop.head == old(loop.head) && loop.ran == old(loop.ran)
         && loop.consuming == old(loop.consuming) && loop.deferredFunctionCount == old(loop.deferredFunctionCount))
    {
      if !closed {
        closed := true;
        loop.StopBusyPolling();
      }
    }

    /**
     * Closes, then, the first time only, joins the loop's thread as written:
     * `thread_.join()` on a thread the constructor never started throws
     * `std::system_error`, which `~Reactor` turns into a terminate. `fatal`
     * says that this happened.
     */
    method JoinAsWritten() returns (fatal: bool)
      requires Valid()
      modifies this`closed, this`joined, this`threadJoins, loop
      ensures closed && joined && loop.closed
      ensures fatal <==> !old(joined) && !threadStarted
      ensures !fatal ==> Valid() && threadJoins == old(threadJoins) + (if old(joined) then 0 else 1)
    {
      Close();
      fatal := false;
      if !joined {
        joined := true;
        if threadStarted {
          threadJoins := threadJoins + 1;
        } else {
          fatal := true;
        }
      }
    }

    /**
     * Closes, then, the first time only, joins the loop's thread if the
     * constructor started one: joining never fails, and the thread is joined
     * exactly once when it exists and never otherwise.
     */
    method Join()
      requires Valid()
      modifies this`closed, this`joined, this`threadJoins, loop
      ensures Valid() && closed && joined && loop.closed
      ensures threadJoins == old(threadJoins) + (if !old(joined) && threadStarted then 1 else 0)
      ensures threadJoins == (if threadStarted then 1 else 0)
    {
      Close();
      if !joined {
        joined := true;
        if threadStarted {
          threadJoins := threadJoins + 1;
        }
      }
    }
  }

  /**
   * A reactor built where libibverbs is missing is not viable, never starts
   * its thread, and joining it as written is fatal.
   */
  method NonViableJoinAsWritten() returns (viable: bool, fatal: bool)
    ensures !viable && fatal
  {
    var r := new Reactor(false, 0, 1, 0, 0, 0, 0);
    viable := r.IsViable();
    fatal := r.JoinAsWritten();
  }
}
