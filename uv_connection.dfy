/**
 * The connection of tensorpipe/transport/uv/connection.cc: a TCP stream driven
 * by libuv. Reads are queued and fed, front first, from libuv's read
 * callbacks; each write is handed to libuv at once and completes when libuv
 * calls its write callback, in submission order.
 *
 * libuv itself is outside the model: its callbacks are the methods
 * `ReadCallback`, `WriteCallback`, `ConnectCallback` and `CloseCallback`,
 * taking libuv's status values as inputs, and the handle's state is the
 * flags `reading` (between `readStart` and `readStop`) and `closing`.
 */
module UvConnection {
  import opened Common
  import opened Operations

  class Connection {
    var error: Error
    /** The self-reference taken in `initFromLoop` that keeps the connection alive until its handle closes. */
    var leaked: bool
    /** Whether the handle has been asked to deliver reads, and whether it is being closed. */
    var reading: bool
    var closing: bool

    var readOps: seq<Op>
    /** Writes whose libuv requests are in flight, oldest first. */
    var writeOps: seq<Op>
    /**
     * Writes that arrived after an error while earlier writes were still in
     * flight: they are failed as soon as those earlier writes complete.
     */
    var lateWrites: seq<Op>

    var nextBufferBeingRead: nat
    var nextBufferBeingWritten: nat
    var nextReadCallbackToCall: nat
    var nextWriteCallbackToCall: nat
    /** The callbacks fired so far, in order. */
    var readCallbacks: seq<Callback>
    var writeCallbacks: seq<Callback>

    /**
     * Queued reads carry consecutive sequence numbers starting with the next
     * callback to call, and the callbacks fired so far are in sequence order.
     */
    predicate ReadsValid()
      reads this`readOps, this`nextBufferBeingRead, this`nextReadCallbackToCall, this`readCallbacks
    {
      && Consecutive(readOps, nextReadCallbackToCall)
      && nextBufferBeingRead == nextReadCallbackToCall + |readOps|
      && |readCallbacks| == nextReadCallbackToCall && InOrder(readCallbacks, 0)
    }

    /** The same for writes, the late ones queued behind those in flight. */
    predicate WritesValid()
      reads this`writeOps, this`lateWrites, this`nextBufferBeingWritten, this`nextWriteCallbackToCall, this`writeCallbacks
    {
      && Consecutive(writeOps + lateWrites, nextWriteCallbackToCall)
      && nextBufferBeingWritten == nextWriteCallbackToCall + |writeOps| + |lateWrites|
      && |writeCallbacks| == nextWriteCallbackToCall && InOrder(writeCallbacks, 0)
      && (writeOps == [] ==> lateWrites == [])
    }

    /**
     * Without an error the handle reads exactly while reads are queued; an
     * error has failed every read and started closing the handle.
     */
    predicate Valid()
      reads this
    {
      && ReadsValid() && WritesValid()
      && (error == NoError ==> !closing && (reading <==> readOps != []) && lateWrites == [])
      && (error != NoError ==> closing && readOps == [])
    }

    /** A connection with nothing queued and nothing fired. */
    constructor()
      ensures Valid() && error == NoError && !leaked && !reading
      ensures readOps == [] && writeOps == [] && readCallbacks == [] && writeCallbacks == []
    {
      error := NoError;
      leaked := false;
      reading := false;
      closing := false;
      readOps := [];
      writeOps := [];
      lateWrites := [];
      nextBufferBeingRead := 0;
      nextBufferBeingWritten := 0;
      nextReadCallbackToCall := 0;
      nextWriteCallbackToCall := 0;
      readCallbacks := [];
      writeCallbacks := [];
    }

    /** Calls a read callback; it must be the next one in sequence. */
    method FireRead(seqNum: nat, err: Error)
      requires seqNum == nextReadCallbackToCall
      modifies this`readCallbacks, this`nextReadCallbackToCall
      ensures readCallbacks == old(readCallbacks) + [Callback(seqNum, err)]
      ensures nextReadCallbackToCall == old(nextReadCallbackToCall) + 1
    {
      nextReadCallbackToCall := nextReadCallbackToCall + 1;
      readCallbacks := readCallbacks + [Callback(seqNum, err)];
    }

    /** Calls a write callback; it must be the next one in sequence. */
    method FireWrite(seqNum: nat, err: Error)
      requires seqNum == nextWriteCallbackToCall
      modifies this`writeCallbacks, this`nextWriteCallbackToCall
      ensures writeCallbacks == old(writeCallbacks) + [Callback(seqNum, err)]
      ensures nextWriteCallbackToCall == old(nextWriteCallbackToCall) + 1
    {
      nextWriteCallbackToCall := nextWriteCallbackToCall + 1;
      writeCallbacks := writeCallbacks + [Callback(seqNum, err)];
    }

    /** Takes the self-reference that lives until the handle has closed. */
    method InitFromLoop()
      requires Valid()
      modifies this`leaked
      ensures Valid() && leaked
    {
      leaked := true;
    }

    /** libuv's verdict on an outgoing connection: a negative status is an error. */
    method ConnectCallback(status: int)
      requires Valid()
      modifies this
      ensures Valid()
      ensures status < 0 && old(error) == NoError ==>
        error == UVError(status) && readOps == [] && closing
        && readCallbacks == old(readCallbacks) + Fire(old(readOps), UVError(status))
      ensures status >= 0 || old(error) != NoError ==>
        error == old(error) && readOps == old(readOps) && readCallbacks == old(readCallbacks)
      ensures writeOps == old(writeOps) && writeCallbacks == old(writeCallbacks) && leaked == old(leaked)
    {
      if status < 0 {
        SetError(UVError(status));
      }
    }

    /**
     * Queues a read of `need` bytes, asking the handle to start reading if
     * it is the only one; after an error it fails at once instead.
     */
    method ReadFromLoop(need: nat)
      requires Valid()
      modifies this`readOps, this`reading, this`readCallbacks, this`nextReadCallbackToCall, this`nextBufferBeingRead
      ensures Valid()
      ensures nextBufferBeingRead == old(nextBufferBeingRead) + 1
      ensures old(error) != NoError ==>
        readCallbacks == old(readCallbacks) + [Callback(old(nextBufferBeingRead), error)]
        && readOps == [] && reading == old(reading)
      ensures old(error) == NoError ==>
        readOps == old(readOps) + [Op(old(nextBufferBeingRead), need)]
        && readCallbacks == old(readCallbacks) && reading
        && (old(reading) <==> old(readOps) != [])
    {
      var sequenceNumber := nextBufferBeingRead;
      nextBufferBeingRead := nextBufferBeingRead + 1;
      if error != NoError {
        FireRead(sequenceNumber, error);
        return;
      }
      readOps := readOps + [Op(sequenceNumber, need)];
      if |readOps| == 1 {
        reading := true;
      }
    }

    /**
     * Hands a write to libuv and queues it until libuv completes it. After
     * an error it is failed at once when nothing is in flight, and otherwise
     * queued to be failed right after the writes in flight.
     */
    method WriteFromLoop(need: nat)
      requires Valid()
      modifies this`writeOps, this`lateWrites, this`writeCallbacks, this`nextWriteCallbackToCall, this`nextBufferBeingWritten
      ensures Valid()
      ensures nextBufferBeingWritten == old(nextBufferBeingWritten) + 1
      ensures old(error) == NoError ==>
        writeOps == old(writeOps) + [Op(old(nextBufferBeingWritten), need)]
        && lateWrites == old(lateWrites) && writeCallbacks == old(writeCallbacks)
      ensures old(error) != NoError && old(writeOps) == [] ==>
        writeCallbacks == old(writeCallbacks) + [Callback(old(nextBufferBeingWritten), error)]
        && writeOps == [] && lateWrites == []
      ensures old(error) != NoError && old(writeOps) != [] ==>
        lateWrites == old(lateWrites) + [Op(old(nextBufferBeingWritten), need)]
        && writeOps == old(writeOps) && writeCallbacks == old(writeCallbacks)
    {
      var sequenceNumber := nextBufferBeingWritten;
      nextBufferBeingWritten := nextBufferBeingWritten + 1;
      if error != NoError {
        if writeOps == [] {
          FireWrite(sequenceNumber, error);
        } else {
          lateWrites := lateWrites + [Op(sequenceNumber, need)];
          assert writeOps + lateWrites == old(writeOps + lateWrites) + [Op(sequenceNumber, need)];
        }
        return;
      }
      writeOps := writeOps + [Op(sequenceNumber, need)];
      assert writeOps + lateWrites == old(writeOps + lateWrites) + [Op(sequenceNumber, need)];
    }

    /**
     * The write of tensorpipe/transport/uv/connection.cc as written: after
     * an error it fires the new write's callback at once, even while earlier
     * writes are still in flight, so callbacks leave sequence order.
     */
    method WriteFromLoopAsWritten(need: nat)
      requires Valid()
      modifies this`writeOps, this`writeCallbacks, this`nextWriteCallbackToCall, this`nextBufferBeingWritten
      ensures old(error) != NoError && old(writeOps) != [] ==> !InOrder(writeCallbacks, 0)
    {
      var sequenceNumber := nextBufferBeingWritten;
      nextBufferBeingWritten := nextBufferBeingWritten + 1;
      if error != NoError {
        nextWriteCallbackToCall := nextWriteCallbackToCall + 1;
        writeCallbacks := writeCallbacks + [Callback(sequenceNumber, error)];
        assert writeCallbacks[|writeCallbacks| - 1].seqNum == sequenceNumber;
        return;
      }
      writeOps := writeOps + [Op(sequenceNumber, need)];
    }

    /**
     * libuv read `nread` bytes into the front read, or failed with a
     * negative `nread`. The front read is completed and popped once it has
     * all its bytes, and reading stops when no read is left. Data with no
     * read queued is fatal.
     */
    method ReadCallback(nread: int) returns (fatal: bool)
      requires Valid()
      modifies this
      ensures Valid()
      ensures fatal <==> nread >= 0 && old(readOps) == []
      ensures writeOps == old(writeOps) && writeCallbacks == old(writeCallbacks)
      ensures nread < 0 && old(error) == NoError ==>
        error == UVError(nread) && readOps == [] && closing
        && readCallbacks == old(readCallbacks) + Fire(old(readOps), UVError(nread))
      ensures nread < 0 && old(error) != NoError ==>
        error == old(error) && readOps == old(readOps) && readCallbacks == old(readCallbacks)
      ensures nread >= 0 && old(readOps) != [] ==>
        var op := old(readOps[0]);
        var left := op.remaining - Min(nread, op.remaining);
        && error == old(error)
        && (left == 0 ==>
              readOps == old(readOps[1..]) && readCallbacks == old(readCallbacks) + [Callback(op.seqNum, NoError)])
        && (left > 0 ==>
              readOps == [op.(remaining := left)] + old(readOps[1..]) && readCallbacks == old(readCallbacks))
        && (reading <==> readOps != [])
    {
      if nread < 0 {
        SetError(UVError(nread));
        return false;
      }
      if readOps == [] {
        return true;
      }
      var op := readOps[0];
      op := op.(remaining := op.remaining - Min(nread, op.remaining));
      if op.remaining == 0 {
        FireRead(op.seqNum, NoError);
        readOps := readOps[1..];
        if readOps == [] {
          reading := false;
        }
      } else {
        readOps := [op] + readOps[1..];
      }
      return false;
    }

    /**
     * libuv completed the front write with `status`. A negative status is
     * recorded as the error first; either way the front write is popped and
     * called back with the connection's error as it now stands. A
     * completion with no write in flight is fatal.
     */
    method WriteCallback(status: int) returns (fatal: bool)
      requires Valid()
      modifies this
      ensures Valid()
      ensures fatal <==> old(writeOps) == []
      ensures status < 0 && old(error) == NoError ==>
        error == UVError(status) && readOps == [] && closing
        && readCallbacks == old(readCallbacks) + Fire(old(readOps), UVError(status))
      ensures status >= 0 || old(error) != NoError ==>
        error == old(error) && readOps == old(readOps) && readCallbacks == old(readCallbacks)
      ensures !fatal ==>
        && writeOps == old(writeOps[1..])
        && (writeOps != [] ==>
              lateWrites == old(lateWrites)
              && writeCallbacks == old(writeCallbacks) + [Callback(old(writeOps[0]).seqNum, error)])
        && (writeOps == [] ==>
              lateWrites == []
              && writeCallbacks == old(writeCallbacks) + Fire([old(writeOps[0])] + old(lateWrites), error))
      ensures fatal ==> writeOps == old(writeOps) && writeCallbacks == old(writeCallbacks)
    {
      if status < 0 {
        SetError(UVError(status));
      }
      if writeOps == [] {
        return true;
      }
      CompleteFrontWrite();
      return false;
    }

    /**
     * Pops the front write and calls it back with the connection's error;
     * once nothing is left in flight, the late writes are failed too.
     */
    method CompleteFrontWrite()
      requires WritesValid() && writeOps != []
      modifies this`writeOps, this`lateWrites, this`writeCallbacks, this`nextWriteCallbackToCall
      ensures WritesValid()
      ensures writeOps == old(writeOps[1..])
      ensures writeOps != [] ==>
        lateWrites == old(lateWrites) && writeCallbacks == old(writeCallbacks) + [Callback(old(writeOps[0]).seqNum, error)]
      ensures writeOps == [] ==>
        lateWrites == [] && writeCallbacks == old(writeCallbacks) + Fire([old(writeOps[0])] + old(lateWrites), error)
    {
      var op := PopFrontWrite();
      if writeOps == [] {
        ghost var late := lateWrites;
        ghost var fired := writeCallbacks;
        assert writeOps + late == late;
        FailLateWrites();
        FireKeepsOrder(fired, late, 0, error);
        FireCons(old(writeCallbacks), op, late, error);
      }
    }

    /** Pops the front write and calls it back with the connection's error. */
    method PopFrontWrite() returns (op: Op)
      requires WritesValid() && writeOps != []
      modifies this`writeOps, this`writeCallbacks, this`nextWriteCallbackToCall
      ensures op == old(writeOps[0]) && writeOps == old(writeOps[1..])
      ensures writeCallbacks == old(writeCallbacks) + [Callback(op.seqNum, error)]
      ensures Consecutive(writeOps + lateWrites, nextWriteCallbackToCall)
      ensures nextBufferBeingWritten == nextWriteCallbackToCall + |writeOps| + |lateWrites|
      ensures |writeCallbacks| == nextWriteCallbackToCall && InOrder(writeCallbacks, 0)
    {
      op := writeOps[0];
      PopConsecutive(writeOps, lateWrites, nextWriteCallbackToCall);
      FireKeepsOrder(writeCallbacks, [op], 0, error);
      FireWrite(op.seqNum, error);
      writeOps := writeOps[1..];
    }

    /** Fails the writes that were queued behind those in flight. */
    method FailLateWrites()
      requires Consecutive(lateWrites, nextWriteCallbackToCall)
      modifies this`lateWrites, this`writeCallbacks, this`nextWriteCallbackToCall
      ensures lateWrites == []
      ensures writeCallbacks == old(writeCallbacks) + Fire(old(lateWrites), error)
      ensures nextWriteCallbackToCall == old(nextWriteCallbackToCall) + |old(lateWrites)|
    {
      var i := 0;
      while i < |lateWrites|
        invariant 0 <= i <= |lateWrites| && nextWriteCallbackToCall == old(nextWriteCallbackToCall) + i
        invariant lateWrites == old(lateWrites)
        invariant writeCallbacks == old(writeCallbacks) + Fire(lateWrites[..i], error)
        modifies this`writeCallbacks, this`nextWriteCallbackToCall
      {
        FirePrefix(lateWrites, i, error);
        FireWrite(lateWrites[i].seqNum, error);
        i := i + 1;
      }
      assert lateWrites[..i] == lateWrites;
      lateWrites := [];
    }

    /** The handle has closed: no write may still be pending, and the self-reference is dropped. */
    method CloseCallback()
      requires Valid() && writeOps == []
      modifies this`leaked
      ensures Valid() && !leaked
    {
      leaked := false;
    }

    /** Closing is failing with ConnectionClosedError: a no-op once any error is set. */
    method CloseFromLoop()
      requires Valid()
      modifies this
      ensures Valid()
      ensures old(error) != NoError ==> error == old(error) && readCallbacks == old(readCallbacks)
      ensures old(error) == NoError ==>
        error == ConnectionClosedError && readOps == [] && closing
        && readCallbacks == old(readCallbacks) + Fire(old(readOps), ConnectionClosedError)
      ensures writeOps == old(writeOps) && writeCallbacks == old(writeCallbacks)
    {
      SetError(ConnectionClosedError);
    }

    /** Records the first error and handles it; later errors and successes are ignored. */
    method SetError(e: Error)
      requires Valid()
      modifies this
      ensures Valid()
      ensures old(error) != NoError || e == NoError ==>
        error == old(error) && readOps == old(readOps) && readCallbacks == old(readCallbacks)
        && closing == old(closing)
      ensures old(error) == NoError && e != NoError ==>
        error == e && readOps == [] && closing
        && readCallbacks == old(readCallbacks) + Fire(old(readOps), e)
      ensures writeOps == old(writeOps) && lateWrites == old(lateWrites) && writeCallbacks == old(writeCallbacks)
      ensures nextWriteCallbackToCall == old(nextWriteCallbackToCall) && nextBufferBeingWritten == old(nextBufferBeingWritten)
      ensures leaked == old(leaked) && reading == old(reading)
    {
      if error != NoError || e == NoError {
        return;
      }
      error := e;
      HandleError();
    }

    /**
     * Fails every queued read with the error and starts closing the handle.
     * Writes stay queued: libuv still owns their buffers until it calls
     * their write callbacks.
     */
    method HandleError()
      requires ReadsValid() && error != NoError
      modifies this`readOps, this`readCallbacks, this`nextReadCallbackToCall, this`closing
      ensures ReadsValid() && readOps == [] && closing
      ensures readCallbacks == old(readCallbacks) + Fire(old(readOps), error)
    {
      var i := 0;
      while i < |readOps|
        invariant 0 <= i <= |readOps| && nextReadCallbackToCall == old(nextReadCallbackToCall) + i
        invariant readOps == old(readOps)
        invariant readCallbacks == old(readCallbacks) + Fire(readOps[..i], error)
        modifies this`readCallbacks, this`nextReadCallbackToCall
      {
        FirePrefix(readOps, i, error);
        FireRead(readOps[i].seqNum, error);
        i := i + 1;
      }
      assert readOps[..i] == readOps;
      readOps := [];
      FireKeepsOrder(old(readCallbacks), old(readOps), 0, error);
      closing := true;
    }
  }

  /** Popping the front of the writes in flight leaves the rest, late ones included, consecutive from the next number. */
  lemma PopConsecutive(ops: seq<Op>, late: seq<Op>, first: nat)
    requires ops != [] && Consecutive(ops + late, first)
    ensures ops[0].seqNum == first && Consecutive(ops[1..] + late, first + 1)
    ensures ops + late == [ops[0]] + (ops[1..] + late)
  {
    assert (ops + late)[0] == ops[0];
    assert (ops + late)[1..] == ops[1..] + late;
  }

  /** Firing `op` and then `ops` after `cbs` is firing `[op] + ops` after `cbs`. */
  lemma FireCons(cbs: seq<Callback>, op: Op, ops: seq<Op>, err: Error)
    ensures cbs + [Callback(op.seqNum, err)] + Fire(ops, err) == cbs + Fire([op] + ops, err)
  {
    assert ([op] + ops)[1..] == ops;
    assert [Callback(op.seqNum, err)] + Fire(ops, err) == Fire([op] + ops, err);
  }
}
