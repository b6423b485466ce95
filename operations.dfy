/**
 * What the connections of tensorpipe/transport/shm/connection.cc and
 * tensorpipe/transport/uv/connection.cc share: their errors, their queued
 * read and write operations, and the record of the callbacks they fire.
 *
 * The bytes an operation moves are opaque progress: an operation only knows
 * how many bytes it still needs before it is complete.
 */
module Operations {

  datatype Error =
    | NoError
    | SystemError(syscall: string, code: int)
    | UVError(code: int)
    | EOFError
    | ConnectionClosedError
    | GetaddrinfoError(code: int)
    | NoAddrFoundError

  /** A queued read or write: its sequence number and the bytes it still needs. */
  datatype Op = Op(seqNum: nat, remaining: nat)

  /** A fired callback: the sequence number of its request and the error it reported. */
  datatype Callback = Callback(seqNum: nat, error: Error)

  /** The queued operations carry the sequence numbers `first`, `first + 1`, ... in order. */
  predicate Consecutive(ops: seq<Op>, first: nat)
  {
    forall i :: 0 <= i < |ops| ==> ops[i].seqNum == first + i
  }

  /** The bytes all of `ops` still need. */
  function Pending(ops: seq<Op>): nat
  {
    if ops == [] then 0 else ops[0].remaining + Pending(ops[1..])
  }

  /** The callbacks of `ops`, in queue order, all reporting `err`. */
  function Fire(ops: seq<Op>, err: Error): (r: seq<Callback>)
    ensures |r| == |ops|
    ensures forall i :: 0 <= i < |ops| ==> r[i] == Callback(ops[i].seqNum, err)
  {
    if ops == [] then [] else [Callback(ops[0].seqNum, err)] + Fire(ops[1..], err)
  }

  /** The callbacks in `cbs` carry the sequence numbers `first`, `first + 1`, ... in order. */
  predicate InOrder(cbs: seq<Callback>, first: nat)
  {
    forall i :: 0 <= i < |cbs| ==> cbs[i].seqNum == first + i
  }

  lemma {:induction false} FirePrefix(ops: seq<Op>, k: nat, err: Error)
    requires k < |ops|
    ensures Fire(ops[..k + 1], err) == Fire(ops[..k], err) + [Callback(ops[k].seqNum, err)]
  {
    assert ops[..k + 1] == ops[..k] + [ops[k]];
    var a, b := Fire(ops[..k + 1], err), Fire(ops[..k], err) + [Callback(ops[k].seqNum, err)];
    assert |a| == |b|;
    assert forall i :: 0 <= i < |a| ==> a[i] == b[i];
  }

  /** Firing one more operation after those before it, behind earlier callbacks `cbs`. */
  lemma FireStep(cbs: seq<Callback>, ops: seq<Op>, k: nat, err: Error)
    requires k < |ops|
    ensures cbs + Fire(ops[..k], err) + [Callback(ops[k].seqNum, err)] == cbs + Fire(ops[..k + 1], err)
  {
    FirePrefix(ops, k, err);
  }

  /** Firing the callbacks of consecutive operations keeps the callbacks in sequence order. */
  lemma FireKeepsOrder(cbs: seq<Callback>, ops: seq<Op>, first: nat, err: Error)
    requires InOrder(cbs, first) && Consecutive(ops, first + |cbs|)
    ensures InOrder(cbs + Fire(ops, err), first)
  {
  }

  lemma {:induction false} PendingAppend(a: seq<Op>, b: seq<Op>)
    ensures Pending(a + b) == Pending(a) + Pending(b)
  {
    if a == [] {
      assert a + b == b;
    } else {
      assert (a + b)[1..] == a[1..] + b;
      PendingAppend(a[1..], b);
    }
  }
}
