/**
 * What running deferred work means, for the executors of
 * tensorpipe/common/deferred_executor.h.
 *
 * A task is an identifier plus what it does when it runs: in order, it either
 * defers another task to the same executor (`deferToLoop`) or runs one through
 * `runInLoop`, which inside the loop takes the inline fast path. Since a task
 * only names tasks it contains, running always terminates.
 *
 * An executor's observable state is `Exec`: the pending list `head_`, newest
 * first; the trace of task ids run so far; and the wakeup counter that the
 * busy-polling event loop keeps (`counting` says whether the executor has one).
 */
module TaskModel {

  type TaskId = nat

  datatype Action = Defer(task: Task) | RunInLoop(task: Task)

  datatype Task = Task(id: TaskId, body: seq<Action>)

  datatype Exec = Exec(pending: seq<Task>, ran: seq<TaskId>, count: int)

  /** `deferToLoop(u)` from inside the loop: push onto the head and, with a counter, bump it. */
  function Push(s: Exec, u: Task, counting: bool): Exec
  {
    s.(pending := [u] + s.pending, count := if counting then s.count + 1 else s.count)
  }

  /** Running `t` inside the loop: record it, then perform its actions in order. */
  function RunTask(s: Exec, t: Task, counting: bool): Exec
    decreases t, 1, 0
  {
    RunBody(s.(ran := s.ran + [t.id]), t, 0, counting)
  }

  /** Performing the actions `t.body[i..]`, in order. */
  function RunBody(s: Exec, t: Task, i: nat, counting: bool): Exec
    requires i <= |t.body|
    decreases t, 0, |t.body| - i
  {
    if i == |t.body| then s
    else
      match t.body[i]
      case Defer(u) =>
        // the nested loop() returns at once: the running thread owns the loop
        RunBody(Push(s, u, counting), t, i + 1, counting)
      case RunInLoop(u) =>
        // inLoop() holds, so the task runs inline
        RunBody(RunTask(s, u, counting), t, i + 1, counting)
  }

  /** Running the tasks of `ts` one after the other, first to last. */
  function RunSeq(s: Exec, ts: seq<Task>, counting: bool): Exec
    decreases |ts|
  {
    if ts == [] then s else RunSeq(RunTask(s, ts[0], counting), ts[1..], counting)
  }

  function Reverse<T>(xs: seq<T>): (r: seq<T>)
    ensures |r| == |xs|
    ensures forall i :: 0 <= i < |xs| ==> r[i] == xs[|xs| - 1 - i]
  {
    if xs == [] then [] else Reverse(xs[1..]) + [xs[0]]
  }

  /**
   * One pass of `runDeferredFunctions`: claim the whole pending list, leaving
   * it empty, and run the claimed tasks in reverse list order (oldest first).
   */
  function Pass(s: Exec, counting: bool): Exec
  {
    RunSeq(s.(pending := []), Reverse(s.pending), counting)
  }

  /** `loop()` once it owns the executor: pass after pass until nothing is pending. */
  function Drain(s: Exec, counting: bool): Exec
    decreases SeqSize(s.pending)
  {
    if s.pending == [] then s
    else
      PassShrinks(s, counting);
      Drain(Pass(s, counting), counting)
  }

  // ---------------------------------------------------------------------------
  // Sizes: the measure that makes draining terminate.

  function Size(t: Task): nat
    decreases t, 1, 0
  {
    1 + BodySize(t, 0)
  }

  function BodySize(t: Task, i: nat): nat
    requires i <= |t.body|
    decreases t, 0, |t.body| - i
  {
    if i == |t.body| then 0 else Size(t.body[i].task) + BodySize(t, i + 1)
  }

  function SeqSize(ts: seq<Task>): nat
  {
    if ts == [] then 0 else Size(ts[0]) + SeqSize(ts[1..])
  }

  lemma {:induction false} SeqSizeAppend(a: seq<Task>, b: seq<Task>)
    ensures SeqSize(a + b) == SeqSize(a) + SeqSize(b)
  {
    if a != [] {
      assert (a + b)[1..] == a[1..] + b;
      SeqSizeAppend(a[1..], b);
    } else {
      assert a + b == b;
    }
  }

  lemma {:induction false} SeqSizeReverse(a: seq<Task>)
    ensures SeqSize(Reverse(a)) == SeqSize(a)
  {
    if a != [] {
      SeqSizeReverse(a[1..]);
      SeqSizeAppend(Reverse(a[1..]), [a[0]]);
      assert [a[0]][1..] == [];
    }
  }

  /** Running a task adds to the pending list less than the task's own size. */
  lemma {:induction false} RunTaskSize(s: Exec, t: Task, counting: bool)
    ensures SeqSize(RunTask(s, t, counting).pending) < SeqSize(s.pending) + Size(t)
    decreases t, 1, 0
  {
    RunBodySize(s.(ran := s.ran + [t.id]), t, 0, counting);
  }

  lemma {:induction false} RunBodySize(s: Exec, t: Task, i: nat, counting: bool)
    requires i <= |t.body|
    ensures SeqSize(RunBody(s, t, i, counting).pending) <= SeqSize(s.pending) + BodySize(t, i)
    decreases t, 0, |t.body| - i
  {
    if i < |t.body| {
      match t.body[i]
      case Defer(u) =>
        SeqSizeAppend([u], s.pending);
        assert [u][1..] == [];
        RunBodySize(Push(s, u, counting), t, i + 1, counting);
      case RunInLoop(u) =>
        RunTaskSize(s, u, counting);
        RunBodySize(RunTask(s, u, counting), t, i + 1, counting);
    }
  }

  lemma {:induction false} RunSeqSize(s: Exec, ts: seq<Task>, counting: bool)
    ensures SeqSize(RunSeq(s, ts, counting).pending) + |ts| <= SeqSize(s.pending) + SeqSize(ts)
    decreases |ts|
  {
    if ts != [] {
      RunTaskSize(s, ts[0], counting);
      RunSeqSize(RunTask(s, ts[0], counting), ts[1..], counting);
    }
  }

  /** A pass over a non-empty list leaves strictly less work pending. */
  lemma PassShrinks(s: Exec, counting: bool)
    requires s.pending != []
    ensures SeqSize(Pass(s, counting).pending) < SeqSize(s.pending)
  {
    RunSeqSize(s.(pending := []), Reverse(s.pending), counting);
    SeqSizeReverse(s.pending);
  }

  // ---------------------------------------------------------------------------
  // Exactly once: every task that is pending, or becomes pending while
  // draining, is run exactly once.

  /** The ids of a task and of every task it defers or runs, transitively. */
  function Ids(t: Task): multiset<TaskId>
    decreases t, 1, 0
  {
    multiset{t.id} + BodyIds(t, 0)
  }

  function BodyIds(t: Task, i: nat): multiset<TaskId>
    requires i <= |t.body|
    decreases t, 0, |t.body| - i
  {
    if i == |t.body| then multiset{} else Ids(t.body[i].task) + BodyIds(t, i + 1)
  }

  function SeqIds(ts: seq<Task>): multiset<TaskId>
  {
    if ts == [] then multiset{} else Ids(ts[0]) + SeqIds(ts[1..])
  }

  lemma {:induction false} SeqIdsAppend(a: seq<Task>, b: seq<Task>)
    ensures SeqIds(a + b) == SeqIds(a) + SeqIds(b)
  {
    if a != [] {
      assert (a + b)[1..] == a[1..] + b;
      SeqIdsAppend(a[1..], b);
    } else {
      assert a + b == b;
    }
  }

  lemma {:induction false} SeqIdsReverse(a: seq<Task>)
    ensures SeqIds(Reverse(a)) == SeqIds(a)
  {
    if a != [] {
      SeqIdsReverse(a[1..]);
      SeqIdsAppend(Reverse(a[1..]), [a[0]]);
      assert [a[0]][1..] == [];
    }
  }

  /** Work done plus work pending is conserved by running a task. */
  lemma {:induction false} RunTaskConserves(s: Exec, t: Task, counting: bool)
    ensures var r := RunTask(s, t, counting);
      multiset(r.ran) + SeqIds(r.pending) == multiset(s.ran) + SeqIds(s.pending) + Ids(t)
    decreases t, 1, 0
  {
    RunBodyConserves(s.(ran := s.ran + [t.id]), t, 0, counting);
  }

  lemma {:induction false} RunBodyConserves(s: Exec, t: Task, i: nat, counting: bool)
    requires i <= |t.body|
    ensures var r := RunBody(s, t, i, counting);
      multiset(r.ran) + SeqIds(r.pending) == multiset(s.ran) + SeqIds(s.pending) + BodyIds(t, i)
    decreases t, 0, |t.body| - i
  {
    if i < |t.body| {
      match t.body[i]
      case Defer(u) =>
        SeqIdsAppend([u], s.pending);
        assert [u][1..] == [];
        RunBodyConserves(Push(s, u, counting), t, i + 1, counting);
      case RunInLoop(u) =>
        RunTaskConserves(s, u, counting);
        RunBodyConserves(RunTask(s, u, counting), t, i + 1, counting);
    }
  }

  lemma {:induction false} RunSeqConserves(s: Exec, ts: seq<Task>, counting: bool)
    ensures var r := RunSeq(s, ts, counting);
      multiset(r.ran) + SeqIds(r.pending) == multiset(s.ran) + SeqIds(s.pending) + SeqIds(ts)
    decreases |ts|
  {
    if ts != [] {
      RunTaskConserves(s, ts[0], counting);
      RunSeqConserves(RunTask(s, ts[0], counting), ts[1..], counting);
    }
  }

  /** A pass neither loses nor duplicates work: what it runs plus what it leaves pending is what was there. */
  lemma PassConserves(s: Exec, counting: bool)
    ensures var r := Pass(s, counting);
      multiset(r.ran) + SeqIds(r.pending) == multiset(s.ran) + SeqIds(s.pending)
  {
    RunSeqConserves(s.(pending := []), Reverse(s.pending), counting);
    SeqIdsReverse(s.pending);
  }

  /** Draining leaves nothing pending, and every pending task (with all it defers) has run exactly once. */
  lemma {:induction false} DrainRunsEachTaskOnce(s: Exec, counting: bool)
    ensures Drain(s, counting).pending == []
    ensures multiset(Drain(s, counting).ran) == multiset(s.ran) + SeqIds(s.pending)
    ensures !counting ==> Drain(s, counting).count == s.count
    decreases SeqSize(s.pending)
  {
    if s.pending != [] {
      PassShrinks(s, counting);
      PassConserves(s, counting);
      RunSeqCounts(s.(pending := []), Reverse(s.pending), counting);
      DrainRunsEachTaskOnce(Pass(s, counting), counting);
    }
  }

  // ---------------------------------------------------------------------------
  // Order: the trace a pass appends is the traces of the claimed tasks, oldest first.

  /** What running a task appends to the trace: its id, then its inline runInLoop tasks. */
  function Trace(t: Task): (r: seq<TaskId>)
    ensures |r| >= 1 && r[0] == t.id
    decreases t, 1, 0
  {
    [t.id] + BodyTrace(t, 0)
  }

  function BodyTrace(t: Task, i: nat): seq<TaskId>
    requires i <= |t.body|
    decreases t, 0, |t.body| - i
  {
    if i == |t.body| then []
    else if t.body[i].RunInLoop? then Trace(t.body[i].task) + BodyTrace(t, i + 1)
    else BodyTrace(t, i + 1)
  }

  function SeqTrace(ts: seq<Task>): seq<TaskId>
  {
    if ts == [] then [] else Trace(ts[0]) + SeqTrace(ts[1..])
  }

  lemma {:induction false} RunTaskTrace(s: Exec, t: Task, counting: bool)
    ensures RunTask(s, t, counting).ran == s.ran + Trace(t)
    decreases t, 1, 0
  {
    RunBodyTrace(s.(ran := s.ran + [t.id]), t, 0, counting);
  }

  lemma {:induction false} RunBodyTrace(s: Exec, t: Task, i: nat, counting: bool)
    requires i <= |t.body|
    ensures RunBody(s, t, i, counting).ran == s.ran + BodyTrace(t, i)
    decreases t, 0, |t.body| - i
  {
    if i < |t.body| {
      match t.body[i]
      case Defer(u) =>
        RunBodyTrace(Push(s, u, counting), t, i + 1, counting);
      case RunInLoop(u) =>
        RunTaskTrace(s, u, counting);
        RunBodyTrace(RunTask(s, u, counting), t, i + 1, counting);
    }
  }

  lemma {:induction false} RunSeqTrace(s: Exec, ts: seq<Task>, counting: bool)
    ensures RunSeq(s, ts, counting).ran == s.ran + SeqTrace(ts)
    decreases |ts|
  {
    if ts != [] {
      RunTaskTrace(s, ts[0], counting);
      RunSeqTrace(RunTask(s, ts[0], counting), ts[1..], counting);
    }
  }

  /**
   * FIFO within a batch: a pass appends the traces of the claimed tasks in
   * reverse list order, so the oldest-enqueued task (the last of the list)
   * runs first.
   */
  lemma PassRunsOldestFirst(s: Exec, counting: bool)
    requires s.pending != []
    ensures Pass(s, counting).ran == s.ran + SeqTrace(Reverse(s.pending))
    ensures Pass(s, counting).ran[|s.ran|] == s.pending[|s.pending| - 1].id
  {
    RunSeqTrace(s.(pending := []), Reverse(s.pending), counting);
  }

  /** The newest task of a claimed batch runs in that pass too, after all the older ones. */
  lemma PassRunsNewest(s: Exec, counting: bool)
    requires s.pending != []
    ensures s.pending[0].id in multiset(Pass(s, counting).ran) - multiset(s.ran)
  {
    var t, x := s.pending[0], s.pending[1..];
    var e := s.(pending := []);
    assert s.pending == [t] + x;
    RunReversedSplit(e, [t], x, counting);
    var y := RunSeq(e, Reverse(x), counting);
    RunSeqTrace(e, Reverse(x), counting);
    assert Reverse([t]) == [t];
    assert [t][1..] == [];
    RunTaskTrace(y, t, counting);
    var rest := SeqTrace(Reverse(x)) + Trace(t);
    assert Pass(s, counting).ran == s.ran + rest;
    assert rest[|rest| - |Trace(t)|] == t.id;
  }

  // ---------------------------------------------------------------------------
  // Accounting: with a wakeup counter, every deferral bumps it once; without
  // one, the counter is left alone.

  lemma {:induction false} RunTaskCounts(s: Exec, t: Task, counting: bool)
    ensures var r := RunTask(s, t, counting);
      if counting then r.count - s.count == |r.pending| - |s.pending| else r.count == s.count
    decreases t, 1, 0
  {
    RunBodyCounts(s.(ran := s.ran + [t.id]), t, 0, counting);
  }

  lemma {:induction false} RunBodyCounts(s: Exec, t: Task, i: nat, counting: bool)
    requires i <= |t.body|
    ensures var r := RunBody(s, t, i, counting);
      if counting then r.count - s.count == |r.pending| - |s.pending| else r.count == s.count
    decreases t, 0, |t.body| - i
  {
    if i < |t.body| {
      match t.body[i]
      case Defer(u) =>
        RunBodyCounts(Push(s, u, counting), t, i + 1, counting);
      case RunInLoop(u) =>
        RunTaskCounts(s, u, counting);
        RunBodyCounts(RunTask(s, u, counting), t, i + 1, counting);
    }
  }

  lemma {:induction false} RunSeqCounts(s: Exec, ts: seq<Task>, counting: bool)
    ensures var r := RunSeq(s, ts, counting);
      if counting then r.count - s.count == |r.pending| - |s.pending| else r.count == s.count
    decreases |ts|
  {
    if ts != [] {
      RunTaskCounts(s, ts[0], counting);
      RunSeqCounts(RunTask(s, ts[0], counting), ts[1..], counting);
    }
  }

  // ---------------------------------------------------------------------------
  // Splitting: how the chunks of the unrolling compose.

  lemma {:induction false} RunSeqAppend(s: Exec, a: seq<Task>, b: seq<Task>, counting: bool)
    ensures RunSeq(s, a + b, counting) == RunSeq(RunSeq(s, a, counting), b, counting)
    decreases |a|
  {
    if a != [] {
      assert (a + b)[1..] == a[1..] + b;
      RunSeqAppend(RunTask(s, a[0], counting), a[1..], b, counting);
    } else {
      assert a + b == b;
    }
  }

  lemma {:induction false} ReverseAppend<T>(a: seq<T>, b: seq<T>)
    ensures Reverse(a + b) == Reverse(b) + Reverse(a)
    decreases |a|
  {
    if a == [] {
      assert a + b == b;
    } else {
      assert (a + b)[1..] == a[1..] + b;
      ReverseAppend(a[1..], b);
    }
  }

  /** Running `xs[i-1..]` backwards is running `xs[i..]` backwards, then `xs[i-1]`. */
  lemma RunReversedStep(s: Exec, xs: seq<Task>, i: nat, counting: bool)
    requires 0 < i <= |xs|
    ensures RunSeq(s, Reverse(xs[i - 1..]), counting)
         == RunTask(RunSeq(s, Reverse(xs[i..]), counting), xs[i - 1], counting)
  {
    assert xs[i - 1..] == [xs[i - 1]] + xs[i..];
    ReverseAppend([xs[i - 1]], xs[i..]);
    RunSeqAppend(s, Reverse(xs[i..]), [xs[i - 1]], counting);
    assert [xs[i - 1]][1..] == [];
  }

  /** Running `a + b` backwards is running `b` backwards, then `a` backwards. */
  lemma RunReversedSplit(s: Exec, a: seq<Task>, b: seq<Task>, counting: bool)
    ensures RunSeq(s, Reverse(a + b), counting) == RunSeq(RunSeq(s, Reverse(b), counting), Reverse(a), counting)
  {
    ReverseAppend(a, b);
    RunSeqAppend(s, Reverse(b), Reverse(a), counting);
  }
}
