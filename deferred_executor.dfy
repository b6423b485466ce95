/**
 * The deferred executors of tensorpipe/common/deferred_executor.h and the
 * busy-polling loop of tensorpipe/common/busy_polling_loop.h.
 *
 * One class covers both executors: with `hasThread` false it is the
 * on-demand executor, which hijacks the calling thread to drain its queue;
 * with `hasThread` true it is the event-loop executor as specialised by the
 * busy-polling loop, whose own thread drains the queue until it is told to
 * stop, after which deferrals fall back to on-demand draining.
 *
 * Threads are identified by number; the model is sequential, so an atomic
 * compare-and-swap that no other thread can disturb always succeeds.
 */
module DeferredExecutor {
  import opened Common
  import opened TaskModel

  type ThreadId = nat

  /** What the busy-polling loop's hooks report on one pass of its loop. */
  datatype Tick = Tick(readyToClose: bool, pollFound: bool)

  class Executor {
    /** Whether this is an event-loop executor with a thread of its own. */
    const hasThread: bool
    /** The id of that thread. */
    const loopThread: ThreadId

    /** The thread running the loop, if any (`currentLoop_`). */
    var owner: Option<ThreadId>
    /** The pending tasks, newest first (the intrusive list at `head_`). */
    var head: seq<Task>
    /** The ids of the tasks run so far, in the order they started. */
    var ran: seq<TaskId>
    /** `isThreadConsumingDeferredFunctions_` */
    var consuming: bool
    /** `BusyPollingLoop::closed_` */
    var closed: bool
    /** `BusyPollingLoop::deferredFunctionCount_` */
    var deferredFunctionCount: int

    function State(): Exec
      reads this
    {
      Exec(head, ran, deferredFunctionCount)
    }

    /**
     * What holds whenever no task of this executor is running: the on-demand
     * executor is idle with nothing queued; the busy-polling loop's counter
     * matches the queue while its thread consumes it, and once the thread
     * has stopped every deferral drains the queue before returning.
     */
    predicate Valid()
      reads this
    {
      && (!hasThread ==> owner.None? && head == [] && deferredFunctionCount == 0 && consuming && !closed)
      && (hasThread ==> owner.None? || owner == Some(loopThread))
      && (hasThread && consuming ==> deferredFunctionCount == |head|)
      && (hasThread && !consuming ==> owner.None? && head == [])
    }

    predicate InLoop(caller: ThreadId)
      reads this
    {
      owner == Some(caller)
    }

    constructor(hasThread: bool, loopThread: ThreadId)
      ensures this.hasThread == hasThread && this.loopThread == loopThread
      ensures owner.None? && head == [] && ran == []
      ensures consuming && !closed && deferredFunctionCount == 0
      ensures Valid()
    {
      this.hasThread := hasThread;
      this.loopThread := loopThread;
      owner := None;
      head := [];
      ran := [];
      consuming := true;
      closed := false;
      deferredFunctionCount := 0;
    }

    /** Pushes a task onto the head of the pending list. */
    method Enqueue(t: Task)
      modifies this`head
      ensures head == [t] + old(head)
    {
      head := [t] + head;
    }

    method WakeupEventLoopToDeferFunction()
      modifies this`deferredFunctionCount
      ensures deferredFunctionCount == old(deferredFunctionCount) + 1
    {
      deferredFunctionCount := deferredFunctionCount + 1;
    }

    method StopBusyPolling()
      modifies this`closed
      ensures closed
    {
      closed := true;
    }

    /**
     * Runs one task on the thread that owns the loop. Its deferrals are
     * pushed (and counted) and its runInLoop calls run inline, since the
     * running thread is the one in the loop.
     */
    method Run(t: Task)
      requires owner.Some?
      modifies this
      ensures State() == RunTask(old(State()), t, hasThread)
      ensures owner == old(owner) && consuming == old(consuming) && closed == old(closed)
      decreases t, 1, 0
    {
      ghost var s0 := State();
      ran := ran + [t.id];
      var i := 0;
      while i < |t.body|
        invariant 0 <= i <= |t.body|
        invariant RunBody(State(), t, i, hasThread) == RunTask(s0, t, hasThread)
        invariant owner == old(owner) && consuming == old(consuming) && closed == old(closed)
      {
        match t.body[i] {
          case Defer(u) =>
            // deferToLoop: the nested loop() finds the owner slot taken and returns
            Enqueue(u);
            if hasThread {
              WakeupEventLoopToDeferFunction();
            }
          case RunInLoop(u) =>
            assert InLoop(owner.value);
            Run(u);
        }
        i := i + 1;
      }
    }

    /**
     * Runs the claimed list `ptr` (newest first) oldest first, sixteen
     * entries per stack frame, recursing for the rest and switching to a
     * vector once sixteen frames deep. Returns how many tasks it ran.
     */
    method UnrollEventLoopStack(ptr: seq<Task>, depth: nat) returns (n: nat)
      requires ptr != [] && depth <= 16
      requires owner.Some?
      modifies this
      ensures n == |ptr|
      ensures State() == RunSeq(old(State()), Reverse(ptr), hasThread)
      ensures owner == old(owner) && consuming == old(consuming) && closed == old(closed)
      decreases 16 - depth
    {
      var stack, chunk := FillStack(ptr);
      var rest := ptr[chunk..];
      n := chunk;
      ghost var s1 := State();
      if rest != [] {
        var m;
        if depth != 16 {
          m := UnrollEventLoopStack(rest, depth + 1);
        } else {
          m := UnrollEventLoopDynamic(rest);
        }
        n := n + m;
      }
      assert State() == RunSeq(s1, Reverse(rest), hasThread);
      RunStackBackwards(stack, chunk);
      assert ptr == ptr[..chunk] + rest;
      RunReversedSplit(s1, ptr[..chunk], rest, hasThread);
    }

    /**
     * Copies the front of `ptr` into a fresh stack array of 16 entries, as
     * many as fit: all of `ptr` when it is short enough.
     */
    static method FillStack(ptr: seq<Task>) returns (stack: array<Task>, n: nat)
      requires ptr != []
      ensures fresh(stack) && stack.Length == 16
      ensures 1 <= n <= 16 && n <= |ptr| && stack[..n] == ptr[..n]
      ensures n < |ptr| ==> n == 16
    {
      stack := new Task[16](_ => Task(0, []));
      n := 0;
      var rest := ptr;
      stack[n] := rest[0];
      n := n + 1;
      rest := rest[1..];
      while rest != [] && n != stack.Length
        invariant 1 <= n <= 16 && n <= |ptr|
        invariant rest == ptr[n..]
        invariant stack[..n] == ptr[..n]
        modifies stack
        decreases 16 - n
      {
        stack[n] := rest[0];
        n := n + 1;
        rest := rest[1..];
      }
    }

    /** Runs `stack[..count]` from the last entry down to the first. */
    method RunStackBackwards(stack: array<Task>, count: nat)
      requires count <= stack.Length
      requires owner.Some?
      modifies this
      ensures State() == RunSeq(old(State()), Reverse(stack[..count]), hasThread)
      ensures owner == old(owner) && consuming == old(consuming) && closed == old(closed)
    {
      ghost var s0 := State();
      ghost var xs := stack[..count];
      var index := count;
      while index > 0
        invariant 0 <= index <= count && stack[..count] == xs
        invariant State() == RunSeq(s0, Reverse(xs[index..]), hasThread)
        invariant owner == old(owner) && consuming == old(consuming) && closed == old(closed)
      {
        RunReversedStep(s0, xs, index, hasThread);
        index := index - 1;
        Run(stack[index]);
      }
    }

    /** Runs the claimed list `ptr` oldest first, collecting it into a vector. */
    method UnrollEventLoopDynamic(ptr: seq<Task>) returns (n: nat)
      requires ptr != []
      requires owner.Some?
      modifies this
      ensures n == |ptr|
      ensures State() == RunSeq(old(State()), Reverse(ptr), hasThread)
      ensures owner == old(owner) && consuming == old(consuming) && closed == old(closed)
    {
      var vec: seq<Task> := [];
      var rest := ptr;
      vec := vec + [rest[0]];
      rest := rest[1..];
      while rest != []
        invariant 1 <= |vec| <= |ptr|
        invariant vec == ptr[..|vec|] && rest == ptr[|vec|..]
      {
        vec := vec + [rest[0]];
        rest := rest[1..];
      }
      assert vec == ptr;
      ghost var s0 := State();
      var i := |vec|;
      while i > 0
        invariant 0 <= i <= |vec|
        invariant State() == RunSeq(s0, Reverse(ptr[i..]), hasThread)
        invariant owner == old(owner) && consuming == old(consuming) && closed == old(closed)
      {
        RunReversedStep(s0, ptr, i, hasThread);
        i := i - 1;
        Run(vec[i]);
      }
      n := |vec|;
    }

    /**
     * Claims the whole pending list and runs it, oldest first; returns how
     * many tasks it claimed.
     */
    method RunDeferredFunctions() returns (n: nat)
      requires owner.Some?
      modifies this
      ensures n == |old(head)|
      ensures State() == Pass(old(State()), hasThread)
      ensures owner == old(owner) && consuming == old(consuming) && closed == old(closed)
    {
      if head == [] {
        return 0;
      }
      var ptr := head;
      head := [];
      n := UnrollEventLoopStack(ptr, 0);
    }

    /**
     * Takes the owner slot if it is free and drains the queue, releasing the
     * slot after each pass and going round again while tasks remain. If
     * another thread owns the loop, that thread will run the tasks instead.
     */
    method Loop(caller: ThreadId)
      modifies this
      ensures old(owner).Some? ==> State() == old(State())
      ensures old(owner).None? ==> State() == Drain(old(State()), hasThread)
      ensures owner == old(owner) && consuming == old(consuming) && closed == old(closed)
    {
      ghost var s0 := State();
      var again := true;
      while again
        invariant owner == old(owner) && consuming == old(consuming) && closed == old(closed)
        invariant old(owner).Some? ==> again && State() == s0
        invariant again ==> Drain(State(), hasThread) == Drain(s0, hasThread)
        invariant !again ==> State() == Drain(s0, hasThread)
        decreases if again then SeqSize(head) + 1 else 0
      {
        if owner.Some? {
          return;
        }
        owner := Some(caller);
        ghost var before := State();
        if head != [] {
          PassShrinks(before, hasThread);
        }
        var _ := RunDeferredFunctions();
        owner := None;
        again := head != [];
      }
    }

    /**
     * Hands a task to the executor. The on-demand executor drains it on the
     * calling thread; the event-loop executor counts a wakeup and leaves it
     * to its thread, or drains on the caller once that thread has stopped.
     */
    method DeferToLoop(caller: ThreadId, t: Task)
      requires Valid()
      modifies this
      ensures Valid()
      ensures hasThread && consuming ==>
        head == [t] + old(head) && ran == old(ran) && deferredFunctionCount == old(deferredFunctionCount) + 1
      ensures !(hasThread && consuming) ==> head == [] && multiset(ran) == multiset(old(ran)) + Ids(t)
      ensures owner == old(owner) && consuming == old(consuming) && closed == old(closed)
    {
      ghost var s0 := State();
      Enqueue(t);
      if hasThread {
        WakeupEventLoopToDeferFunction();
        if !consuming {
          Loop(caller);
        }
      } else {
        Loop(caller);
      }
      if !(hasThread && consuming) {
        assert [t] + s0.pending == [t];
        DrainRunsEachTaskOnce(Push(s0, t, hasThread), hasThread);
        assert SeqIds([t]) == Ids(t) by {
          assert [t][1..] == [];
        }
      }
    }

    /**
     * Runs a task and waits for it: inline when the caller is the thread in
     * the loop, otherwise by deferring it. When the loop thread consumes the
     * queue and is in its loop, the caller's wait ends after that thread's
     * next pass, which runs the task; before the thread has started, the task
     * stays queued for it.
     */
    method RunInLoop(caller: ThreadId, t: Task)
      requires Valid()
      modifies this
      ensures Valid()
      ensures old(InLoop(caller)) ==> ran == old(ran) + Trace(t) && State() == RunTask(old(State()), t, hasThread)
      ensures !old(InLoop(caller)) && !(hasThread && consuming) ==>
        head == [] && multiset(ran) == multiset(old(ran)) + Ids(t)
      ensures !old(InLoop(caller)) && hasThread && consuming && old(owner).Some? ==>
        ran == Pass(Push(old(State()), t, true), true).ran && head == Pass(Push(old(State()), t, true), true).pending
      ensures !old(InLoop(caller)) && hasThread && consuming && old(owner).None? ==>
        State() == Push(old(State()), t, true)
      ensures old(owner).Some? || !(hasThread && consuming) ==> t.id in multiset(ran) - multiset(old(ran))
      ensures multiset(ran) + SeqIds(head) == multiset(old(ran)) + SeqIds(old(head)) + Ids(t)
      ensures owner == old(owner) && consuming == old(consuming) && closed == old(closed)
    {
      ghost var s0 := State();
      if InLoop(caller) {
        Run(t);
        RunTaskTrace(s0, t, hasThread);
        RunTaskCounts(s0, t, hasThread);
        RunTaskConserves(s0, t, hasThread);
        assert multiset(ran) == multiset(old(ran)) + multiset(Trace(t));
      } else {
        DeferToLoop(caller, t);
        if hasThread && consuming {
          ghost var s1 := State();
          assert s1 == Push(s0, t, true);
          SeqIdsAppend([t], s0.pending);
          assert [t][1..] == [];
          if owner.Some? {
            PassRunsNewest(s1, true);
            PollIteration(false);
          }
        }
      }
    }

    /**
     * One pass of the busy-polling event loop after it was not told to stop:
     * if polling found nothing, run the deferred tasks if any were counted.
     */
    method PollIteration(pollFound: bool)
      requires Valid() && hasThread && consuming && owner == Some(loopThread)
      modifies this
      ensures Valid()
      ensures pollFound || old(head) == [] ==> State() == old(State())
      ensures !pollFound ==> ran == Pass(old(State()), true).ran && head == Pass(old(State()), true).pending
      ensures multiset(ran) + SeqIds(head) == multiset(old(ran)) + SeqIds(old(head))
      ensures owner == old(owner) && consuming == old(consuming) && closed == old(closed)
    {
      ghost var s0 := State();
      PassConserves(s0, true);
      if pollFound {
      } else if deferredFunctionCount > 0 {
        var n := RunDeferredFunctions();
        RunSeqCounts(s0.(pending := []), Reverse(s0.pending), true);
        deferredFunctionCount := deferredFunctionCount - n;
      }
    }

    /**
     * The busy-polling event loop over the hooks' reports `ticks`: it keeps
     * going until it has been stopped and the owner is ready to close.
     * `exited` says whether it returned within the reports given.
     */
    method EventLoop(ticks: seq<Tick>) returns (exited: bool, passes: nat)
      requires Valid() && hasThread && consuming && owner == Some(loopThread)
      modifies this
      ensures Valid()
      ensures passes <= |ticks|
      ensures exited <==> passes < |ticks|
      ensures exited ==> closed && ticks[passes].readyToClose
      ensures forall j :: 0 <= j < passes ==> !closed || !ticks[j].readyToClose
      ensures multiset(ran) + SeqIds(head) == multiset(old(ran)) + SeqIds(old(head))
      ensures owner == old(owner) && consuming == old(consuming) && closed == old(closed)
    {
      passes := 0;
      while passes < |ticks| && (!closed || !ticks[passes].readyToClose)
        invariant Valid() && passes <= |ticks|
        invariant forall j :: 0 <= j < passes ==> !closed || !ticks[j].readyToClose
        invariant multiset(ran) + SeqIds(head) == multiset(old(ran)) + SeqIds(old(head))
        invariant owner == old(owner) && consuming == old(consuming) && closed == old(closed)
      {
        PollIteration(ticks[passes].pollFound);
        passes := passes + 1;
      }
      exited := passes < |ticks|;
    }

    /** The loop thread's start: it takes the owner slot before its event loop. */
    method ThreadStart()
      requires Valid() && hasThread && consuming && owner.None?
      modifies this`owner
      ensures Valid() && owner == Some(loopThread)
    {
      owner := Some(loopThread);
    }

    /**
     * The loop thread's end, once its event loop has returned: it releases
     * the owner slot, stops consuming and drains what is left on-demand.
     */
    method ThreadExit()
      requires Valid() && hasThread && consuming && owner == Some(loopThread)
      modifies this
      ensures Valid() && owner.None? && !consuming
      ensures head == [] && multiset(ran) == multiset(old(ran)) + SeqIds(old(head))
      ensures closed == old(closed)
    {
      ghost var s0 := State();
      owner := None;
      consuming := false;
      Loop(loopThread);
      DrainRunsEachTaskOnce(s0, true);
    }
  }
}
