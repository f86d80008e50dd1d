/**
  The `CleanupHTTP` object of cleanuphttp.go: two routine stacks, the `closing` gate
  (moved from 0 to 1 by compare-and-swap) and the `interrupted` flag, updated in place
  by the public push and pop operations, by handleSignal, by the serving goroutine and
  by Serve. Each method is proved against the step functions of CleanupModel.

  Two ghost fields record what the source does not keep: `quitCloses` counts the
  `close(quit)` calls, and `trace` lists routine invocations and the Shutdown call.
*/
module CleanupHttp {
  import opened Wrappers
  import opened RoutineStacks
  import opened CleanupModel

  class CleanupHTTP<A> {
    const preRoutines: RoutineStack<CleanupRoutine<A>>
    const postRoutines: RoutineStack<CleanupRoutine<A>>
    var closing: int
    var interrupted: bool
    ghost var quitCloses: nat
    ghost var trace: seq<Event<A>>

    ghost function Abstract(): State<A>
      reads this, preRoutines, postRoutines
    {
      State(preRoutines.routines, postRoutines.routines, closing, interrupted)
    }

    /** The two stacks are distinct, `closing` is 0 or 1, and `quit` has been closed exactly when `closing` is 1. */
    ghost predicate WellFormed()
      reads this
    {
      preRoutines != postRoutines && (closing == 0 || closing == 1) && quitCloses == closing
    }

    ghost predicate Valid()
      reads this, preRoutines, postRoutines
    {
      WellFormed() && Reachable(Abstract())
    }

    /** The zero value of the struct. */
    constructor ()
      ensures Valid() && fresh(preRoutines) && fresh(postRoutines)
      ensures Abstract() == State([], [], 0, false) && trace == []
    {
      preRoutines := new RoutineStack();
      postRoutines := new RoutineStack();
      closing, interrupted := 0, false;
      quitCloses, trace := 0, [];
    }

    /** `isClosed`. */
    predicate IsClosed()
      reads this
      ensures WellFormed() ==> (IsClosed() <==> quitCloses == 1)
    {
      closing != 0
    }

    /**
      The compare-and-swap of `closing` from 0 to 1, followed by `close(quit)` for the
      caller that wins. Afterwards the gate is closed whoever won.
    */
    method Trigger() returns (won: bool)
      requires WellFormed()
      modifies this`closing, this`quitCloses
      ensures Valid() && closing == 1
      ensures (Abstract(), won) == Cas(old(Abstract()))
      ensures won <==> old(closing) == 0
      ensures quitCloses == old(quitCloses) + (if won then 1 else 0)
    {
      won := closing == 0;
      if won {
        closing := 1;
        quitCloses := quitCloses + 1;
      }
    }

    /** The serving goroutine after ListenAndServe returns: its error is only logged, then it tries the gate. */
    method OnServerExit() returns (won: bool)
      requires Valid()
      modifies this`closing, this`quitCloses
      ensures Valid()
      ensures (Abstract(), won) == ServerExited(old(Abstract()))
      ensures quitCloses == old(quitCloses) + (if won then 1 else 0)
    {
      won := Trigger();
    }

    /** One iteration of handleSignal's loop: only the first signal counts, and only while the gate is open. */
    method OnSignal() returns (won: bool)
      requires Valid()
      modifies this`interrupted, this`closing, this`quitCloses
      ensures Valid()
      ensures (Abstract(), won) == Signaled(old(Abstract()))
      ensures quitCloses == old(quitCloses) + (if won then 1 else 0)
    {
      won := false;
      if interrupted {
        return;
      }
      interrupted := true;
      if IsClosed() {
        return;
      }
      won := Trigger();
    }

    /** `cleanupPush`: refused once the gate is closed, otherwise a push onto `stack`. */
    method CleanupPush(stack: RoutineStack<CleanupRoutine<A>>, routine: Routine<A>, arg: A)
      requires stack == preRoutines || stack == postRoutines
      modifies stack
      ensures stack.routines ==
        if IsClosed() then old(stack.routines) else old(stack.routines) + [CleanupRoutine(routine, arg)]
    {
      if IsClosed() {
        return;
      }
      stack.Push(CleanupRoutine(routine, arg));
    }

    /** `cleanupPop`: refused (`None`) once the gate is closed, otherwise a pop from `stack`. */
    method CleanupPop(stack: RoutineStack<CleanupRoutine<A>>) returns (popped: Option<CleanupRoutine<A>>)
      requires stack == preRoutines || stack == postRoutines
      modifies stack
      ensures IsClosed() ==> popped.None? && stack.routines == old(stack.routines)
      ensures !IsClosed() ==> (popped, stack.routines) == Popped(old(stack.routines))
    {
      if IsClosed() {
        return None;
      }
      popped := stack.Pop();
    }

    method PreCleanupPush(routine: Routine<A>, arg: A)
      requires Valid()
      modifies preRoutines
      ensures Valid()
      ensures Abstract() == Call(old(Abstract()), PrePush(routine, arg)).0
    {
      CleanupPush(preRoutines, routine, arg);
    }

    method PreCleanupPop() returns (popped: Option<CleanupRoutine<A>>)
      requires Valid()
      modifies preRoutines
      ensures Valid()
      ensures (Abstract(), popped) == Call(old(Abstract()), PrePop)
    {
      popped := CleanupPop(preRoutines);
    }

    method PostCleanupPush(routine: Routine<A>, arg: A)
      requires Valid()
      modifies postRoutines
      ensures Valid()
      ensures Abstract() == Call(old(Abstract()), PostPush(routine, arg)).0
    {
      CleanupPush(postRoutines, routine, arg);
    }

    method PostCleanupPop() returns (popped: Option<CleanupRoutine<A>>)
      requires Valid()
      modifies postRoutines
      ensures Valid()
      ensures (Abstract(), popped) == Call(old(Abstract()), PostPop)
    {
      popped := CleanupPop(postRoutines);
    }

    /** Any one of the four public stack operations, as a routine or another goroutine calls it. */
    method Perform(call: ApiCall<A>) returns (popped: Option<CleanupRoutine<A>>)
      requires Valid()
      modifies preRoutines, postRoutines
      ensures Valid()
      ensures (Abstract(), popped) == Call(old(Abstract()), call)
    {
      match call {
        case PrePush(routine, arg) =>
          PreCleanupPush(routine, arg);
          popped := None;
        case PrePop =>
          popped := PreCleanupPop();
        case PostPush(routine, arg) =>
          PostCleanupPush(routine, arg);
          popped := None;
        case PostPop =>
          popped := PostCleanupPop();
      }
    }

    /**
      `routine(arg)` while the gate is closed: the invocation is recorded, and every call
      the routine makes back into the public API is refused, so neither stack changes.
    */
    method Invoke(cleanup: CleanupRoutine<A>)
      requires Valid() && IsClosed()
      modifies this`trace, preRoutines, postRoutines
      ensures Valid() && Abstract() == old(Abstract())
      ensures preRoutines.routines == old(preRoutines.routines) && postRoutines.routines == old(postRoutines.routines)
      ensures trace == old(trace) + [Invoked(cleanup)]
    {
      trace := trace + [Invoked(cleanup)];
      var calls := cleanup.routine.calls;
      for i := 0 to |calls|
        invariant Valid() && Abstract() == old(Abstract())
        invariant trace == old(trace) + [Invoked(cleanup)]
      {
        var _ := Perform(calls[i]);
      }
    }

    /**
      One iteration of `cleanup`'s loop: pop the top (bypassing the gate) and, if there
      was one, invoke it. The other stack and the gate are untouched.
    */
    method InvokeTop(stack: RoutineStack<CleanupRoutine<A>>) returns (popped: Option<CleanupRoutine<A>>)
      requires Valid() && IsClosed()
      requires stack == preRoutines || stack == postRoutines
      modifies this`trace, preRoutines, postRoutines
      ensures Valid()
      ensures (popped, stack.routines) == Popped(old(stack.routines))
      ensures stack == preRoutines ==> postRoutines.routines == old(postRoutines.routines)
      ensures stack == postRoutines ==> preRoutines.routines == old(preRoutines.routines)
      ensures trace == old(trace) + (if popped.Some? then [Invoked(popped.value)] else [])
    {
      popped := stack.Pop();
      if popped.Some? {
        Invoke(popped.value);
      }
    }

    /**
      `cleanup`: pop (bypassing the gate) and invoke until the stack is empty. Every
      routine on the stack runs exactly once, last pushed first; the other stack and the
      gate are untouched.
    */
    method Cleanup(stack: RoutineStack<CleanupRoutine<A>>)
      requires Valid() && IsClosed()
      requires stack == preRoutines || stack == postRoutines
      modifies this`trace, preRoutines, postRoutines
      ensures Valid() && stack.routines == []
      ensures stack == preRoutines ==> postRoutines.routines == old(postRoutines.routines)
      ensures stack == postRoutines ==> preRoutines.routines == old(preRoutines.routines)
      ensures trace == old(trace) + Invocations(Reverse(old(stack.routines)))
    {
      ghost var initial := stack.routines;
      ghost var done: seq<CleanupRoutine<A>> := [];
      while true
        invariant Valid()
        invariant stack == preRoutines ==> postRoutines.routines == old(postRoutines.routines)
        invariant stack == postRoutines ==> preRoutines.routines == old(preRoutines.routines)
        invariant Drain(initial) == done + Drain(stack.routines)
        invariant trace == old(trace) + Invocations(done)
        decreases |stack.routines|
      {
        ghost var before := stack.routines;
        var popped := InvokeTop(stack);
        if popped.None? {
          assert Drain(stack.routines) == [];
          break;
        }
        DrainStep(initial, done, before);
        InvocationsAppend(old(trace), done, popped.value);
        done := done + [popped.value];
      }
      assert done == Drain(initial);
      DrainIsReverse(initial);
    }

    method PreCleanup()
      requires Valid() && IsClosed()
      modifies this`trace, preRoutines, postRoutines
      ensures Valid() && preRoutines.routines == [] && postRoutines.routines == old(postRoutines.routines)
      ensures trace == old(trace) + Invocations(Reverse(old(preRoutines.routines)))
    {
      Cleanup(preRoutines);
    }

    method PostCleanup()
      requires Valid() && IsClosed()
      modifies this`trace, preRoutines, postRoutines
      ensures Valid() && postRoutines.routines == [] && preRoutines.routines == old(preRoutines.routines)
      ensures trace == old(trace) + Invocations(Reverse(old(postRoutines.routines)))
    {
      Cleanup(postRoutines);
    }

    /**
      `c.Server.Shutdown(ctx)`, where `ctx` carries a deadline exactly when `timeout > 0`.
      The server is outside the model: `shutdownFailed` is whether it returned an error,
      which Serve only logs.
    */
    method ShutdownServer(timeout: int, shutdownFailed: bool)
      modifies this`trace
      ensures trace == old(trace) + [ShutdownCalled(timeout > 0, shutdownFailed)]
    {
      var hasDeadline := timeout > 0;
      trace := trace + [ShutdownCalled(hasDeadline, shutdownFailed)];
    }

    /**
      Serve after `<-quit`: pre-cleanup, Shutdown, then the deferred post-cleanup, which
      runs whatever Shutdown returned. Both stacks end empty.
    */
    method ShutdownSequence(timeout: int, shutdownFailed: bool)
      requires Valid() && IsClosed()
      modifies this`trace, preRoutines, postRoutines
      ensures Valid() && preRoutines.routines == [] && postRoutines.routines == []
      ensures trace == old(trace) + ShutdownTrace(old(Abstract()), timeout, shutdownFailed)
    {
      ghost var atQuit := Abstract();
      PreCleanup();
      ShutdownServer(timeout, shutdownFailed);
      PostCleanup();
      ShutdownTraceSteps(old(trace), atQuit, timeout, shutdownFailed);
    }

    /**
      Serve blocked on `<-quit` while `stimuli` arrive in this order. Each signal runs
      one iteration of handleSignal, a server exit runs the rest of the serving
      goroutine, and a request is a public push or pop. Returns whether `quit` fired.
    */
    method AwaitQuit(stimuli: seq<Stimulus<A>>) returns (fired: bool)
      requires Valid()
      modifies this`closing, this`interrupted, this`quitCloses, preRoutines, postRoutines
      ensures Valid()
      ensures (Abstract(), fired) == Await(old(Abstract()), stimuli)
      ensures fired ==> IsClosed()
      ensures quitCloses == old(quitCloses) + (if fired then 1 else 0)
    {
      fired := false;
      var i := 0;
      while i < |stimuli| && !fired
        invariant 0 <= i <= |stimuli|
        invariant Valid()
        invariant Await(old(Abstract()), stimuli) == if fired then (Abstract(), true) else Await(Abstract(), stimuli[i..])
        invariant fired ==> IsClosed()
        invariant quitCloses == old(quitCloses) + (if fired then 1 else 0)
      {
        assert stimuli[i..][0] == stimuli[i] && stimuli[i..][1..] == stimuli[i + 1..];
        match stimuli[i] {
          case Signal =>
            fired := OnSignal();
          case ServerExit =>
            fired := OnServerExit();
          case Request(call) =>
            var _ := Perform(call);
        }
        i := i + 1;
      }
    }

    /**
      `Serve(timeout)`: wait for `quit`, then run the shutdown sequence on the stacks
      as they were when the gate closed. `returned` is false when `quit` never fires, in
      which case the source blocks forever.
    */
    method Serve(timeout: int, stimuli: seq<Stimulus<A>>, shutdownFailed: bool) returns (returned: bool)
      requires Valid()
      modifies this, preRoutines, postRoutines
      ensures Valid()
      ensures returned == Await(old(Abstract()), stimuli).1
      ensures returned ==> preRoutines.routines == [] && postRoutines.routines == []
      ensures returned ==> Abstract() == Await(old(Abstract()), stimuli).0.(pre := [], post := [])
      ensures returned ==>
        trace == old(trace) + ShutdownTrace(Await(old(Abstract()), stimuli).0, timeout, shutdownFailed)
      ensures !returned ==> Abstract() == Await(old(Abstract()), stimuli).0 && trace == old(trace)
      ensures quitCloses == old(quitCloses) + (if returned then 1 else 0)
    {
      returned := AwaitQuit(stimuli);
      if returned {
        ShutdownSequence(timeout, shutdownFailed);
      }
    }
  }

  const SECOND := 1_000_000_000

  function TestPre(): seq<CleanupRoutine<int>> {
    [CleanupRoutine(Routine(1, []), 2), CleanupRoutine(Routine(2, []), 1)]
  }

  function TestPost(): seq<CleanupRoutine<int>> {
    [CleanupRoutine(Routine(3, []), 4), CleanupRoutine(Routine(4, []), 3)]
  }

  /** With the stacks of cleanuphttp_test.go, Serve runs 1 then 2, Shutdown with a deadline, then 3 then 4. */
  lemma TestScenarioTrace(interrupted: bool, shutdownFailed: bool)
    ensures ShutdownTrace(State(TestPre(), TestPost(), 1, interrupted), 5 * SECOND, shutdownFailed) == [
      Invoked(CleanupRoutine(Routine(2, []), 1)),
      Invoked(CleanupRoutine(Routine(1, []), 2)),
      ShutdownCalled(true, shutdownFailed),
      Invoked(CleanupRoutine(Routine(4, []), 3)),
      Invoked(CleanupRoutine(Routine(3, []), 4))]
  {
    ReversedPairInvocations(CleanupRoutine(Routine(1, []), 2), CleanupRoutine(Routine(2, []), 1));
    ReversedPairInvocations(CleanupRoutine(Routine(3, []), 4), CleanupRoutine(Routine(4, []), 3));
  }

  lemma ReversedPairInvocations<A>(a: CleanupRoutine<A>, b: CleanupRoutine<A>)
    ensures Invocations(Reverse([a, b])) == [Invoked(b), Invoked(a)]
  {
    assert Reverse([a, b]) == [b, a];
    assert [b][..0] == [];
    assert Invocations([b]) == [Invoked(b)];
    assert [b, a][..1] == [b];
    assert Invocations([b, a]) == Invocations([b]) + [Invoked(a)];
  }

  /**
    The scenario of cleanuphttp_test.go: pre-routines pushed with arguments 2 then 1,
    post-routines with 4 then 3, Serve with a five-second timeout, and any one trigger
    (a signal, or the server exiting on its own).
  */
  method TestScenario(trigger: Stimulus<int>, shutdownFailed: bool) returns (ghost events: seq<Event<int>>)
    requires IsTrigger(trigger)
    ensures events == [
      Invoked(CleanupRoutine(Routine(2, []), 1)),
      Invoked(CleanupRoutine(Routine(1, []), 2)),
      ShutdownCalled(true, shutdownFailed),
      Invoked(CleanupRoutine(Routine(4, []), 3)),
      Invoked(CleanupRoutine(Routine(3, []), 4))]
  {
    var c := new CleanupHTTP<int>();
    c.PreCleanupPush(Routine(1, []), 2);
    c.PreCleanupPush(Routine(2, []), 1);
    c.PostCleanupPush(Routine(3, []), 4);
    c.PostCleanupPush(Routine(4, []), 3);
    assert c.Abstract() == State(TestPre(), TestPost(), 0, false);
    assert Await(c.Abstract(), [trigger]) == (State(TestPre(), TestPost(), 1, trigger.Signal?), true);
    var returned := c.Serve(5 * SECOND, [trigger], shutdownFailed);
    TestScenarioTrace(trigger.Signal?, shutdownFailed);
    events := c.trace;
  }
}
