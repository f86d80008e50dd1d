/**
  A value-level model of one `CleanupHTTP` instance (cleanuphttp.go): its two routine
  stacks, the `closing` gate and the `interrupted` flag, and the step functions for
  everything that changes them. The class in module CleanupHttp is proved against these
  functions; the lemmas here state what the steps add up to.

  Concurrency is modelled as one interleaving: while Serve waits on `quit`, a sequence
  of stimuli arrives (an OS signal, ListenAndServe returning, a push or pop from another
  goroutine), and each one is an atomic step.
*/
module CleanupModel {
  import opened Wrappers
  import opened RoutineStacks

  /**
    A `Routine` (a Go func value): an identity, and the calls it makes back into the
    public API of the same instance when it is invoked. Any other effect it has is
    outside this model.
  */
  datatype Routine<A> = Routine(id: nat, calls: seq<ApiCall<A>>)

  /** `cleanupRoutine`: a routine and the argument it will be given. */
  datatype CleanupRoutine<A> = CleanupRoutine(routine: Routine<A>, arg: A)

  /** PreCleanupPush, PreCleanupPop, PostCleanupPush and PostCleanupPop. */
  datatype ApiCall<A> =
    | PrePush(routine: Routine<A>, arg: A)
    | PrePop
    | PostPush(routine: Routine<A>, arg: A)
    | PostPop

  /** One thing that can happen while Serve waits on `quit`. */
  datatype Stimulus<A> =
    | Signal                   // SIGINT or SIGTERM delivered to handleSignal
    | ServerExit               // ListenAndServe returned, with any error
    | Request(call: ApiCall<A>) // a public push or pop from some other goroutine

  /** What Serve does once `quit` has fired: routine invocations and the call to Shutdown. */
  datatype Event<A> =
    | Invoked(cleanup: CleanupRoutine<A>)
    | ShutdownCalled(hasDeadline: bool, failed: bool)

  /** The fields of `CleanupHTTP` (the server aside); `closing` is the int32 of the source. */
  datatype State<A> = State(
    pre: seq<CleanupRoutine<A>>,
    post: seq<CleanupRoutine<A>>,
    closing: int,
    interrupted: bool)

  /**
    The states a zero-valued instance can reach: `closing` only ever holds 0 or 1,
    and a signal that has been seen has also closed the gate.
  */
  ghost predicate Reachable<A>(st: State<A>) {
    (st.closing == 0 || st.closing == 1) && (st.interrupted ==> st.closing == 1)
  }

  /** `isClosed`. */
  predicate Closed<A>(st: State<A>)
  {
    st.closing != 0
  }

  /**
    `atomic.CompareAndSwapInt32(&c.closing, 0, 1)`: the new state and whether this
    caller won, and so is the one that closes `quit`.
  */
  function Cas<A>(st: State<A>): (r: (State<A>, bool))
    ensures r.1 <==> st.closing == 0
    ensures Closed(r.0)
    ensures !r.1 ==> r.0 == st
    ensures r.0.pre == st.pre && r.0.post == st.post && r.0.interrupted == st.interrupted
  {
    if st.closing == 0 then (st.(closing := 1), true) else (st, false)
  }

  /** The serving goroutine once ListenAndServe has returned: any error is only logged. */
  function ServerExited<A>(st: State<A>): (r: (State<A>, bool))
    ensures r.1 <==> !Closed(st)
    ensures Closed(r.0) && r.0.interrupted == st.interrupted
    ensures r.0.pre == st.pre && r.0.post == st.post
  {
    Cas(st)
  }

  /** One iteration of the loop in handleSignal. */
  function Signaled<A>(st: State<A>): (r: (State<A>, bool))
    ensures r.0.interrupted
    ensures st.interrupted ==> r == (st, false)
    ensures r.1 <==> !st.interrupted && !Closed(st)
    ensures !st.interrupted ==> Closed(r.0)
    ensures r.0.pre == st.pre && r.0.post == st.post
  {
    if st.interrupted then (st, false)
    else
      var marked := st.(interrupted := true);
      if Closed(marked) then (marked, false) else Cas(marked)
  }

  /**
    A public push or pop (cleanupPush or cleanupPop on the stack the call names): the
    new state and what the pop handed back.
  */
  function Call<A>(st: State<A>, call: ApiCall<A>): (r: (State<A>, Option<CleanupRoutine<A>>))
    ensures Closed(st) ==> r.0 == st && r.1.None?
    ensures (call.PrePush? || call.PrePop?) ==> r.0.post == st.post
    ensures (call.PostPush? || call.PostPop?) ==> r.0.pre == st.pre
    ensures r.0.closing == st.closing && r.0.interrupted == st.interrupted
    ensures (call.PrePush? || call.PostPush?) ==> r.1.None?
    ensures !Closed(st) && call.PrePush? ==> r.0.pre == st.pre + [CleanupRoutine(call.routine, call.arg)]
    ensures !Closed(st) && call.PostPush? ==> r.0.post == st.post + [CleanupRoutine(call.routine, call.arg)]
    ensures !Closed(st) && call.PrePop? ==> (r.1, r.0.pre) == Popped(st.pre)
    ensures !Closed(st) && call.PostPop? ==> (r.1, r.0.post) == Popped(st.post)
  {
    if Closed(st) then (st, None)
    else
      match call
      case PrePush(routine, arg) => (st.(pre := st.pre + [CleanupRoutine(routine, arg)]), None)
      case PrePop =>
        var (top, rest) := Popped(st.pre);
        (st.(pre := rest), top)
      case PostPush(routine, arg) => (st.(post := st.post + [CleanupRoutine(routine, arg)]), None)
      case PostPop =>
        var (top, rest) := Popped(st.post);
        (st.(post := rest), top)
  }

  /** The stimuli that attempt to close the gate. */
  predicate IsTrigger<A>(stim: Stimulus<A>) {
    stim.Signal? || stim.ServerExit?
  }

  /** One stimulus: the new state and whether it closed `quit`. */
  function Step<A>(st: State<A>, stim: Stimulus<A>): (r: (State<A>, bool))
    ensures r.1 ==> IsTrigger(stim) && !Closed(st) && Closed(r.0)
    ensures Closed(st) ==> Closed(r.0)
    ensures r.0.closing == st.closing || r.0.closing == 1
    ensures stim.Request? ==> r == (Call(st, stim.call).0, false)
  {
    match stim
    case Signal => Signaled(st)
    case ServerExit => ServerExited(st)
    case Request(call) => (Call(st, call).0, false)
  }

  /** All of `stims` in order: the final state and, per stimulus, whether it closed `quit`. */
  ghost function Run<A>(st: State<A>, stims: seq<Stimulus<A>>): (r: (State<A>, seq<bool>))
    ensures |r.1| == |stims|
    ensures Closed(st) ==> Closed(r.0)
    ensures r.0.closing == st.closing || r.0.closing == 1
    decreases |stims|
  {
    if |stims| == 0 then (st, [])
    else
      var (next, won) := Step(st, stims[0]);
      var (last, wins) := Run(next, stims[1..]);
      (last, [won] + wins)
  }

  /**
    Serve blocked on `<-quit` while `stims` arrive: the state when `quit` fires and
    `true`, or the state after the last stimulus and `false` if it never fires.
  */
  ghost function Await<A>(st: State<A>, stims: seq<Stimulus<A>>): (r: (State<A>, bool))
    ensures r.1 ==> Closed(r.0) && !Closed(st)
    ensures Closed(st) ==> Closed(r.0)
    ensures r.0.closing == st.closing || r.0.closing == 1
    decreases |stims|
  {
    if |stims| == 0 then (st, false)
    else
      var (next, won) := Step(st, stims[0]);
      if won then (next, true) else Await(next, stims[1..])
  }

  /** The invocation events of running `rs[0]`, `rs[1]`, ... in that order. */
  ghost function Invocations<A>(rs: seq<CleanupRoutine<A>>): seq<Event<A>>
    decreases |rs|
  {
    if |rs| == 0 then [] else Invocations(rs[..|rs| - 1]) + [Invoked(rs[|rs| - 1])]
  }

  lemma InvocationsSnoc<A>(rs: seq<CleanupRoutine<A>>, r: CleanupRoutine<A>)
    ensures Invocations(rs + [r]) == Invocations(rs) + [Invoked(r)]
  {
    assert (rs + [r])[..|rs|] == rs;
  }

  /** A trace that ends with the invocations of `rs`, after one more invocation. */
  lemma InvocationsAppend<A>(prefix: seq<Event<A>>, rs: seq<CleanupRoutine<A>>, r: CleanupRoutine<A>)
    ensures (prefix + Invocations(rs)) + [Invoked(r)] == prefix + Invocations(rs + [r])
  {
    InvocationsSnoc(rs, r);
  }

  /**
    What Serve does after `quit` fires from state `st`: the pre stack in reverse push
    order, then Shutdown (with a deadline iff `timeout > 0`), then the post stack in
    reverse push order, whatever Shutdown returned.
  */
  ghost function ShutdownTrace<A>(st: State<A>, timeout: int, shutdownFailed: bool): seq<Event<A>> {
    Invocations(Reverse(st.pre)) + [ShutdownCalled(timeout > 0, shutdownFailed)] + Invocations(Reverse(st.post))
  }

  /** The shutdown trace, as the three steps of Serve append it one after another. */
  lemma ShutdownTraceSteps<A>(prefix: seq<Event<A>>, st: State<A>, timeout: int, shutdownFailed: bool)
    ensures ((prefix + Invocations(Reverse(st.pre))) + [ShutdownCalled(timeout > 0, shutdownFailed)])
              + Invocations(Reverse(st.post))
            == prefix + ShutdownTrace(st, timeout, shutdownFailed)
  {
  }

  ghost predicate HasTrigger<A>(stims: seq<Stimulus<A>>) {
    exists i :: 0 <= i < |stims| && IsTrigger(stims[i])
  }

  ghost predicate NoTriggerBefore<A>(stims: seq<Stimulus<A>>, i: int)
    requires 0 <= i <= |stims|
  {
    forall j :: 0 <= j < i ==> !IsTrigger(stims[j])
  }

  function Count(bs: seq<bool>): nat
    decreases |bs|
  {
    if |bs| == 0 then 0 else (if bs[0] then 1 else 0) + Count(bs[1..])
  }

  /**
    One step: a trigger closes the gate, and wins (closes `quit`) exactly when the gate
    was open; any other stimulus leaves the gate as it was. Reachability is preserved.
  */
  lemma StepOnGate<A>(st: State<A>, stim: Stimulus<A>)
    requires Reachable(st)
    ensures Reachable(Step(st, stim).0)
    ensures Step(st, stim).1 <==> !Closed(st) && IsTrigger(stim)
    ensures Closed(Step(st, stim).0) <==> Closed(st) || IsTrigger(stim)
    ensures Step(st, stim).0.closing == (if IsTrigger(stim) then 1 else st.closing)
  {
  }

  /**
    Single-trigger law: over any interleaving, the stimulus that closes `quit` is the
    first trigger, and only if the gate was open to begin with.
  */
  lemma {:induction false} OnlyFirstTriggerWins<A>(st: State<A>, stims: seq<Stimulus<A>>)
    requires Reachable(st)
    ensures forall i :: 0 <= i < |stims| ==>
      (Run(st, stims).1[i] <==> !Closed(st) && IsTrigger(stims[i]) && NoTriggerBefore(stims, i))
    decreases |stims|
  {
    if |stims| > 0 {
      var (next, won) := Step(st, stims[0]);
      StepOnGate(st, stims[0]);
      OnlyFirstTriggerWins(next, stims[1..]);
      var wins := Run(st, stims).1;
      assert wins == [won] + Run(next, stims[1..]).1;
      forall i | 0 <= i < |stims|
        ensures wins[i] <==> !Closed(st) && IsTrigger(stims[i]) && NoTriggerBefore(stims, i)
      {
        if i > 0 {
          assert stims[1..][i - 1] == stims[i];
          assert NoTriggerBefore(stims, i) <==> !IsTrigger(stims[0]) && NoTriggerBefore(stims[1..], i - 1) by {
            if NoTriggerBefore(stims, i) {
              forall j | 0 <= j < i - 1 ensures !IsTrigger(stims[1..][j]) {
                assert stims[1..][j] == stims[j + 1];
              }
            }
            if !IsTrigger(stims[0]) && NoTriggerBefore(stims[1..], i - 1) {
              forall j | 0 <= j < i ensures !IsTrigger(stims[j]) {
                if j > 0 {
                  assert stims[j] == stims[1..][j - 1];
                }
              }
            }
          }
        }
      }
    }
  }

  /** `quit` is closed exactly once if the gate was open and some trigger arrives, and never otherwise. */
  lemma {:induction false} QuitClosedAtMostOnce<A>(st: State<A>, stims: seq<Stimulus<A>>)
    requires Reachable(st)
    ensures Count(Run(st, stims).1) == if !Closed(st) && HasTrigger(stims) then 1 else 0
    decreases |stims|
  {
    if |stims| > 0 {
      var (next, won) := Step(st, stims[0]);
      StepOnGate(st, stims[0]);
      QuitClosedAtMostOnce(next, stims[1..]);
      assert Run(st, stims).1 == [won] + Run(next, stims[1..]).1;
      assert ([won] + Run(next, stims[1..]).1)[1..] == Run(next, stims[1..]).1;
      HasTriggerSplit(stims);
    }
  }

  lemma HasTriggerSplit<A>(stims: seq<Stimulus<A>>)
    requires |stims| > 0
    ensures HasTrigger(stims) <==> IsTrigger(stims[0]) || HasTrigger(stims[1..])
  {
    if HasTrigger(stims) && !IsTrigger(stims[0]) {
      var i :| 0 <= i < |stims| && IsTrigger(stims[i]);
      assert stims[1..][i - 1] == stims[i];
    }
    if HasTrigger(stims[1..]) {
      var i :| 0 <= i < |stims[1..]| && IsTrigger(stims[1..][i]);
      assert stims[i + 1] == stims[1..][i];
    }
  }

  /**
    Serve's wait ends exactly when the gate was open and a trigger arrives; it then ends
    with the gate closed, in a reachable state.
  */
  lemma {:induction false} AwaitFires<A>(st: State<A>, stims: seq<Stimulus<A>>)
    requires Reachable(st)
    ensures Reachable(Await(st, stims).0)
    ensures Await(st, stims).1 <==> !Closed(st) && HasTrigger(stims)
    ensures Await(st, stims).1 ==> Closed(Await(st, stims).0)
    decreases |stims|
  {
    if |stims| > 0 {
      var (next, won) := Step(st, stims[0]);
      StepOnGate(st, stims[0]);
      AwaitFires(next, stims[1..]);
      HasTriggerSplit(stims);
    }
  }

  /**
    Once the gate is closed, no stimulus changes either stack or the gate, and none
    closes `quit`: what arrives after `quit` fired cannot disturb the drains.
  */
  lemma {:induction false} ClosedStimuliInert<A>(st: State<A>, stims: seq<Stimulus<A>>)
    requires Closed(st)
    ensures Run(st, stims).0.pre == st.pre && Run(st, stims).0.post == st.post
    ensures Run(st, stims).0.closing == st.closing
    ensures Count(Run(st, stims).1) == 0
    decreases |stims|
  {
    if |stims| > 0 {
      var (next, won) := Step(st, stims[0]);
      assert next.pre == st.pre && next.post == st.post && next.closing == st.closing && !won;
      ClosedStimuliInert(next, stims[1..]);
      assert Run(st, stims).1 == [won] + Run(next, stims[1..]).1;
      assert ([won] + Run(next, stims[1..]).1)[1..] == Run(next, stims[1..]).1;
    }
  }

  /**
    `closing` is never reset, so a Serve started on an instance whose gate has already
    closed never sees `quit` fire, whatever arrives.
  */
  lemma {:induction false} ClosedGateNeverFires<A>(st: State<A>, stims: seq<Stimulus<A>>)
    requires Closed(st)
    ensures !Await(st, stims).1 && Await(st, stims).0.pre == st.pre && Await(st, stims).0.post == st.post
    decreases |stims|
  {
    if |stims| > 0 {
      ClosedGateNeverFires(Step(st, stims[0]).0, stims[1..]);
    }
  }

  /** After a first signal, further signals change nothing at all. */
  lemma LaterSignalsIgnored<A>(st: State<A>)
    ensures Signaled(Signaled(st).0) == (Signaled(st).0, false)
  {
  }
}
