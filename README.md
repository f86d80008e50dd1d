# cleanuphttp in Dafny

This project models the shutdown orchestration of `cleanuphttp`, a Go package that runs an
HTTP server together with two stacks of cleanup routines. A routine pushed on the *pre*
stack runs before the server's `Shutdown`. A routine pushed on the *post* stack runs after
it. Shutdown starts from whichever comes first: an interrupt or terminate signal, or the
server exiting on its own. A compare-and-swap on the `closing` field makes sure it starts
only once. After that, a push or pop that checks the gate is refused. The short window
between that check and the stack operation is not modelled (see "Left out").

The model has three layers:

- `routine_stack.dfy` (module `RoutineStacks`) models the `routineStack` slice.
  - `RoutineStack` is a class with a `seq` field. `Pop` is proved against the pure
    function `Popped`, `Push` against `old(routines) + [routine]`, and `Len` against
    `|routines|`.
  - Lemmas give the LIFO law: pushing `a1 .. an` and then popping `n` times returns
    `an .. a1` and restores the stack. Draining a stack runs every element exactly once,
    in reverse push order.
- `cleanup_model.dfy` (module `CleanupModel`) is a value model of one instance: both stacks,
  `closing` and `interrupted`.
  - It has a step function for each thing that changes the instance: the compare-and-swap,
    one iteration of `handleSignal`, the serving goroutine after `ListenAndServe` returns,
    and the four public push and pop calls.
  - Concurrency is modelled as one interleaving: a sequence of stimuli, each an atomic step.
  - Lemmas prove that the first trigger is the only one that wins, and that `quit` is
    closed at most once. Serve's wait ends exactly when the gate was open and some trigger
    arrives. Once the gate is closed, nothing changes either stack.
- `cleanup_http.dfy` (module `CleanupHttp`) has the class `CleanupHTTP`, with the fields of
  the Go struct.
  - Each method is proved against the step functions.
  - Two ghost fields record what the Go code leaves implicit. `quitCloses` counts
    `close(quit)` calls; the class invariant keeps it equal to `closing`, so the count is
    never more than 1. `trace` lists the routine invocations and the call to `Shutdown`.
  - `Serve` is proved to produce `reverse(pre) ++ [Shutdown(timeout > 0)] ++ reverse(post)`,
    where `pre` and `post` are the stacks at the moment the gate closed.
  - A routine is modelled as an identity plus the public API calls it makes when it runs.
    All such calls during a drain are refused because the gate is already closed, so a
    drain sees exactly the contents the stack had when the gate closed.

`CleanupModel.Closed` (on values) and `CleanupHTTP.IsClosed` (on the object) are `isClosed`
(cleanuphttp.go:167-169): a plain read of `closing`, used by the operations below.
`RoutineStacks.Drain` is the `cleanup` loop (cleanuphttp.go:155-165) on values;
`DrainIsReverse` ties it to `Reverse`.

Three consequences of the code that are easy to miss:

- The gate has two values, 0 and 1. There is no separate "closed" state after shutdown
  finishes.
- `closing` is never reset. A second `Serve` on the same instance (for example the
  process-wide default one) never sees its `quit` fire, so it never returns. It does not
  reuse leftover routines. Both stacks are empty after the first `Serve`, and pushes are
  refused from then on (`ClosedGateNeverFires`).
- A push refused after close returns nothing to its caller; it is only logged.

## Model

| member | source | states |
|---|---|---|
| `RoutineStacks.Popped` | cleanuphttp.go:226-238 | `pop` of an empty stack gives `None` and the same stack; otherwise the result is the last element, and the rest plus that element is the old stack |
| `RoutineStacks.PushAll` | cleanuphttp.go:219-224 | pushing `xs` one by one appends them in order after the existing elements |
| `RoutineStacks.Reverse` | cleanuphttp.go:155-165 | reference order for a drain: same length, and element `k` is element `n-1-k` of the input |
| `RoutineStacks.PopN` | cleanuphttp.go:226-238 | `n` pops of a stack with at least `n` elements return `n` elements, the `k`-th being the `k`-th from the top, and leave the bottom `len - n` elements |
| `RoutineStacks.DrainPop` | cleanuphttp.go:155-165 | draining a non-empty stack runs its top first, then drains the rest |
| `RoutineStacks.LifoLaw` | cleanuphttp.go:219-238 | after pushing `a1..an`, `n` pops return `an..a1` and leave the original stack |
| `RoutineStacks.DrainIsReverse` | cleanuphttp.go:155-165 | popping until `pop` reports empty returns the stack in reverse push order |
| `RoutineStacks.DrainIsPermutation` | cleanuphttp.go:155-165 | a drain returns every routine exactly once (same multiset) |
| `RoutineStacks.RoutineStack.constructor` | cleanuphttp.go:208-211 | a new stack is empty |
| `RoutineStacks.RoutineStack.Len` | cleanuphttp.go:213-217 | `len` is the number of routines on the stack |
| `RoutineStacks.RoutineStack.Push` | cleanuphttp.go:219-224 | the routine becomes the new last element; earlier elements are unchanged |
| `RoutineStacks.RoutineStack.Pop` | cleanuphttp.go:226-238 | on an empty stack returns `None` and changes nothing; otherwise returns the last element and leaves the prefix |
| `CleanupModel.Cas` | cleanuphttp.go:46-48 | the compare-and-swap wins exactly when `closing` was 0; afterwards the gate is closed whoever won; a loser changes nothing; the stacks and `interrupted` are untouched |
| `CleanupModel.ServerExited` | cleanuphttp.go:41-48 | the serving goroutine, whatever `ListenAndServe` returned, closes `quit` exactly when the gate was still open; the gate is closed afterwards; the stacks and `interrupted` are untouched |
| `CleanupModel.Signaled` | cleanuphttp.go:130-143 | every signal leaves `interrupted` set; a repeated signal changes nothing; a signal closes `quit` exactly when it is the first one and the gate was open; after a first signal the gate is closed; the stacks are untouched |
| `CleanupModel.Call` | cleanuphttp.go:101-127 | once closed, a push or pop leaves the state unchanged and returns `None`; pre calls never change the post stack and post calls never change the pre stack; the gate and `interrupted` are untouched; pushes return nothing; while open, a push appends the routine with its argument and a pop behaves as `Popped` on the named stack |
| `CleanupModel.Step` | cleanuphttp.go:101-145 | one stimulus of the interleaving: only a signal or server exit on an open gate closes `quit`, and then the gate is closed; a closed gate stays closed and `closing` only moves to 1; a push or pop is `Call` and never closes `quit` |
| `CleanupModel.Run` | cleanuphttp.go:129-145 | a whole interleaving yields one closed-`quit` flag per stimulus; a closed gate stays closed and `closing` only moves to 1 |
| `CleanupModel.Await` | cleanuphttp.go:51 | `<-quit` returns only after some stimulus closed a gate that was open when Serve began waiting; a closed gate stays closed |
| `CleanupModel.StepOnGate` | cleanuphttp.go:129-145 | a signal or a server exit leaves the gate closed, and closes `quit` exactly when the gate was open; push and pop leave the gate alone; reachable states stay reachable |
| `CleanupModel.OnlyFirstTriggerWins` | cleanuphttp.go:41-48 | over any interleaving, the stimulus that closes `quit` is exactly the first trigger, and only if the gate started open |
| `CleanupModel.QuitClosedAtMostOnce` | cleanuphttp.go:141-143 | `quit` is closed once if the gate was open and a trigger arrives, and never otherwise |
| `CleanupModel.AwaitFires` | cleanuphttp.go:34-51 | Serve's `<-quit` returns exactly when the gate was open and some trigger arrives, and then the gate is closed |
| `CleanupModel.ClosedStimuliInert` | cleanuphttp.go:101-118 | once closed, no signal, server exit, push or pop changes either stack or the gate, and none closes `quit` |
| `CleanupModel.ClosedGateNeverFires` | cleanuphttp.go:34-51 | a Serve that starts with the gate already closed never gets past `<-quit` |
| `CleanupModel.LaterSignalsIgnored` | cleanuphttp.go:132-139 | after a first signal, a second signal changes nothing and closes nothing |
| `CleanupHttp.CleanupHTTP.IsClosed` | cleanuphttp.go:167-169 | for a well-formed instance, the gate reads as closed exactly when `quit` has been closed |
| `CleanupHttp.CleanupHTTP.constructor` | cleanuphttp.go:24-31 | the zero value: both stacks empty, gate open, not interrupted |
| `CleanupHttp.CleanupHTTP.Trigger` | cleanuphttp.go:46-48 | the compare-and-swap wins exactly when `closing` was 0, leaves `closing` at 1, and closes `quit` only when it wins |
| `CleanupHttp.CleanupHTTP.OnServerExit` | cleanuphttp.go:41-49 | the serving goroutine, whatever `ListenAndServe` returned, tries the gate once |
| `CleanupHttp.CleanupHTTP.OnSignal` | cleanuphttp.go:130-144 | the first signal sets `interrupted` and tries the gate unless it is closed; later signals do nothing |
| `CleanupHttp.CleanupHTTP.CleanupPush` | cleanuphttp.go:101-112 | when closed the stack is unchanged; otherwise the routine with its argument is appended |
| `CleanupHttp.CleanupHTTP.CleanupPop` | cleanuphttp.go:114-127 | when closed, returns `None` and leaves the stack unchanged; otherwise behaves as `pop` |
| `CleanupHttp.CleanupHTTP.PreCleanupPush` | cleanuphttp.go:78-80 | the new state is `Call(old, PrePush)`: a guarded push on the pre stack only |
| `CleanupHttp.CleanupHTTP.PreCleanupPop` | cleanuphttp.go:84-86 | result and new state are `Call(old, PrePop)` |
| `CleanupHttp.CleanupHTTP.PostCleanupPush` | cleanuphttp.go:91-93 | the new state is `Call(old, PostPush)`: a guarded push on the post stack only |
| `CleanupHttp.CleanupHTTP.PostCleanupPop` | cleanuphttp.go:97-99 | result and new state are `Call(old, PostPop)` |
| `CleanupHttp.CleanupHTTP.Perform` | cleanuphttp.go:78-99 | any public push or pop changes the state as `Call` says |
| `CleanupHttp.CleanupHTTP.Invoke` | cleanuphttp.go:158-160 | invoking a routine while closed records it once; the calls it makes back into the API leave both stacks and the gate unchanged |
| `CleanupHttp.CleanupHTTP.InvokeTop` | cleanuphttp.go:156-163 | one iteration of the drain loop: the pop behaves as `Popped`, the popped routine (if any) is invoked once, and the other stack is untouched |
| `CleanupHttp.CleanupHTTP.Cleanup` | cleanuphttp.go:155-165 | ends with the stack empty, having invoked every routine on it once in reverse push order; the other stack is unchanged |
| `CleanupHttp.CleanupHTTP.PreCleanup` | cleanuphttp.go:147-149 | drains the pre stack in reverse push order; the post stack is untouched |
| `CleanupHttp.CleanupHTTP.PostCleanup` | cleanuphttp.go:151-153 | drains the post stack in reverse push order; the pre stack is untouched |
| `CleanupHttp.CleanupHTTP.ShutdownServer` | cleanuphttp.go:60-72 | `Shutdown` is called once, with a deadline exactly when `timeout > 0`; its error is recorded and not acted on |
| `CleanupHttp.CleanupHTTP.ShutdownSequence` | cleanuphttp.go:51-72 | after `quit`: the whole pre drain, then `Shutdown`, then the whole post drain whatever `Shutdown` returned; both stacks end empty |
| `CleanupHttp.CleanupHTTP.AwaitQuit` | cleanuphttp.go:34-51 | the state and fired flag are those of `Await`; when `quit` fires the gate is closed and `quitCloses` has grown by exactly one |
| `CleanupHttp.CleanupHTTP.Serve` | cleanuphttp.go:34-73 | returns exactly when `quit` fires; its whole new state is then the state `Await` reached, with both stacks empty, and the trace gains `reverse(pre) ++ [Shutdown(timeout > 0)] ++ reverse(post)` for the stacks at the moment the gate closed; otherwise nothing runs |
| `CleanupHttp.TestScenarioTrace` | cleanuphttp_test.go:40-44 | with pre pushes `2, 1`, post pushes `4, 3` and a 5 s timeout, the shutdown trace runs the routines with arguments `1, 2`, then Shutdown with a deadline, then arguments `3, 4` |
| `CleanupHttp.TestScenario` | cleanuphttp_test.go:25-45 | the test run, against the class: any one trigger (a signal, or the server exiting by itself) produces that trace |

## Left out

- Goroutines, channels, `signal.Notify` and the mutex of `routineStack` are not modelled.
  Concurrent activity becomes one interleaving of atomic steps (`Stimulus`). The
  compare-and-swap is a plain check-and-set.
- Stimuli that arrive after `quit` fires are not interleaved with the drains.
  `ClosedStimuliInert` shows they change neither stack nor the gate; a signal can still set
  `interrupted`.
- `ListenAndServe` and `Shutdown` are foreign `net/http` calls. A server exit is a stimulus
  whose error only matters to the log. `Shutdown` is an event whose outcome
  (`shutdownFailed`) is an input.
- `context.WithTimeout` and the deferred `cancel` are foreign `context` calls. Only whether
  the context has a deadline is modelled.
- Log output from `log.Printf` and `log.Println` is not modelled.
- The unsynchronised read and write of `interrupted` is a concurrency concern. It has no
  sequential meaning.
- A routine's effects other than its calls into the same instance's push and pop API are
  not modelled. The source's `interface{}` argument is the type parameter `A`.
- Panics inside routines or `Shutdown` are not modelled. In Go the deferred post drain is
  registered only after the pre drain (cleanuphttp.go:52-53). A panic in a pre routine
  therefore skips the rest of the pre drain, `Shutdown` and the whole post drain. A panic in
  `Shutdown` still runs the post drain. A panic in a post routine skips the rest of the post
  drain. Go also accepts a nil routine, since `cleanupPush` has no nil check
  (cleanuphttp.go:101-111); a nil routine panics when the drain calls it
  (cleanuphttp.go:160), with the same consequences. A modelled `Routine` cannot be nil.
- `CleanupModel.Call`, `CleanupHttp.CleanupHTTP.CleanupPush` and
  `CleanupHttp.CleanupHTTP.CleanupPop` are each one atomic step. The window between the
  `isClosed` check and the stack operation is not modelled: cleanuphttp.go:102 then :111 for a
  push, :115 then :120 for a pop. In the source, a push that passed the check before the
  compare-and-swap can land after the gate has closed, even after the drain, and that routine
  then never runs. A pop that passed the check can likewise take a routine from a stack that is
  being drained.
- `CleanupHttp.CleanupHTTP.Cleanup`: requires the gate to be closed. In the source it is
  only reached after `quit` has fired, so this always holds. With the gate open, a routine
  that pushes onto the stack being drained could keep the loop running forever.
- The package-level `Serve`, `PreCleanupPush`, `PreCleanupPop`, `PostCleanupPush` and
  `PostCleanupPop` (cleanuphttp.go:172-201) only forward to the one default instance.
  Calling the methods on a single `CleanupHTTP` object models them. The `Server` field
  that `Serve` sets is not modelled.
- `closing` is an int32 that only ever holds 0 or 1, so its width does not matter.
  `timeout` (an int64 of nanoseconds) is an unbounded `int`; only its sign is used.
- The handleSignal goroutine and its signal subscription are never stopped in the source.
  That is a resource leak with no effect on the state modelled here.
