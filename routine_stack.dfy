/**
  The last-in-first-out stack of cleanup routines (`routineStack` in cleanuphttp.go).
  The pure functions state what one `pop`, a run of pushes and a complete drain do to
  the contents; the class `RoutineStack` is the mutable stack, proved against them.
  The mutex that serialises access in the source is not modelled: every call here is
  one atomic step.
*/
module RoutineStacks {
  import opened Wrappers

  /** One `pop`: the top (last) element and the rest, or `None` and the same stack when it is empty. */
  function Popped<T>(s: seq<T>): (r: (Option<T>, seq<T>))
    ensures r.0.None? <==> |s| == 0
    ensures r.0.None? ==> r.1 == s
    ensures r.0.Some? ==> r.1 + [r.0.value] == s
  {
    if |s| == 0 then (None, s)
    else (Some(s[|s| - 1]), s[..|s| - 1])
  }

  /** Pushing `xs[0]`, `xs[1]`, ... one after another onto `s`. */
  ghost function PushAll<T>(s: seq<T>, xs: seq<T>): (r: seq<T>)
    ensures r == s + xs
    decreases |xs|
  {
    if |xs| == 0 then s else PushAll(s + [xs[0]], xs[1..])
  }

  /** Popping `n` times: the elements in the order they came off, and what is left. */
  ghost function PopN<T>(s: seq<T>, n: nat): (r: (seq<T>, seq<T>))
    requires n <= |s|
    ensures |r.0| == n && r.1 == s[..|s| - n]
    ensures forall k :: 0 <= k < n ==> r.0[k] == s[|s| - 1 - k]
    decreases n
  {
    if n == 0 then ([], s)
    else
      var (top, rest) := Popped(s);
      var (more, left) := PopN(rest, n - 1);
      ([top.value] + more, left)
  }

  /** Popping until `pop` reports the stack empty: the elements in the order they came off. */
  ghost function Drain<T>(s: seq<T>): seq<T>
    decreases |s|
  {
    match Popped(s)
    case (None, _) => []
    case (Some(top), rest) => [top] + Drain(rest)
  }

  /** Draining a non-empty stack: its top first, then a drain of the rest. */
  lemma DrainPop<T>(s: seq<T>)
    requires |s| > 0
    ensures Drain(s) == [s[|s| - 1]] + Drain(s[..|s| - 1])
  {
  }

  /** One more pop of a drain that has so far returned `done`. */
  lemma DrainStep<T>(s: seq<T>, done: seq<T>, left: seq<T>)
    requires |left| > 0 && Drain(s) == done + Drain(left)
    ensures Drain(s) == (done + [left[|left| - 1]]) + Drain(left[..|left| - 1])
  {
    DrainPop(left);
  }

  /** The reverse of a sequence, defined from the front, independently of `pop`. */
  ghost function Reverse<T>(s: seq<T>): (r: seq<T>)
    ensures |r| == |s|
    ensures forall k :: 0 <= k < |s| ==> r[k] == s[|s| - 1 - k]
  {
    if |s| == 0 then [] else Reverse(s[1..]) + [s[0]]
  }

  lemma {:induction false} ReverseSnoc<T>(s: seq<T>, x: T)
    ensures Reverse(s + [x]) == [x] + Reverse(s)
  {
    var r, t := Reverse(s + [x]), [x] + Reverse(s);
    assert |r| == |t|;
    forall k | 0 <= k < |r| ensures r[k] == t[k] {
      if k > 0 {
        assert (s + [x])[|s| - k] == s[|s| - 1 - (k - 1)];
      }
    }
  }

  lemma {:induction false} PopNAppended<T>(s: seq<T>, xs: seq<T>)
    ensures PopN(s + xs, |xs|) == (Reverse(xs), s)
    decreases |xs|
  {
    if |xs| > 0 {
      var init, last := xs[..|xs| - 1], xs[|xs| - 1];
      assert s + xs == (s + init) + [last];
      assert Popped(s + xs) == (Some(last), s + init);
      PopNAppended(s, init);
      assert |init| == |xs| - 1;
      assert PopN(s + init, |xs| - 1) == (Reverse(init), s);
      assert PopN(s + xs, |xs|) == ([last] + Reverse(init), s);
      assert init + [last] == xs;
      ReverseSnoc(init, last);
    } else {
      assert s + xs == s;
    }
  }

  /** LIFO law: after pushing `a1 .. an`, `n` pops return `an .. a1` and leave the stack as it was. */
  lemma LifoLaw<T>(s: seq<T>, xs: seq<T>)
    ensures PopN(PushAll(s, xs), |xs|) == (Reverse(xs), s)
  {
    PopNAppended(s, xs);
  }

  /** Popping until empty yields every element exactly once, last pushed first. */
  lemma {:induction false} DrainIsReverse<T>(s: seq<T>)
    ensures Drain(s) == Reverse(s)
    decreases |s|
  {
    if |s| > 0 {
      var init, last := s[..|s| - 1], s[|s| - 1];
      DrainIsReverse(init);
      ReverseSnoc(init, last);
      assert init + [last] == s;
    }
  }

  /** A drain returns exactly the elements of the stack: none lost, none repeated. */
  lemma DrainIsPermutation<T>(s: seq<T>)
    ensures multiset(Drain(s)) == multiset(s)
  {
    DrainIsReverse(s);
    ReverseIsPermutation(s);
  }

  lemma {:induction false} ReverseIsPermutation<T>(s: seq<T>)
    ensures multiset(Reverse(s)) == multiset(s)
    decreases |s|
  {
    if |s| > 0 {
      ReverseIsPermutation(s[1..]);
      assert s == [s[0]] + s[1..];
    }
  }

  /** The stack itself: `routines` is the slice of the source, its last element the top. */
  class RoutineStack<T> {
    var routines: seq<T>

    constructor ()
      ensures routines == []
    {
      routines := [];
    }

    /** `len`: the number of routines on the stack. */
    method Len() returns (n: int)
      ensures n == |routines|
    {
      n := |routines|;
    }

    /** `push`: the routine becomes the new top; everything below it is unchanged. */
    method Push(routine: T)
      modifies this
      ensures routines == old(routines) + [routine]
    {
      routines := routines + [routine];
    }

    /** `pop`: removes and returns the top, or returns `None` and changes nothing on an empty stack. */
    method Pop() returns (routine: Option<T>)
      modifies this
      ensures (routine, routines) == Popped(old(routines))
      ensures routine.None? <==> old(routines) == []
      ensures routine.None? ==> routines == old(routines)
      ensures routine.Some? ==> routines + [routine.value] == old(routines)
    {
      if |routines| == 0 {
        return None;
      }
      var index := |routines| - 1;
      routine := Some(routines[index]);
      routines := routines[..index];
    }
  }
}
