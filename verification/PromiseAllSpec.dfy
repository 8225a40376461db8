/** The counting protocol shared by Promise.all, allSettled and any: one element function per element,
    which user code may call at once, later, repeatedly or never, and a counter of what is missing. */
module PromiseAllSpec {
  import opened Options

  datatype Phase = Iterating | Finished | Aborted

  /** `called` has one flag per element function created; `open` says that an element was appended
      whose function does not exist yet (its promiseResolve call is running). `deliveries` are the
      calls of the final resolve (reject for any), `failures` the rejections because iteration threw,
      `calls` the calls of element functions so far. */
  datatype State<T> = State(phase: Phase, open: bool, values: seq<Option<T>>, called: seq<bool>, remaining: int,
                            deliveries: seq<seq<Option<T>>>, failures: nat, calls: seq<(nat, T)>)

  function Start<T>(): State<T> {
    State(Iterating, false, [], [], 1, [], 0, [])
  }

  datatype Label<T> = BeginElement | CreateElement | Call(index: nat, value: T) | FinishIteration | ThrowInIteration

  predicate Enabled<T>(s: State<T>, l: Label<T>) {
    match l
    case BeginElement => s.phase == Iterating && !s.open
    case CreateElement => s.phase == Iterating && s.open
    case Call(i, _) => i < |s.called|
    case FinishIteration => s.phase == Iterating && !s.open
    case ThrowInIteration => s.phase == Iterating
  }

  function CountDown<T>(s: State<T>): State<T> {
    var s1 := s.(remaining := s.remaining - 1);
    if s1.remaining == 0 then s1.(deliveries := s1.deliveries + [s1.values]) else s1
  }

  function Step<T>(s: State<T>, l: Label<T>): State<T>
    requires Enabled(s, l) && |s.called| <= |s.values|
  {
    match l
    case BeginElement => s.(values := s.values + [None], open := true)
    case CreateElement => s.(called := s.called + [false], remaining := s.remaining + 1, open := false)
    case Call(i, v) =>
      var s1 := s.(calls := s.calls + [(i, v)]);
      if s.called[i] then s1
      else CountDown(s1.(called := s.called[i := true], values := s.values[i := Some(v)]))
    case FinishIteration => CountDown(s.(phase := Finished))
    case ThrowInIteration => s.(phase := Aborted, failures := s.failures + 1)
  }

  function Uncalled(called: seq<bool>): nat {
    if called == [] then 0
    else Uncalled(called[..|called| - 1]) + (if called[|called| - 1] then 0 else 1)
  }

  /** The value of the first call of element function i. */
  function FirstCall<T>(calls: seq<(nat, T)>, i: nat): Option<T> {
    if calls == [] then None
    else
      var r := FirstCall(calls[..|calls| - 1], i);
      if r.None? && calls[|calls| - 1].0 == i then Some(calls[|calls| - 1].1) else r
  }

  /** What every step keeps. */
  ghost predicate Inv<T>(s: State<T>) {
    && |s.values| == |s.called| + (if s.open then 1 else 0)
    && (s.phase == Finished ==> !s.open)
    && s.remaining == (if s.phase == Finished then 0 else 1) + Uncalled(s.called)
    && (forall i :: 0 <= i < |s.called| ==> s.called[i] == FirstCall(s.calls, i).Some?)
    && (forall i :: 0 <= i < |s.values| ==> s.values[i] == FirstCall(s.calls, i))
    && (forall i :: |s.called| <= i ==> FirstCall(s.calls, i) == None)
    && s.deliveries == (if s.remaining == 0 then [s.values] else [])
    && s.failures == (if s.phase == Aborted then 1 else 0)
  }

  lemma {:induction false} MarkCalled(called: seq<bool>, i: nat)
    requires i < |called| && !called[i]
    ensures Uncalled(called) == Uncalled(called[i := true]) + 1
  {
    var n := |called| - 1;
    if i < n {
      MarkCalled(called[..n], i);
      assert called[i := true][..n] == called[..n][i := true];
    } else {
      assert called[i := true][..n] == called[..n];
    }
  }

  lemma {:induction false} AllCalled(called: seq<bool>)
    ensures Uncalled(called) == 0 <==> forall i :: 0 <= i < |called| ==> called[i]
  {
    if called != [] {
      var init := called[..|called| - 1];
      AllCalled(init);
      assert (forall i :: 0 <= i < |called| ==> called[i]) <==> ((forall i :: 0 <= i < |init| ==> init[i]) && called[|called| - 1]);
    }
  }

  lemma FirstCallAppend<T>(calls: seq<(nat, T)>, i: nat, v: T)
    ensures forall j: nat :: FirstCall(calls + [(i, v)], j)
                          == if FirstCall(calls, j).None? && i == j then Some(v) else FirstCall(calls, j)
  {
    assert (calls + [(i, v)])[..|calls|] == calls;
  }

  lemma CallKeepsInv<T>(s: State<T>, i: nat, v: T)
    requires Inv(s) && i < |s.called|
    ensures Inv(Step(s, Call(i, v)))
  {
    hide FirstCall, Uncalled;
    var s' := Step(s, Call(i, v));
    FirstCallAppend(s.calls, i, v);
    if !s.called[i] {
      MarkCalled(s.called, i);
      assert s.remaining >= 1;
      assert forall j :: 0 <= j < |s'.values| ==> s'.values[j] == FirstCall(s'.calls, j);
    }
  }

  lemma StepKeepsInv<T>(s: State<T>, l: Label<T>)
    requires Inv(s) && Enabled(s, l)
    ensures Inv(Step(s, l))
  {
    match l
    case BeginElement =>
    case CreateElement =>
      assert (s.called + [false])[..|s.called|] == s.called;
    case Call(i, v) => CallKeepsInv(s, i, v);
    case FinishIteration =>
    case ThrowInIteration =>
  }

  ghost predicate IsRun<T>(s: State<T>, ls: seq<Label<T>>, s': State<T>)
    requires Inv(s)
    decreases |ls|
  {
    if ls == [] then s == s'
    else Enabled(s, ls[0]) && (StepKeepsInv(s, ls[0]); IsRun(Step(s, ls[0]), ls[1..], s'))
  }

  lemma {:induction false} RunKeepsInv<T>(s: State<T>, ls: seq<Label<T>>, s': State<T>)
    requires Inv(s) && IsRun(s, ls, s')
    ensures Inv(s')
    decreases |ls|
  {
    if ls != [] {
      StepKeepsInv(s, ls[0]);
      RunKeepsInv(Step(s, ls[0]), ls[1..], s');
    }
  }

  /** In every run the result is delivered at most once: exactly when iteration has finished and every
      element function was called; it then holds for each element the value of the first call of that
      element's own function. If iteration throws, it is never delivered and the failure is reported once. */
  lemma DeliveredOnce<T>(ls: seq<Label<T>>, s: State<T>)
    requires IsRun(Start<T>(), ls, s)
    ensures s.remaining == (if s.phase == Finished then 0 else 1) + Uncalled(s.called)
    ensures |s.deliveries| == if s.phase == Finished && (forall i :: 0 <= i < |s.called| ==> s.called[i]) then 1 else 0
    ensures s.deliveries != [] ==> |s.deliveries[0]| == |s.called|
    ensures forall i :: s.deliveries != [] && 0 <= i < |s.called| ==> FirstCall(s.calls, i).Some? && s.deliveries[0][i] == FirstCall(s.calls, i)
    ensures s.phase == Aborted ==> s.deliveries == [] && s.failures == 1
  {
    RunKeepsInv(Start<T>(), ls, s);
    AllCalled(s.called);
  }
}
