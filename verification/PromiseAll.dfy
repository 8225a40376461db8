/** Promise.all as the runtime has it: captured variables updated in place. Promise.allSettled differs
    in the stored value, Promise.any in storing errors and rejecting at the end. */
module PromiseAlls {
  import opened Options
  import opened Spec = PromiseAllSpec

  class PromiseAll<T> {
    var phase: Phase
    var open: bool
    var values: seq<Option<T>>
    var alreadyCalled: seq<bool>
    var remainingElementsCount: int
    var deliveries: seq<seq<Option<T>>>  // the calls of pcap.resolve
    var failures: nat                    // the calls of pcap.reject
    ghost var calls: seq<(nat, T)>

    ghost function Abs(): State<T>
      reads this
    {
      State(phase, open, values, alreadyCalled, remainingElementsCount, deliveries, failures, calls)
    }

    constructor ()
      ensures Abs() == Start<T>() && Inv(Abs())
    {
      phase, open, values, alreadyCalled := Iterating, false, [], [];
      remainingElementsCount, deliveries, failures, calls := 1, [], 0, [];
    }

    method CountDownBy1()
      modifies this
      ensures Abs() == CountDown(old(Abs()))
    {
      remainingElementsCount := remainingElementsCount - 1;
      if remainingElementsCount == 0 {
        deliveries := deliveries + [values];
      }
    }

    /** A value came from the iterator: its slot is appended, then promiseResolve runs. */
    method Begin()
      requires Inv(Abs()) && phase == Iterating && !open
      modifies this
      ensures Abs() == Step(old(Abs()), BeginElement) && Inv(Abs())
    {
      values, open := values + [None], true;
      StepKeepsInv(old(Abs()), BeginElement);
    }

    /** promiseResolve returned: the element function is created and counted, then handed to `then`. */
    method Create()
      requires Inv(Abs()) && phase == Iterating && open
      modifies this
      ensures Abs() == Step(old(Abs()), CreateElement) && Inv(Abs())
    {
      alreadyCalled := alreadyCalled + [false];
      remainingElementsCount := remainingElementsCount + 1;
      open := false;
      StepKeepsInv(old(Abs()), CreateElement);
    }

    /** The element function of position `index`. */
    method OnElement(index: nat, value: T)
      requires Inv(Abs()) && index < |alreadyCalled|
      modifies this
      ensures Abs() == Step(old(Abs()), Call(index, value)) && Inv(Abs())
    {
      assert index < |values|;
      hide Inv;
      StepKeepsInv(Abs(), Call(index, value));
      calls := calls + [(index, value)];
      if !alreadyCalled[index] {
        alreadyCalled := alreadyCalled[index := true];
        values := values[index := Some(value)];
        CountDownBy1();
      }
    }

    method Finish()
      requires Inv(Abs()) && phase == Iterating && !open
      modifies this
      ensures Abs() == Step(old(Abs()), FinishIteration) && Inv(Abs())
    {
      phase := Finished;
      CountDownBy1();
      StepKeepsInv(old(Abs()), FinishIteration);
    }

    /** Anything thrown while iterating ends in pcap.try. */
    method Fail()
      requires Inv(Abs()) && phase == Iterating
      modifies this
      ensures Abs() == Step(old(Abs()), ThrowInIteration) && Inv(Abs())
    {
      phase, failures := Aborted, failures + 1;
      StepKeepsInv(old(Abs()), ThrowInIteration);
    }
  }
}
