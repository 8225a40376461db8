/** The queue of jobs and the batches being drained, as slices of arrays that are used again: leave takes the array of the
    queue as its next batch, and leaves the array of the batch before for jobs to come. */
module JobQueues {
  import opened PromiseSpec

  /** What is left of a batch: the part of its array from next to end. */
  datatype Batch = Batch(arr: array<Ticket>, next: nat, end: nat)

  class JobQueue {
    var buf: array<Ticket>
    var len: nat
    var batches: seq<Batch>  // of the calls of leave in progress, innermost last
    ghost var queue: seq<Ticket>       // the jobs in the queue
    ghost var left: seq<seq<Ticket>>   // and what is left of each batch
    ghost var Repr: set<object>

    /** No array is used twice. */
    ghost predicate Valid()
      reads this, Repr
      ensures Valid() ==> this in Repr
    {
      && this in Repr && buf in Repr
      && len <= buf.Length && queue == buf[..len]
      && |left| == |batches|
      && (forall i :: 0 <= i < |batches| ==> batches[i].arr in Repr && batches[i].arr != buf)
      && (forall i, j :: 0 <= i < j < |batches| ==> batches[i].arr != batches[j].arr)
      && forall i :: 0 <= i < |batches| ==>
           var b := batches[i];
           b.next <= b.end <= b.arr.Length && left[i] == b.arr[b.next..b.end]
    }

    constructor ()
      ensures Valid() && queue == [] && left == [] && fresh(Repr)
    {
      buf := new Ticket[0];
      len, batches, queue, left := 0, [], [], [];
      new;
      Repr := {this, buf};
    }

    /** append, which takes another array if this one is full. */
    method Append(t: Ticket)
      requires Valid()
      modifies Repr
      ensures Valid() && fresh(Repr - old(Repr))
      ensures queue == old(queue) + [t] && left == old(left)
    {
      if len == buf.Length {
        var s := buf[..len] + [t];
        buf := new Ticket[2 * |s|](i => if 0 <= i < |s| then s[i] else t);
        Repr := Repr + {buf};
      } else {
        buf[len] := t;
      }
      len := len + 1;
      queue := queue + [t];
    }

    /** The beginning of leave. */
    method Enter()
      requires Valid()
      modifies Repr
      ensures Valid() && fresh(Repr - old(Repr))
      ensures queue == old(queue) && left == old(left) + [[]]
    {
      var a := new Ticket[0];
      batches, left, Repr := batches + [Batch(a, 0, 0)], left + [[]], Repr + {a};
    }

    /** The next job of the innermost batch; after the last, queue and batch change places. */
    method Next() returns (t: Ticket)
      requires Valid() && left != [] && (left[|left| - 1] != [] || queue != [])
      modifies Repr
      ensures Valid() && Repr == old(Repr)
      ensures var n := |old(left)| - 1;
        var b := if old(left)[n] != [] then old(left)[n] else old(queue);
        t == b[0] && left == old(left)[..n] + [b[1..]] && queue == if old(left)[n] != [] then old(queue) else []
    {
      var n := |batches| - 1;
      if batches[n].next == batches[n].end {
        var spare := batches[n].arr;
        batches := batches[n := Batch(buf, 0, len)];
        buf, len, left, queue := spare, 0, left[n := queue], [];
      }
      var b := batches[n];
      t := b.arr[b.next];
      batches, left := batches[n := b.(next := b.next + 1)], left[..n] + [left[n][1..]];
    }

    /** The end of leave. */
    method Exit()
      requires Valid() && left != [] && left[|left| - 1] == [] && queue == []
      modifies Repr
      ensures Valid() && fresh(Repr - old(Repr))
      ensures queue == [] && left == old(left)[..|old(left)| - 1]
    {
      var n := |batches| - 1;
      batches, left := batches[..n], left[..n];
      buf := new Ticket[0];
      len, Repr := 0, Repr + {buf};
    }

    /** Some calls of leave have come to an end before their batches did, and the queue may be dropped. */
    method Cut(n: nat, drop: bool)
      requires Valid() && n <= |left|
      modifies Repr
      ensures Valid() && fresh(Repr - old(Repr))
      ensures queue == (if drop then [] else old(queue)) && left == old(left)[..n]
    {
      batches, left := batches[..n], left[..n];
      if drop {
        buf := new Ticket[0];
        len, queue, Repr := 0, [], Repr + {buf};
      }
    }
  }
}
