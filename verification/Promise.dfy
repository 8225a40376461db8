/** The promise operations in the form the runtime has them: promise objects updated in place and a
    job queue drained in batches, in arrays that are used again. Each method is proved against the step system of PromiseSpec; where it calls into
    user code or the host, it ends with a frame, and another method is the rest. */
module Promises {
  import opened Options
  import opened Spec = PromiseSpec
  import opened JobQueues
  import Proofs = PromiseProofs

  class Promise {
    var state: PromiseState
    var result: Value
    var fulfillReactions: seq<Reaction>
    var rejectReactions: seq<Reaction>
    var handled: bool

    constructor ()
      ensures Rec() == PromiseRec(Pending, Undefined, [], [], false)
    {
      state, result, fulfillReactions, rejectReactions, handled := Pending, Undefined, [], [], false;
    }

    ghost function Rec(): PromiseRec
      reads this
    {
      PromiseRec(state, result, fulfillReactions, rejectReactions, handled)
    }
  }

  /** How many calls of leave are in progress. */
  ghost function Drains(fs: seq<Frame>): nat {
    if fs == [] then 0 else Drains(fs[..|fs| - 1]) + if fs[|fs| - 1].Draining? then 1 else 0
  }

  /** The frames with what is left of the batches put in. */
  ghost function Fill(fs: seq<Frame>, left: seq<seq<Ticket>>): (r: seq<Frame>)
    requires Drains(fs) == |left|
    ensures |r| == |fs| && forall i :: 0 <= i < |fs| ==> if fs[i].Draining? then r[i].Draining? else r[i] == fs[i]
  {
    if fs == [] then []
    else
      var init, f, n := fs[..|fs| - 1], fs[|fs| - 1], |left| - 1;
      if f.Draining? then Fill(init, left[..n]) + [Draining(left[n])] else Fill(init, left) + [f]
  }

  lemma FillPush(fs: seq<Frame>, left: seq<seq<Ticket>>, f: Frame, b: seq<Ticket>)
    requires Drains(fs) == |left|
    ensures !f.Draining? ==> Drains(fs + [f]) == |left| && Fill(fs + [f], left) == Fill(fs, left) + [f]
    ensures f.Draining? ==> Drains(fs + [f]) == |left + [b]| && Fill(fs + [f], left + [b]) == Fill(fs, left) + [Draining(b)]
  {
    assert (fs + [f])[..|fs|] == fs && (left + [b])[..|left|] == left;
  }

  lemma FillPop(fs: seq<Frame>, left: seq<seq<Ticket>>)
    requires Drains(fs) == |left| && fs != []
    ensures var n := |fs| - 1;
      if fs[n].Draining? then
        && left != [] && Drains(fs[..n]) == |left[..|left| - 1]| && Fill(fs, left)[n] == Draining(left[|left| - 1])
        && Fill(fs[..n], left[..|left| - 1]) == Fill(fs, left)[..n]
      else Drains(fs[..n]) == |left| && Fill(fs[..n], left) == Fill(fs, left)[..n]
  {
  }

  /** Another batch on top. */
  lemma FillTop(fs: seq<Frame>, left: seq<seq<Ticket>>, b: seq<Ticket>)
    requires Drains(fs) == |left| && fs != [] && fs[|fs| - 1].Draining?
    ensures left != [] && Fill(fs, left)[|fs| - 1] == Draining(left[|left| - 1])
    ensures var left' := left[..|left| - 1] + [b];
      Drains(fs) == |left'| && Fill(fs, left') == Fill(fs, left)[..|fs| - 1] + [Draining(b)]
  {
    var n := |fs| - 1;
    FillPop(fs, left);
    FillPush(fs[..n], left[..|left| - 1], fs[n], b);
    assert fs == fs[..n] + [fs[n]];
  }

  lemma {:induction false} FillCut(fs: seq<Frame>, left: seq<seq<Ticket>>, k: nat)
    requires Drains(fs) == |left| && k <= |fs|
    ensures var n := Drains(fs[..k]); n <= |left| && Fill(fs[..k], left[..n]) == Fill(fs, left)[..k]
  {
    if k == |fs| {
      assert fs[..k] == fs && left[..|left|] == left;
    } else {
      var init := fs[..|fs| - 1];
      FillPop(fs, left);
      assert init[..k] == fs[..k];
      if fs[|fs| - 1].Draining? {
        var rest := left[..|left| - 1];
        FillCut(init, rest, k);
        assert rest[..Drains(fs[..k])] == left[..Drains(fs[..k])];
      } else {
        FillCut(init, left, k);
      }
    }
  }

  class Runtime {
    var promises: seq<Promise>
    var pairs: seq<Pair>       // the alreadyResolved variables captured by resolving functions
    const jobs: JobQueue
    var frames: seq<Frame>     // the batches being drained are in jobs
    var events: nat            // what has happened so far, which names jobs and reactions
    ghost var table: set<Promise>  // the elements of `promises`
    ghost var log: seq<Event>
    ghost var stack: seq<Frame>    // the frames with their batches
    ghost var ended: seq<Frame>
    ghost var retold: set<nat>
    ghost var outOfTurn: set<nat>
    ghost var overtaken: bool

    ghost predicate Valid()
      reads this, jobs, jobs.Repr
    {
      Core() && Apart() && Linked()
    }

    ghost predicate Apart()
      reads this`table, jobs`Repr
    {
      this !in jobs.Repr && table !! jobs.Repr
    }

    ghost predicate Core()
      reads this
    {
      && (forall i :: 0 <= i < |promises| ==> promises[i] in table)
      && (forall i, j :: 0 <= i < j < |promises| ==> promises[i] != promises[j])
      && events == |log|
      && |stack| == |frames| && forall i :: 0 <= i < |frames| ==> if frames[i].Draining? then stack[i].Draining? else stack[i] == frames[i]
    }

    ghost predicate Linked()
      reads this`frames, this`stack, jobs, jobs.Repr
    {
      && jobs.Valid()
      && Drains(frames) == |jobs.left| && stack == Fill(frames, jobs.left)
    }

    ghost function Recs(ps: seq<Promise>, t: set<Promise>): (rs: seq<PromiseRec>)
      requires forall i :: 0 <= i < |ps| ==> ps[i] in t
      reads t
      ensures |rs| == |ps| && forall i :: 0 <= i < |ps| ==> rs[i] == ps[i].Rec()
    {
      seq(|ps|, i requires 0 <= i < |ps| && ps[i] in t reads t => ps[i].Rec())
    }

    ghost function Abs(): World
      requires Core()
      reads this, table, jobs`queue
    {
      World(Recs(promises, table), pairs, jobs.queue, stack, log, ended, retold, outOfTurn, overtaken)
    }

    constructor ()
      ensures Valid() && Abs() == Empty && fresh(table) && fresh(jobs.Repr)
    {
      promises, pairs, frames, events := [], [], [], 0;
      table, log, stack, ended, retold, outOfTurn, overtaken := {}, [], [], [], {}, {}, false;
      jobs := new JobQueue();
    }

    method Push(f: Frame)
      requires Valid() && !f.Draining?
      modifies this`frames, this`stack
      ensures Valid() && Abs() == PushFrame(old(Abs()), f)
    {
      FillPush(frames, jobs.left, f, []);
      frames, stack := frames + [f], stack + [f];
    }

    method Pop()
      requires Valid() && frames != [] && !frames[|frames| - 1].Draining?
      modifies this`frames, this`stack
      ensures Valid() && Abs() == PopFrame(old(Abs())) && frames == old(frames)[..|old(frames)| - 1]
    {
      FillPop(frames, jobs.left);
      frames, stack := frames[..|frames| - 1], stack[..|frames| - 1];
    }

    method EnqueuePromiseJob(ghost p: nat, job: Job)
      requires Valid()
      modifies this`log, this`events, jobs.Repr
      ensures Valid() && Abs() == Enqueue(old(Abs()), p, job) && fresh(jobs.Repr - old(jobs.Repr))
    {
      jobs.Append(Ticket(events, job));
      log, events := log + [Queued(p, job)], events + 1;
    }

    method TriggerPromiseReactions(ghost p: nat, reactions: seq<Reaction>, argument: Value)
      requires Valid()
      modifies this`log, this`events, jobs.Repr
      ensures Valid() && Abs() == Trigger(old(Abs()), p, reactions, argument) && fresh(jobs.Repr - old(jobs.Repr))
    {
      for i := 0 to |reactions|
        invariant Valid() && fresh(jobs.Repr - old(jobs.Repr))
        invariant Trigger(old(Abs()), p, reactions, argument) == Trigger(Abs(), p, reactions[i..], argument)
      {
        assert reactions[i..][1..] == reactions[i + 1..];
        EnqueuePromiseJob(p, ReactionJob(reactions[i], argument));
      }
    }

    /** Calls the tracker, which may do anything before it returns to the operation in the frame. */
    method TrackPromiseRejection(ghost p: nat, ghost op: Operation, f: Frame)
      requires Valid() && !f.Draining?
      modifies this`log, this`events, this`frames, this`stack
      ensures Valid() && Abs() == PushFrame(Emit(old(Abs()), Tracked(p, op)), f)
    {
      Push(f);
      log, events := log + [Tracked(p, op)], events + 1;
    }

    /** Overwrites one promise object; the rest of the table keeps its contents. */
    method SettleObject(p: nat, state: PromiseState, value: Value)
      requires Valid() && p < |promises|
      modifies table, this`log, this`events
      ensures Valid() && Abs() == Settle(old(Abs()), p, state, value)
    {
      var o := promises[p];
      o.result := value;
      o.fulfillReactions, o.rejectReactions := [], [];
      o.state := state;
      log, events := log + [Settled(p, state, value)], events + 1;
      assert Recs(promises, table) == old(Recs(promises, table))[p := PromiseRec(state, value, [], [], old(promises[p].handled))];
    }

    /** Promise.reject, up to the call of the tracker if there is one. */
    method RejectPromise(p: nat, reason: Value)
      requires Valid() && p < |promises|
      modifies table, this`log, this`events, jobs.Repr, this`frames, this`stack
      ensures fresh(jobs.Repr - old(jobs.Repr))
      ensures Valid() && Abs() == Reject(old(Abs()), p, reason)
    {
      hide Settle, Trigger;
      var reactions := promises[p].rejectReactions;
      SettleObject(p, Rejected, reason);
      assert Abs().promises[p].handled == old(promises[p].handled) by { SettleFact(old(Abs()), p, reason); }
      if !promises[p].handled {
        TrackPromiseRejection(p, TrackReject, TellingReject(p, reactions, reason));
      } else {
        TriggerPromiseReactions(p, reactions, reason);
      }
    }

    lemma SettleFact(w: World, p: nat, reason: Value)
      requires p < |w.promises|
      ensures var w' := Settle(w, p, Rejected, reason); |w'.promises| == |w.promises| && w'.promises[p].handled == w.promises[p].handled
    {
    }

    /** The rest of reject or of addReactions, once the tracker returned. */
    method TrackerReturned()
      requires Valid() && frames != [] && (frames[|frames| - 1].TellingReject? || frames[|frames| - 1].TellingHandle?)
      requires frames[|frames| - 1].promise < |promises|
      modifies table, this`log, this`events, jobs.Repr, this`frames, this`stack, this`outOfTurn
      ensures fresh(jobs.Repr - old(jobs.Repr))
      ensures Valid() && Abs() == TrackerDone(old(Abs()))
    {
      hide SetHandled, Linked;
      var f := frames[|frames| - 1];
      Pop();
      match f {
        case TellingReject(p, reactions, reason) => TriggerPromiseReactions(p, reactions, reason);
        case TellingHandle(p, r) =>
          outOfTurn := if promises[p].handled then outOfTurn + {p} else outOfTurn;
          EnqueuePromiseJob(p, ReactionJob(r, promises[p].result));
          MarkHandled(p);
      }
    }

    method FulfillPromise(p: nat, value: Value)
      requires Valid() && p < |promises|
      modifies table, this`log, this`events, jobs.Repr
      ensures fresh(jobs.Repr - old(jobs.Repr))
      ensures Valid() && Abs() == Fulfill(old(Abs()), p, value)
    {
      hide Settle, Trigger;
      var reactions := promises[p].fulfillReactions;
      SettleObject(p, Fulfilled, value);
      TriggerPromiseReactions(p, reactions, value);
    }

    /** newPromise and createResolvingFunctions. */
    method CreatePromise() returns (p: nat)
      requires Valid()
      modifies this`promises, this`pairs, this`table
      ensures Valid() && Abs() == NewPromise(old(Abs())) && p == |old(promises)|
      ensures fresh(table - old(table))
    {
      p := |promises|;
      var o := new Promise();
      promises, pairs, table := promises + [o], pairs + [Pair(p, false)], table + {o};
      assert Recs(promises, table) == old(Recs(promises, table)) + [o.Rec()];
    }

    /** The resolve function of a pair, up to the point where it reads the property `then`. */
    method Resolve(i: nat, resolution: Value)
      requires Valid() && i < |pairs| && pairs[i].promise < |promises|
      modifies this`pairs, this`frames, this`stack, table, this`log, this`events, jobs.Repr
      ensures fresh(jobs.Repr - old(jobs.Repr))
      ensures Valid() && Abs() == CallResolve(old(Abs()), i, resolution)
    {
      hide Reject, Fulfill;
      if pairs[i].alreadyResolved {
        return;
      }
      var p := pairs[i].promise;
      pairs := pairs[i := pairs[i].(alreadyResolved := true)];
      if resolution == PromiseObject(p) {
        RejectPromise(p, SelfResolution);
        return;
      }
      if IsObject(resolution) {
        Push(AwaitThen(p, resolution));
        return;
      }
      FulfillPromise(p, resolution);
    }

    /** The rest of resolve: reading `then` threw, gave a callable, or gave something else. */
    method ResolveGotThen(o: Outcome<Option<nat>>)
      requires Valid() && frames != [] && frames[|frames| - 1].AwaitThen? && frames[|frames| - 1].promise < |promises|
      modifies this`frames, this`stack, table, this`log, this`events, jobs.Repr
      ensures fresh(jobs.Repr - old(jobs.Repr))
      ensures Valid() && Abs() == GotThen(old(Abs()), o)
    {
      hide Reject, Fulfill;
      var f := frames[|frames| - 1];
      Pop();
      match o {
        case Threw(e) => RejectPromise(f.promise, e);
        case Returned(Some(then_)) => EnqueuePromiseJob(f.promise, ThenableJob(f.promise, f.resolution, then_));
        case Returned(None) => FulfillPromise(f.promise, f.resolution);
      }
    }

    /** The reject function of a pair. */
    method RejectWith(i: nat, reason: Value)
      requires Valid() && i < |pairs| && pairs[i].promise < |promises|
      modifies this`pairs, this`frames, this`stack, table, this`log, this`events, jobs.Repr
      ensures fresh(jobs.Repr - old(jobs.Repr))
      ensures Valid() && Abs() == CallReject(old(Abs()), i, reason)
    {
      hide Reject;
      if pairs[i].alreadyResolved {
        return;
      }
      pairs := pairs[i := pairs[i].(alreadyResolved := true)];
      RejectPromise(pairs[i].promise, reason);
    }

    /** Writes one promise object, as the reference model does. */
    lemma TableUpdate(p: nat, old_: seq<PromiseRec>)
      requires Valid() && p < |promises| == |old_|
      requires forall i :: 0 <= i < |promises| && i != p ==> promises[i].Rec() == old_[i]
      ensures Recs(promises, table) == old_[p := promises[p].Rec()]
    {
    }

    method Announce(ghost p: nat, ghost f: Reaction, ghost r: Reaction)
      requires Valid()
      modifies this`log, this`events
      ensures Valid() && Abs() == Emit(old(Abs()), Registered(p, f, r))
    {
      log, events := log + [Registered(p, f, r)], events + 1;
    }

    /** Notes that the tracker is told again. */
    method Retell(ghost p: nat)
      requires Valid()
      modifies this`retold
      ensures Valid()
      ensures var w := old(Abs());
        Abs() == w.(retold := if Telling(w.frames, p) || Telling(w.ended, p) then w.retold + {p} else w.retold)
    {
      hide Telling;
      ghost var w := Abs();
      retold := if Telling(w.frames, p) || Telling(w.ended, p) then retold + {p} else retold;
    }

    method MarkHandled(p: nat)
      requires Valid() && p < |promises|
      modifies table
      ensures Valid() && Abs() == SetHandled(old(Abs()), p)
    {
      ghost var recs := Recs(promises, table);
      promises[p].handled := true;
      TableUpdate(p, recs);
    }

    /** Reactions of a pending promise wait in its lists. */
    method AppendReactions(p: nat, f: Reaction, r: Reaction)
      requires Valid() && p < |promises|
      modifies table
      ensures Valid()
      ensures var w := old(Abs());
        Abs() == w.(promises := w.promises[p := w.promises[p].(fulfillReactions := w.promises[p].fulfillReactions + [f],
                                                               rejectReactions := w.promises[p].rejectReactions + [r])])
    {
      ghost var recs := Recs(promises, table);
      var o := promises[p];
      o.fulfillReactions := o.fulfillReactions + [f];
      o.rejectReactions := o.rejectReactions + [r];
      TableUpdate(p, recs);
    }

    /** addReactions, up to the call of the tracker if there is one. */
    method Then(p: nat, f: Reaction, r: Reaction)
      requires Valid() && p < |promises|
      modifies table, this`log, this`events, jobs.Repr, this`frames, this`stack, this`retold
      ensures fresh(jobs.Repr - old(jobs.Repr))
      ensures Valid() && Abs() == AddReactions(old(Abs()), p, f, r)
    {
      hide Telling, SetHandled;
      var o := promises[p];
      Announce(p, f, r);
      match o.state {
        case Pending =>
          AppendReactions(p, f, r);
        case Fulfilled =>
          EnqueuePromiseJob(p, ReactionJob(f, o.result));
        case Rejected =>
          if !o.handled {
            Retell(p);
            TrackPromiseRejection(p, TrackHandle, TellingHandle(p, r));
            return;
          }
          EnqueuePromiseJob(p, ReactionJob(r, o.result));
      }
      MarkHandled(p);
    }

    method DeliverTo(c: Capability, ok: bool, v: Value)
      requires Valid() && (c.Native? ==> c.pair < |pairs| && pairs[c.pair].promise < |promises|)
      modifies this`pairs, this`frames, this`stack, table, this`log, this`events, jobs.Repr
      ensures fresh(jobs.Repr - old(jobs.Repr))
      ensures Valid() && Abs() == Deliver(old(Abs()), c, ok, v)
    {
      hide CallResolve, CallReject;
      match c {
        case Native(i) =>
          if ok {
            Resolve(i, v);
          } else {
            RejectWith(i, v);
          }
        case _ =>
      }
    }

    /** Runtime.leave, up to its first job. */
    method Leave()
      requires Valid()
      modifies this`frames, this`stack, jobs.Repr
      ensures fresh(jobs.Repr - old(jobs.Repr))
      ensures Valid() && Abs() == PushFrame(old(Abs()), Draining([]))
    {
      hide Fill, Drains;
      FillPush(frames, jobs.left, Draining([]), []);
      frames, stack := frames + [Draining([])], stack + [Draining([])];
      jobs.Enter();
    }

    /** The end of leave, when no job is left. */
    method LeaveDone()
      requires Valid() && frames != [] && Top(Abs()) == Draining([]) && Abs().queue == []
      modifies this`frames, this`stack, jobs.Repr
      ensures fresh(jobs.Repr - old(jobs.Repr))
      ensures Valid() && Abs() == PopFrame(old(Abs()))
    {
      hide Fill, Drains;
      FillPop(frames, jobs.left);
      frames, stack := frames[..|frames| - 1], stack[..|frames| - 1];
      jobs.Exit();
    }

    /** leave takes the next job of its batch; after the last, it takes the whole queue as its next batch, and the array of
        the one before is the next queue. */
    method NextJob() returns (t: Ticket)
      requires Valid() && frames != [] && frames[|frames| - 1].Draining? && NextBatch(Abs()) != []
      modifies jobs.Repr, this`stack, this`log, this`events, this`overtaken
      ensures fresh(jobs.Repr - old(jobs.Repr))
      ensures Valid() && Abs() == TakeJob(old(Abs())) && t == NextBatch(old(Abs()))[0]
    {
      hide LeftFurtherOut, Linked;
      overtaken := overtaken || LeftFurtherOut(Abs().frames);
      t := TakeTicket();
      log, events := log + [Started(t)], events + 1;
    }

    method TakeTicket() returns (t: Ticket)
      requires Valid() && frames != [] && frames[|frames| - 1].Draining? && NextBatch(Abs()) != []
      modifies jobs.Repr, this`stack
      ensures fresh(jobs.Repr - old(jobs.Repr)) && Valid()
      ensures var w := old(Abs()); var b := NextBatch(w);
        t == b[0] && Abs() == w.(frames := w.frames[..|w.frames| - 1] + [Draining(b[1..])], queue := if Top(w).batch != [] then w.queue else [])
    {
      hide Fill, Drains;
      FillTop(frames, jobs.left, NextBatch(Abs())[1..]);
      ghost var s := stack[..|stack| - 1] + [Draining(NextBatch(Abs())[1..])];
      t := jobs.Next();
      stack := s;
    }

    /** A job up to its first call into user code. */
    method RunJob(job: Job)
      requires Valid() && JobOk(Abs(), job) && forall i :: 0 <= i < |pairs| ==> pairs[i].promise < |promises|
      modifies this`pairs, this`frames, this`stack, table, this`log, this`events, jobs.Repr
      ensures fresh(jobs.Repr - old(jobs.Repr))
      ensures Valid() && Abs() == Spec.RunJob(old(Abs()), job)
    {
      hide Deliver;
      match job {
        case ThenableJob(p, _, _) =>
          pairs := pairs + [Pair(p, false)];
          Push(InThenable(|pairs| - 1));
        case ReactionJob(r, argument) =>
          if r.handler.None? {
            DeliverTo(r.capability, r.kind == FulfillReaction, argument);
          } else {
            Push(InHandler(r));
          }
      }
    }

    /** The rest of a job, once its call into user code came back. */
    method FinishThenable(o: Outcome<()>)
      requires Valid() && frames != [] && frames[|frames| - 1].InThenable?
      requires frames[|frames| - 1].pair < |pairs| && pairs[frames[|frames| - 1].pair].promise < |promises|
      modifies this`pairs, this`frames, this`stack, table, this`log, this`events, jobs.Repr
      ensures fresh(jobs.Repr - old(jobs.Repr))
      ensures Valid()
      ensures Abs() == match o
                       case Returned(_) => PopFrame(old(Abs()))
                       case Threw(e) => CallReject(PopFrame(old(Abs())), old(frames[|frames| - 1].pair), e)
    {
      hide CallReject;
      var f := frames[|frames| - 1];
      Pop();
      if o.Threw? {
        RejectWith(f.pair, o.error);
      }
    }

    method FinishHandler(o: Outcome<Value>)
      requires Valid() && frames != [] && frames[|frames| - 1].InHandler?
      requires var c := frames[|frames| - 1].reaction.capability;
               c.Native? ==> c.pair < |pairs| && pairs[c.pair].promise < |promises|
      modifies this`pairs, this`frames, this`stack, table, this`log, this`events, jobs.Repr
      ensures fresh(jobs.Repr - old(jobs.Repr))
      ensures Valid()
      ensures var c := old(frames[|frames| - 1].reaction.capability);
              Abs() == match o
                       case Returned(v) => Deliver(PopFrame(old(Abs())), c, true, v)
                       case Threw(e) => Deliver(PopFrame(old(Abs())), c, false, e)
    {
      hide Deliver;
      var f := frames[|frames| - 1];
      Pop();
      match o {
        case Returned(v) => DeliverTo(f.reaction.capability, true, v);
        case Threw(e) => DeliverTo(f.reaction.capability, false, e);
      }
    }

    /** Operations further in than the first k never go on, because of an uncatchable error, which drops the queue if it gets
        out of the runtime. */
    method LeaveAbrupt(k: nat, drop: bool)
      requires Valid() && k <= |frames|
      modifies jobs.Repr, this`frames, this`stack, this`ended
      ensures fresh(jobs.Repr - old(jobs.Repr))
      ensures Valid() && Abs() == Interrupt(old(Abs()), k, drop)
    {
      hide Fill, Drains;
      ghost var w := Abs();
      FillCut(frames, jobs.left, k);
      var n := CountDrains(frames[..k]);
      frames, stack := frames[..k], stack[..k];
      jobs.Cut(n, drop);
      ended := w.ended + w.frames[k..] + if drop then [Draining(w.queue)] else [];
    }

    method CountDrains(fs: seq<Frame>) returns (n: nat)
      ensures n == Drains(fs)
    {
      n := 0;
      for i := 0 to |fs|
        invariant n == Drains(fs[..i])
      {
        assert fs[..i + 1][..i] == fs[..i];
        n := n + if fs[i].Draining? then 1 else 0;
      }
      assert fs[..|fs|] == fs;
    }

    /** The tracker threw. */
    method TrackerThrew()
      requires Valid() && frames != [] && (frames[|frames| - 1].TellingReject? || frames[|frames| - 1].TellingHandle?)
      modifies this`frames, this`stack, this`ended
      ensures Valid() && Abs() == Throw(old(Abs()))
    {
      hide Fill, Drains;
      ended := ended + [frames[|frames| - 1]];
      Pop();
    }

    /** A job threw, which leave does not catch: what is left of its batch is lost. */
    method LeaveThrew()
      requires Valid() && frames != [] && frames[|frames| - 1].Draining?
      modifies this`frames, this`stack, this`ended, jobs.Repr
      ensures fresh(jobs.Repr - old(jobs.Repr))
      ensures Valid() && Abs() == Throw(old(Abs()))
    {
      hide Fill, Drains;
      FillPop(frames, jobs.left);
      ended := ended + [Top(Abs())];
      frames, stack := frames[..|frames| - 1], stack[..|frames| - 1];
      jobs.Cut(|jobs.batches| - 1, false);
    }

    /** Any step keeps the invariant, and no settled promise object changes. */
    method Perform(l: Label)
      requires Valid() && Proofs.Inv(Abs(), None) && Enabled(Abs(), l)
      modifies this, table, jobs.Repr
      ensures fresh(jobs.Repr - old(jobs.Repr))
      ensures Valid() && Abs() == Step(old(Abs()), l) && Proofs.Inv(Abs(), None)
      ensures forall p :: 0 <= p < |old(promises)| && old(promises[p].state) != Pending ==>
                p < |promises| && promises[p].state == old(promises[p].state) && promises[p].result == old(promises[p].result)
    {
      ghost var w := Abs();
      Proofs.StepKeepsInv(w, l);
      hide Proofs.Inv;
      PerformStep(l);
      hide Step, Enabled;
      forall p: nat | p < |w.promises| && w.promises[p].state != Pending
        ensures p < |Abs().promises| && Abs().promises[p].state == w.promises[p].state && Abs().promises[p].result == w.promises[p].result
      {
        Proofs.StepLeavesSettled(w, l, p);
      }
    }

    method PerformStep(l: Label)
      requires Valid() && Sane(Abs()) && Enabled(Abs(), l)
      modifies this, table, jobs.Repr
      ensures fresh(jobs.Repr - old(jobs.Repr))
      ensures Valid() && Abs() == Step(old(Abs()), l)
    {
      hide Linked, NewPromise, CallResolve, CallReject, AddReactions, GotThen, TakeJob, Spec.RunJob, Deliver, TrackerDone;
      ghost var w := Abs();
      match l {
        case DoNewPromise => var _ := CreatePromise();
        case DoResolve(i, v) => Resolve(i, v);
        case DoReject(i, v) => RejectWith(i, v);
        case DoThen(p, c, f, r) => Then(p, Reaction(c, FulfillReaction, f, events), Reaction(c, RejectReaction, r, events));
        case DoGotThen(o) => assert FrameOk(w, Top(w)); ResolveGotThen(o);
        case DoTrackerDone => assert FrameOk(w, Top(w)); TrackerReturned();
        case DoTrackerThrew => TrackerThrew();
        case DoLeave => Leave();
        case DoLeaveDone => LeaveDone();
        case DoLeaveThrew => LeaveThrew();
        case DoStartJob =>
          Proofs.TakeJobNames(w);
          TakenPairs(w);
          var t := NextJob();
          RunJob(t.job);
        case DoThenableDone(o) => assert FrameOk(w, Top(w)); FinishThenable(o);
        case DoHandlerDone(o) => assert FrameOk(w, Top(w)); FinishHandler(o);
        case DoInterrupt(k, drop) => LeaveAbrupt(k, drop);
      }
    }

    lemma TakenPairs(w: World)
      requires w.frames != [] && Top(w).Draining? && NextBatch(w) != []
      ensures TakeJob(w).pairs == w.pairs && TakeJob(w).promises == w.promises
    {
      hide LeftFurtherOut;
    }
  }
}
