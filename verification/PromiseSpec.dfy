/** Promises as a step system: resolving functions, thenable jobs, reactions, the rejection tracker and the
    job queue, with user code as an arbitrary environment that may call any resolving function at any time,
    also while the runtime is in the middle of an operation. Implements section 27.2 of ECMA-262. */
module PromiseSpec {
  import opened Options

  /** Promises, and the pairs of resolving functions, are named by their order of creation. */
  datatype Value = Undefined | Primitive(n: int) | Object(id: nat) | PromiseObject(p: nat) | SelfResolution

  predicate IsObject(v: Value) {
    v.Object? || v.PromiseObject? || v.SelfResolution?
  }

  datatype PromiseState = Pending | Fulfilled | Rejected
  datatype Operation = TrackReject | TrackHandle
  datatype Kind = FulfillReaction | RejectReaction

  /** Where a reaction delivers its result: nowhere (await), to a pair of resolving functions, or to
      functions supplied by a foreign constructor. */
  datatype Capability = NoCapability | Native(pair: nat) | Foreign

  /** id tells reactions apart; the two that are registered together have the same. */
  datatype Reaction = Reaction(capability: Capability, kind: Kind, handler: Option<nat>, id: nat)

  datatype Job = ThenableJob(promise: nat, thenable: Value, then_: nat) | ReactionJob(reaction: Reaction, argument: Value)

  /** A job in a queue. id tells jobs apart: it is the place in the history where the job was queued. */
  datatype Ticket = Ticket(id: nat, job: Job)

  /** Operations interrupted by a call into user code, and jobs being drained. */
  datatype Frame =
    | AwaitThen(promise: nat, resolution: Value)  // resolve is reading resolution.then
    | InThenable(pair: nat)                       // a thenable job is calling then
    | InHandler(reaction: Reaction)               // a reaction job is calling its handler
    | TellingReject(promise: nat, reactions: seq<Reaction>, reason: Value)  // reject is calling the tracker
    | TellingHandle(promise: nat, reaction: Reaction)  // so is the registration of a reaction
    | Draining(batch: seq<Ticket>)                // leave has taken a batch, of which this is left

  datatype Outcome<T> = Returned(value: T) | Threw(error: Value)

  /** The history; Queued names the promise whose settlement or registration caused the job. */
  datatype Event =
    | Registered(p: nat, onFulfilled: Reaction, onRejected: Reaction)
    | Settled(p: nat, state: PromiseState, value: Value)
    | Queued(p: nat, job: Job)
    | Started(ticket: Ticket)
    | Tracked(p: nat, op: Operation)

  datatype PromiseRec = PromiseRec(state: PromiseState, result: Value,
                                   fulfillReactions: seq<Reaction>, rejectReactions: seq<Reaction>, handled: bool)
  datatype Pair = Pair(promise: nat, alreadyResolved: bool)

  /** ended are the operations that threw or were interrupted, and never went on. retold are the promises of which the tracker
      was told again that they are handled, and outOfTurn those that were handled already when it returned from
      being told so. overtaken tells that a job was started while older ones were left in a batch further out. */
  datatype World = World(promises: seq<PromiseRec>, pairs: seq<Pair>, queue: seq<Ticket>, frames: seq<Frame>, log: seq<Event>,
                         ended: seq<Frame>, retold: set<nat>, outOfTurn: set<nat>, overtaken: bool)

  // ---------------------------------------------------------------- the operations

  function Emit(w: World, e: Event): World {
    w.(log := w.log + [e])
  }

  function Enqueue(w: World, p: nat, job: Job): World {
    Emit(w.(queue := w.queue + [Ticket(|w.log|, job)]), Queued(p, job))
  }

  function Trigger(w: World, p: nat, reactions: seq<Reaction>, argument: Value): World
    decreases |reactions|
  {
    if reactions == [] then w
    else Trigger(Enqueue(w, p, ReactionJob(reactions[0], argument)), p, reactions[1..], argument)
  }

  function PushFrame(w: World, f: Frame): World {
    w.(frames := w.frames + [f])
  }

  function Settle(w: World, p: nat, state: PromiseState, value: Value): World
    requires p < |w.promises|
  {
    var rec := w.promises[p];
    Emit(w.(promises := w.promises[p := PromiseRec(state, value, [], [], rec.handled)]), Settled(p, state, value))
  }

  function Reject(w: World, p: nat, reason: Value): World
    requires p < |w.promises|
  {
    var w1, reactions := Settle(w, p, Rejected, reason), w.promises[p].rejectReactions;
    if w.promises[p].handled then Trigger(w1, p, reactions, reason)
    else PushFrame(Emit(w1, Tracked(p, TrackReject)), TellingReject(p, reactions, reason))
  }

  function Fulfill(w: World, p: nat, value: Value): World
    requires p < |w.promises|
  {
    Trigger(Settle(w, p, Fulfilled, value), p, w.promises[p].fulfillReactions, value)
  }

  function NewPromise(w: World): World {
    w.(promises := w.promises + [PromiseRec(Pending, Undefined, [], [], false)],
       pairs := w.pairs + [Pair(|w.promises|, false)])
  }

  function MarkResolved(w: World, i: nat): World
    requires i < |w.pairs|
  {
    w.(pairs := w.pairs[i := w.pairs[i].(alreadyResolved := true)])
  }

  function CallResolve(w: World, i: nat, resolution: Value): World
    requires i < |w.pairs| && w.pairs[i].promise < |w.promises|
  {
    if w.pairs[i].alreadyResolved then w
    else
      var p := w.pairs[i].promise;
      var w1 := MarkResolved(w, i);
      if resolution == PromiseObject(p) then Reject(w1, p, SelfResolution)
      else if IsObject(resolution) then PushFrame(w1, AwaitThen(p, resolution))
      else Fulfill(w1, p, resolution)
  }

  function CallReject(w: World, i: nat, reason: Value): World
    requires i < |w.pairs| && w.pairs[i].promise < |w.promises|
  {
    if w.pairs[i].alreadyResolved then w else Reject(MarkResolved(w, i), w.pairs[i].promise, reason)
  }

  function PopFrame(w: World): World
    requires w.frames != []
  {
    w.(frames := w.frames[..|w.frames| - 1])
  }

  function Top(w: World): Frame
    requires w.frames != []
  {
    w.frames[|w.frames| - 1]
  }

  /** The rest of resolve, once resolution.then was read: Some is a callable, None anything else. */
  function GotThen(w: World, o: Outcome<Option<nat>>): World
    requires w.frames != [] && Top(w).AwaitThen? && Top(w).promise < |w.promises|
  {
    var f := Top(w);
    var w1 := PopFrame(w);
    match o
    case Threw(e) => Reject(w1, f.promise, e)
    case Returned(Some(then_)) => Enqueue(w1, f.promise, ThenableJob(f.promise, f.resolution, then_))
    case Returned(None) => Fulfill(w1, f.promise, f.resolution)
  }

  /** Among these, the tracker is being told, or was when it threw, that p is handled. */
  ghost predicate Telling(frames: seq<Frame>, p: nat) {
    exists i :: 0 <= i < |frames| && frames[i].TellingHandle? && frames[i].promise == p
  }

  function SetHandled(w: World, p: nat): World
    requires p < |w.promises|
  {
    w.(promises := w.promises[p := w.promises[p].(handled := true)])
  }

  ghost function AddReactions(w: World, p: nat, f: Reaction, r: Reaction): World
    requires p < |w.promises|
  {
    var rec := w.promises[p];
    var w1 := Emit(w, Registered(p, f, r));
    match rec.state
    case Pending =>
      SetHandled(w1.(promises := w1.promises[p := rec.(fulfillReactions := rec.fulfillReactions + [f],
                                                       rejectReactions := rec.rejectReactions + [r])]), p)
    case Fulfilled => SetHandled(Enqueue(w1, p, ReactionJob(f, rec.result)), p)
    case Rejected =>
      if rec.handled then SetHandled(Enqueue(w1, p, ReactionJob(r, rec.result)), p)
      else
        var w2 := w1.(retold := if Telling(w.frames, p) || Telling(w.ended, p) then w.retold + {p} else w.retold);
        PushFrame(Emit(w2, Tracked(p, TrackHandle)), TellingHandle(p, r))
  }

  /** The rest of an operation, once the tracker returned. */
  function TrackerDone(w: World): World
    requires w.frames != [] && (Top(w).TellingReject? || Top(w).TellingHandle?) && Top(w).promise < |w.promises|
  {
    match Top(w)
    case TellingReject(p, reactions, reason) => Trigger(PopFrame(w), p, reactions, reason)
    case TellingHandle(p, r) =>
      var w1 := PopFrame(w).(outOfTurn := if w.promises[p].handled then w.outOfTurn + {p} else w.outOfTurn);
      SetHandled(Enqueue(w1, p, ReactionJob(r, w.promises[p].result)), p)
  }

  /** The tracker, or leave, throws: the operation is over, and whoever it was called by goes on. */
  function Throw(w: World): World
    requires w.frames != []
  {
    PopFrame(w).(ended := w.ended + [Top(w)])
  }

  /** An error that cannot be caught ends all operations further in than the first k, and may drop the queue. */
  function Interrupt(w: World, k: nat, drop: bool): World
    requires k <= |w.frames|
  {
    w.(frames := w.frames[..k], queue := if drop then [] else w.queue,
       ended := w.ended + w.frames[k..] + if drop then [Draining(w.queue)] else [])
  }

  function Deliver(w: World, c: Capability, ok: bool, v: Value): World
    requires c.Native? ==> c.pair < |w.pairs| && w.pairs[c.pair].promise < |w.promises|
  {
    match c
    case Native(i) => if ok then CallResolve(w, i, v) else CallReject(w, i, v)
    case _ => w  // a foreign function is user code: what it does are further steps
  }

  ghost predicate ReactionOk(w: World, r: Reaction) {
    r.capability.Native? ==> r.capability.pair < |w.pairs|
  }

  ghost predicate JobOk(w: World, j: Job) {
    match j case ThenableJob(p, _, _) => p < |w.promises| case ReactionJob(r, _) => ReactionOk(w, r)
  }

  ghost predicate JobsOk(w: World, ts: seq<Ticket>) {
    forall i :: 0 <= i < |ts| ==> JobOk(w, ts[i].job)
  }

  ghost predicate FrameOk(w: World, f: Frame) {
    match f
    case AwaitThen(p, _) => p < |w.promises|
    case InThenable(i) => i < |w.pairs|
    case InHandler(r) => ReactionOk(w, r)
    case TellingReject(p, rs, _) => p < |w.promises| && forall i :: 0 <= i < |rs| ==> ReactionOk(w, rs[i])
    case TellingHandle(p, r) => p < |w.promises| && ReactionOk(w, r)
    case Draining(batch) => JobsOk(w, batch)
  }

  /** Every name in use denotes something. */
  ghost predicate Sane(w: World) {
    && (forall i :: 0 <= i < |w.pairs| ==> w.pairs[i].promise < |w.promises|)
    && JobsOk(w, w.queue)
    && (forall i :: 0 <= i < |w.frames| ==> FrameOk(w, w.frames[i]))
    && (forall i :: 0 <= i < |w.ended| ==> FrameOk(w, w.ended[i]))
    && (forall p, k :: 0 <= p < |w.promises| && 0 <= k < |w.promises[p].fulfillReactions| ==> ReactionOk(w, w.promises[p].fulfillReactions[k]))
    && (forall p, k :: 0 <= p < |w.promises| && 0 <= k < |w.promises[p].rejectReactions| ==> ReactionOk(w, w.promises[p].rejectReactions[k]))
  }

  /** The batch that the next job comes from. */
  function NextBatch(w: World): seq<Ticket>
    requires w.frames != [] && Top(w).Draining?
  {
    if Top(w).batch != [] then Top(w).batch else w.queue
  }

  /** A batch further out has jobs left. */
  ghost predicate LeftFurtherOut(frames: seq<Frame>) {
    exists i :: 0 <= i < |frames| - 1 && frames[i].Draining? && frames[i].batch != []
  }

  /** Takes the next job; if nothing of the batch is left, the queue becomes the next batch. */
  ghost function TakeJob(w: World): World
    requires w.frames != [] && Top(w).Draining? && NextBatch(w) != []
  {
    var batch := NextBatch(w);
    Emit(w.(frames := w.frames[..|w.frames| - 1] + [Draining(batch[1..])], queue := if Top(w).batch != [] then w.queue else [],
            overtaken := w.overtaken || LeftFurtherOut(w.frames)), Started(batch[0]))
  }

  function RunJob(w: World, j: Job): World
    requires j.ReactionJob? ==> var c := j.reaction.capability; c.Native? ==> c.pair < |w.pairs| && w.pairs[c.pair].promise < |w.promises|
  {
    match j
    case ThenableJob(p, _, _) => PushFrame(w.(pairs := w.pairs + [Pair(p, false)]), InThenable(|w.pairs|))
    case ReactionJob(r, argument) =>
      if r.handler.None? then Deliver(w, r.capability, r.kind == FulfillReaction, argument) else PushFrame(w, InHandler(r))
  }

  // ---------------------------------------------------------------- steps

  datatype Label =
    | DoNewPromise
    | DoResolve(pair: nat, v: Value)
    | DoReject(pair: nat, v: Value)
    | DoThen(p: nat, capability: Capability, onFulfilled: Option<nat>, onRejected: Option<nat>)
    | DoGotThen(read: Outcome<Option<nat>>)
    | DoTrackerDone
    | DoTrackerThrew
    | DoLeave      // Go code leaves the runtime: the jobs are drained
    | DoLeaveDone
    | DoLeaveThrew // a job threw: the tracker did, or a function of a foreign capability
    | DoStartJob
    | DoThenableDone(call: Outcome<()>)
    | DoHandlerDone(result: Outcome<Value>)
    | DoInterrupt(k: nat, drop: bool)

  ghost predicate Enabled(w: World, l: Label) {
    match l
    case DoNewPromise => true
    case DoResolve(i, _) => i < |w.pairs|
    case DoReject(i, _) => i < |w.pairs|
    case DoThen(p, c, _, _) => p < |w.promises| && (c.Native? ==> c.pair < |w.pairs|)
    case DoGotThen(_) => w.frames != [] && Top(w).AwaitThen?
    case DoTrackerDone => w.frames != [] && (Top(w).TellingReject? || Top(w).TellingHandle?)
    case DoTrackerThrew => w.frames != [] && (Top(w).TellingReject? || Top(w).TellingHandle?)
    case DoLeave => true
    case DoLeaveDone => w.frames != [] && Top(w) == Draining([]) && w.queue == []
    case DoLeaveThrew => w.frames != [] && Top(w).Draining?
    case DoStartJob => w.frames != [] && Top(w).Draining? && NextBatch(w) != []
    case DoThenableDone(_) => w.frames != [] && Top(w).InThenable?
    case DoHandlerDone(_) => w.frames != [] && Top(w).InHandler?
    case DoInterrupt(k, _) => k <= |w.frames|
  }

  ghost function Step(w: World, l: Label): World
    requires Sane(w) && Enabled(w, l)
  {
    match l
    case DoNewPromise => NewPromise(w)
    case DoResolve(i, v) => CallResolve(w, i, v)
    case DoReject(i, v) => CallReject(w, i, v)
    case DoThen(p, c, f, r) =>
      AddReactions(w, p, Reaction(c, FulfillReaction, f, |w.log|), Reaction(c, RejectReaction, r, |w.log|))
    case DoGotThen(o) => assert FrameOk(w, Top(w)); GotThen(w, o)
    case DoTrackerDone => assert FrameOk(w, Top(w)); TrackerDone(w)
    case DoTrackerThrew => Throw(w)
    case DoLeave => PushFrame(w, Draining([]))
    case DoLeaveDone => PopFrame(w)
    case DoLeaveThrew => Throw(w)
    case DoStartJob =>
      assert FrameOk(w, Top(w));
      assert JobOk(w, NextBatch(w)[0].job);
      RunJob(TakeJob(w), NextBatch(w)[0].job)
    case DoThenableDone(o) =>
      assert FrameOk(w, Top(w));
      (match o case Returned(_) => PopFrame(w) case Threw(e) => CallReject(PopFrame(w), Top(w).pair, e))
    case DoHandlerDone(o) =>
      assert FrameOk(w, Top(w));
      var c := Top(w).reaction.capability;
      (match o case Returned(v) => Deliver(PopFrame(w), c, true, v) case Threw(e) => Deliver(PopFrame(w), c, false, e))
    case DoInterrupt(k, drop) => Interrupt(w, k, drop)
  }

  const Empty := World([], [], [], [], [], [], {}, {}, false)
}
