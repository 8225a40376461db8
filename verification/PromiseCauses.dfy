/** Where settlements come from: what calls of resolving functions, and what reads of `then`, make of a promise. */
module PromiseCauses {
  import opened Options
  import opened PromiseSpec
  import opened PromiseProofs

  /** What happens to a promise. A call is of a resolving function whose pair was not used before, whoever calls it: user code,
      the result of a handler, a thenable job that throws, or a reaction without a handler, which passes on the state
      of its promise. */
  datatype Cause =
    | ResolveCalled(p: nat, v: Value)
    | RejectCalled(p: nat, v: Value)
    | ThenRead(p: nat, v: Value, read: Outcome<Option<nat>>)  // resolve, called with v, read v.then
    | ThenCalled(p: nat, capability: Capability, onFulfilled: Option<nat>, onRejected: Option<nat>)

  ghost predicate Unused(w: World, i: nat, p: nat) {
    i < |w.pairs| && w.pairs[i] == Pair(p, false)
  }

  /** The next job is a reaction without a handler to a promise that is in this state, with v, and its result goes to pair i. */
  ghost predicate PassesOn(w: World, l: Label, i: nat, state: PromiseState, v: Value)
    requires Enabled(w, l)
  {
    l.DoStartJob? &&
    var t := NextBatch(w)[0];
    && t.job.ReactionJob? && t.job.reaction.handler.None? && t.job.reaction.capability == Native(i)
    && t.id < |w.log| && w.log[t.id].Queued? && w.log[t.id].job == t.job
    && var q := w.log[t.id].p;
       q < |w.promises| && w.promises[q].state == state && w.promises[q].result == v
  }

  ghost predicate Resolves(w: World, l: Label, i: nat, v: Value)
    requires Enabled(w, l)
  {
    || l == DoResolve(i, v)
    || (l == DoHandlerDone(Returned(v)) && Top(w).reaction.capability == Native(i))
    || PassesOn(w, l, i, Fulfilled, v)
  }

  ghost predicate Rejects(w: World, l: Label, i: nat, v: Value)
    requires Enabled(w, l)
  {
    || l == DoReject(i, v)
    || (l == DoHandlerDone(Threw(v)) && Top(w).reaction.capability == Native(i))
    || (l == DoThenableDone(Threw(v)) && Top(w).pair == i)
    || PassesOn(w, l, i, Rejected, v)
  }

  ghost predicate Does(w: World, l: Label, c: Cause)
    requires Enabled(w, l)
  {
    match c
    case ResolveCalled(p, v) => exists i :: Unused(w, i, p) && Resolves(w, l, i, v)
    case RejectCalled(p, v) => exists i :: Unused(w, i, p) && Rejects(w, l, i, v)
    case ThenRead(p, v, o) => l == DoGotThen(o) && Top(w) == AwaitThen(p, v)
    case ThenCalled(p, c, f, r) => l == DoThen(p, c, f, r)
  }

  /** One of the steps of a run did this. */
  ghost predicate Happened(w: World, ls: seq<Label>, c: Cause)
    decreases |ls|
  {
    ls != [] && Sane(w) && Enabled(w, ls[0]) && (Does(w, ls[0], c) || Happened(Step(w, ls[0]), ls[1..], c))
  }

  // ---------------------------------------------------------------- the jobs that wait

  /** The two reactions that are registered together are of the two kinds, and deliver to the same. */
  ghost predicate KindsOk(w: World) {
    forall e :: e in w.log && e.Registered? ==>
      e.onFulfilled.kind == FulfillReaction && e.onRejected.kind == RejectReaction && e.onFulfilled.capability == e.onRejected.capability
  }

  lemma {:induction false} QueuedTicketIs(log: seq<Event>, t: Ticket)
    requires t in QueuedTickets(log)
    ensures t.id < |log| && log[t.id].Queued? && log[t.id].job == t.job
  {
    var n := |log| - 1;
    if !(log[n].Queued? && t == Ticket(n, log[n].job)) {
      QueuedTicketIs(log[..n], t);
    }
  }

  lemma WaitingTicketIs(w: World, t: Ticket)
    requires Inv(w, None) && t in Unstarted(w)
    ensures t.id < |w.log| && w.log[t.id].Queued? && w.log[t.id].job == t.job && w.log[t.id].p < |w.promises|
  {
    hide Sane, Histories, IdsOk, RightsOk, QueuedTickets, StartedTickets, Unstarted, Lost, Increasing, Below;
    assert multiset(QueuedTickets(w.log))[t] > 0 by {
      assert t in StartedTickets(w.log) + Unstarted(w);
    }
    QueuedTicketIs(w.log, t);
  }

  lemma {:induction false} SelHas(log: seq<Event>, i: nat, q: Query)
    requires i < |log| && Matches(q, log[i])
    ensures log[i] in Sel(log, q)
  {
    var n := |log| - 1;
    if i < n {
      SelHas(log[..n], i, q);
    }
  }

  lemma {:induction false} SelOf(log: seq<Event>, e: Event, q: Query)
    requires e in Sel(log, q)
    ensures e in log && Matches(q, e)
  {
    var n := |log| - 1;
    if e in Sel(log[..n], q) {
      SelOf(log[..n], e, q);
    }
  }

  /** A reaction job in the history is for a settled promise, is of the kind that matches its state, and has its result. */
  lemma ReactionJobIs(w: World, i: nat)
    requires Inv(w, None) && KindsOk(w) && i < |w.log| && w.log[i].Queued? && w.log[i].job.ReactionJob?
    ensures var rec, j := w.promises[w.log[i].p], w.log[i].job;
      && w.log[i].p < |w.promises| && rec.state != Pending && j.argument == rec.result
      && j.reaction.kind == if rec.state == Fulfilled then FulfillReaction else RejectReaction
  {
    hide Sane, Histories, OrderOk, IdsOk, RightsOk, Sel, PromiseInv;
    var e, p := w.log[i], w.log[i].p;
    var rec, v := w.promises[p], ViewOf(w.log, p);
    HistoriesOf(w, p);
    SelHas(w.log, i, ReactionJobs(p));
    forall x | x in v.regs ensures x in w.log {
      SelOf(w.log, x, Registrations(p));
    }
    ServedIsOfKind(rec, v, p, AroundOf(w, p), e);
  }

  lemma ServedIsOfKind(rec: PromiseRec, v: View, p: nat, a: Around, e: Event)
    requires PromiseInv(rec, v, p, a) && e in v.jobs
    requires forall x :: x in v.regs && x.Registered? ==> x.onFulfilled.kind == FulfillReaction && x.onRejected.kind == RejectReaction
    ensures e.Queued? && e.job.ReactionJob? && rec.state != Pending && e.job.argument == rec.result
    ensures e.job.reaction.kind == if rec.state == Fulfilled then FulfillReaction else RejectReaction
  {
    hide LateOk;
    var side, k := Side(v.regs, rec.state), 0;
    k :| 0 <= k < |v.jobs| && v.jobs[k] == e;
    assert Served(v.jobs)[k] == e.job.reaction;
    ServedInSide(rec, v, p, a, e.job.reaction);
    var m :| 0 <= m < |side| && side[m] == e.job.reaction;
    assert v.regs[m] in v.regs;
  }

  lemma ServedInSide(rec: PromiseRec, v: View, p: nat, a: Around, r: Reaction)
    requires PromiseInv(rec, v, p, a) && r in Served(v.jobs)
    ensures r in Side(v.regs, rec.state)
  {
    hide Served, Told, Counts, Turns;
    if Late(rec.state, v) {
      assert multiset(Served(v.jobs))[r] > 0;
      assert multiset(RejectSide(v.regs))[r] > 0;
    }
  }

  lemma NextIsWaiting(w: World)
    requires w.frames != [] && Top(w).Draining? && NextBatch(w) != []
    ensures NextBatch(w)[0] in Unstarted(w)
  {
    TakenIs(w);
  }

  // ---------------------------------------------------------------- one step

  /** The events this is about: settlements, registrations, and thenable jobs. */
  predicate Notable(e: Event) {
    e.Settled? || e.Registered? || (e.Queued? && e.job.ThenableJob?)
  }

  predicate Awaits(w: World, p: nat, v: Value) {
    AwaitThen(p, v) in w.frames
  }

  /** What calling resolve, or reject, with an unused pair of p leads to: a settlement, or reading `then`. */
  predicate ResolveSettles(p: nat, v: Value, e: Event) {
    if v == PromiseObject(p) then e == Settled(p, Rejected, SelfResolution) else !IsObject(v) && e == Settled(p, Fulfilled, v)
  }

  predicate MustRead(p: nat, v: Value) { IsObject(v) && v != PromiseObject(p) }

  /** What a read of `then` leads to. */
  predicate ReadLeadsTo(p: nat, v: Value, o: Outcome<Option<nat>>, e: Event) {
    match o
    case Threw(err) => e == Settled(p, Rejected, err)
    case Returned(None) => e == Settled(p, Fulfilled, v)
    case Returned(Some(then_)) => e == Queued(p, ThenableJob(p, v, then_))
  }

  lemma SettlingAdds(w: World, p: nat, v: Value, e: Event)
    requires p < |w.promises| && Notable(e)
    ensures e in Fulfill(w, p, v).log <==> e in w.log || e == Settled(p, Fulfilled, v)
    ensures e in Reject(w, p, v).log <==> e in w.log || e == Settled(p, Rejected, v)
  {
    SettlingIs(w, p, v);
    hide Fulfill, Reject;
    SettleEventsAre(w.promises[p], p, Fulfilled, v, e);
    SettleEventsAre(w.promises[p], p, Rejected, v, e);
  }

  lemma SettleEventsAre(rec: PromiseRec, p: nat, state: PromiseState, v: Value, e: Event)
    requires Notable(e)
    ensures e in SettleEvents(rec, p, state, v) <==> e == Settled(p, state, v)
  {
    assert SettleEvents(rec, p, state, v)[0] == Settled(p, state, v);
  }

  lemma SettlingFrames(w: World, p: nat, v: Value, q: nat, u: Value)
    requires p < |w.promises|
    ensures Awaits(Fulfill(w, p, v), q, u) == Awaits(w, q, u) && Awaits(Reject(w, p, v), q, u) == Awaits(w, q, u)
  {
    SettlingIs(w, p, v);
  }

  lemma CallAdds(w: World, i: nat, v: Value, e: Event)
    requires i < |w.pairs| && w.pairs[i].promise < |w.promises| && Notable(e)
    ensures var p, unused := w.pairs[i].promise, !w.pairs[i].alreadyResolved;
      && (e in CallResolve(w, i, v).log <==> e in w.log || (unused && ResolveSettles(p, v, e)))
      && (e in CallReject(w, i, v).log <==> e in w.log || (unused && e == Settled(p, Rejected, v)))
  {
    var p, w1 := w.pairs[i].promise, MarkResolved(w, i);
    SettlingAdds(w1, p, v, e);
    SettlingAdds(w1, p, SelfResolution, e);
    hide Fulfill, Reject;
  }

  lemma CallFrames(w: World, i: nat, v: Value, q: nat, u: Value)
    requires i < |w.pairs| && w.pairs[i].promise < |w.promises|
    ensures var p, unused := w.pairs[i].promise, !w.pairs[i].alreadyResolved;
      && (Awaits(CallResolve(w, i, v), q, u) <==> Awaits(w, q, u) || (unused && q == p && u == v && MustRead(p, v)))
      && (Awaits(CallReject(w, i, v), q, u) <==> Awaits(w, q, u))
  {
    var p, w1 := w.pairs[i].promise, MarkResolved(w, i);
    SettlingFrames(w1, p, v, q, u);
    SettlingFrames(w1, p, SelfResolution, q, u);
    hide Fulfill, Reject;
  }

  /** The call of a resolving function that a step makes, if it makes one. */
  datatype Call = NoCall | Resolve(i: nat, v: Value) | Reject_(i: nat, v: Value)

  function CallOf(w: World, l: Label): Call
    requires Sane(w) && Enabled(w, l)
  {
    match l
    case DoResolve(i, v) => Resolve(i, v)
    case DoReject(i, v) => Reject_(i, v)
    case DoStartJob => (match NextBatch(w)[0].job
      case ThenableJob(_, _, _) => NoCall
      case ReactionJob(r, v) =>
        if r.handler.Some? || !r.capability.Native? then NoCall
        else if r.kind == FulfillReaction then Resolve(r.capability.pair, v) else Reject_(r.capability.pair, v))
    case DoThenableDone(Threw(e)) => Reject_(Top(w).pair, e)
    case DoHandlerDone(o) =>
      var c := Top(w).reaction.capability;
      if !c.Native? then NoCall else (match o case Returned(v) => Resolve(c.pair, v) case Threw(e) => Reject_(c.pair, e))
    case _ => NoCall
  }

  lemma StartedCallIs(w: World, i: nat, v: Value)
    requires Inv(w, None) && KindsOk(w) && Enabled(w, DoStartJob)
    ensures PassesOn(w, DoStartJob, i, Fulfilled, v) <==> CallOf(w, DoStartJob) == Resolve(i, v)
    ensures PassesOn(w, DoStartJob, i, Rejected, v) <==> CallOf(w, DoStartJob) == Reject_(i, v)
  {
    hide KindsOk, NextBatch, Unstarted, Histories, OrderOk, LogOk, IdsOk, RightsOk, Sane;
    var t := NextBatch(w)[0];
    NextIsWaiting(w);
    WaitingTicketIs(w, t);
    if t.job.ReactionJob? {
      ReactionJobIs(w, t.id);
    }
  }

  lemma CallIs(w: World, l: Label, i: nat, v: Value)
    requires Inv(w, None) && KindsOk(w) && Enabled(w, l)
    ensures Resolves(w, l, i, v) <==> CallOf(w, l) == Resolve(i, v)
    ensures Rejects(w, l, i, v) <==> CallOf(w, l) == Reject_(i, v)
  {
    hide KindsOk, NextBatch, Histories, OrderOk, LogOk, IdsOk, RightsOk, Sane;
    if l.DoStartJob? {
      StartedCallIs(w, i, v);
    }
  }

  /** What a step adds to the history. */
  ghost predicate Adds(w: World, l: Label, e: Event)
    requires Sane(w) && Enabled(w, l)
  {
    var c := CallOf(w, l);
    || (c.Resolve? && c.i < |w.pairs| && !w.pairs[c.i].alreadyResolved && ResolveSettles(w.pairs[c.i].promise, c.v, e))
    || (c.Reject_? && c.i < |w.pairs| && !w.pairs[c.i].alreadyResolved && e == Settled(w.pairs[c.i].promise, Rejected, c.v))
    || (l.DoGotThen? && ReadLeadsTo(Top(w).promise, Top(w).resolution, l.read, e))
    || (l.DoThen? && e == Registered(l.p, Reaction(l.capability, FulfillReaction, l.onFulfilled, |w.log|), Reaction(l.capability, RejectReaction, l.onRejected, |w.log|)))
  }

  lemma RegisteringAdds(w: World, p: nat, f: Reaction, r: Reaction, e: Event, q: nat, u: Value)
    requires p < |w.promises| && Notable(e)
    ensures e in AddReactions(w, p, f, r).log <==> e in w.log || e == Registered(p, f, r)
    ensures Awaits(AddReactions(w, p, f, r), q, u) == Awaits(w, q, u)
  {
    hide Telling;
  }

  lemma TrackerDoneAdds(w: World, e: Event, q: nat, u: Value)
    requires w.frames != [] && (Top(w).TellingReject? || Top(w).TellingHandle?) && Top(w).promise < |w.promises| && Notable(e)
    ensures e in TrackerDone(w).log <==> e in w.log
    ensures Awaits(TrackerDone(w), q, u) == Awaits(w, q, u)
  {
    PoppedAwaits(w, q, u);
    if Top(w).TellingReject? {
      TriggerEffect(PopFrame(w), Top(w).promise, Top(w).reactions, Top(w).reason);
    }
    hide Trigger;
  }

  lemma PoppedAwaits(w: World, q: nat, u: Value)
    requires w.frames != []
    ensures Awaits(w, q, u) <==> Awaits(PopFrame(w), q, u) || Top(w) == AwaitThen(q, u)
  {
    assert w.frames == PopFrame(w).frames + [Top(w)];
  }

  lemma DeliverAdds(w: World, c: Capability, ok: bool, v: Value, e: Event, q: nat, u: Value)
    requires c.Native? ==> c.pair < |w.pairs| && w.pairs[c.pair].promise < |w.promises|
    requires Notable(e)
    ensures var unused := c.Native? && !w.pairs[c.pair].alreadyResolved;
      && (e in Deliver(w, c, ok, v).log <==>
            e in w.log || (unused && if ok then ResolveSettles(w.pairs[c.pair].promise, v, e) else e == Settled(w.pairs[c.pair].promise, Rejected, v)))
      && (Awaits(Deliver(w, c, ok, v), q, u) <==>
            Awaits(w, q, u) || (unused && ok && q == w.pairs[c.pair].promise && u == v && MustRead(q, v)))
  {
    if c.Native? {
      CallAdds(w, c.pair, v, e);
      CallFrames(w, c.pair, v, q, u);
    }
    hide CallResolve, CallReject;
  }

  lemma GotThenAdds(w: World, o: Outcome<Option<nat>>, e: Event, q: nat, u: Value)
    requires w.frames != [] && Top(w).AwaitThen? && Top(w).promise < |w.promises| && Notable(e)
    ensures e in GotThen(w, o).log <==> e in w.log || ReadLeadsTo(Top(w).promise, Top(w).resolution, o, e)
    ensures Awaits(GotThen(w, o), q, u) ==> Awaits(w, q, u)
  {
    var f, w1 := Top(w), PopFrame(w);
    PoppedAwaits(w, q, u);
    SettlingAdds(w1, f.promise, if o.Threw? then o.error else f.resolution, e);
    SettlingFrames(w1, f.promise, if o.Threw? then o.error else f.resolution, q, u);
    hide Fulfill, Reject;
  }

  lemma StartJobAdds(w: World, e: Event, q: nat, u: Value)
    requires Sane(w) && Enabled(w, DoStartJob) && Notable(e)
    ensures e in Step(w, DoStartJob).log <==> e in w.log || Adds(w, DoStartJob, e)
    ensures Awaits(Step(w, DoStartJob), q, u) ==> Awaits(w, q, u) || ReadsNow(w, DoStartJob, q, u)
  {
    hide Deliver, TakeJob, Sane, NextBatch, IsObject;
    TakeJobNames(w);
    TakeJobAdds(w, e, q, u);
    var w1, j := TakeJob(w), NextBatch(w)[0].job;
    if j.ReactionJob? && j.reaction.handler.None? {
      DeliverAdds(w1, j.reaction.capability, j.reaction.kind == FulfillReaction, j.argument, e, q, u);
    }
  }

  lemma TakeJobAdds(w: World, e: Event, q: nat, u: Value)
    requires w.frames != [] && Top(w).Draining? && NextBatch(w) != [] && Notable(e)
    ensures TakeJob(w).pairs == w.pairs && (e in TakeJob(w).log <==> e in w.log)
    ensures Awaits(TakeJob(w), q, u) ==> Awaits(w, q, u)
  {
    hide LeftFurtherOut;
    var w1 := TakeJob(w);
    assert w1.log == w.log + [Started(NextBatch(w)[0])];
    PoppedAwaits(w, q, u);
    PoppedAwaits(w1, q, u);
    assert PopFrame(w1).frames == PopFrame(w).frames;
  }

  /** A step calls resolve with an object whose `then` has to be read. */
  ghost predicate ReadsNow(w: World, l: Label, p: nat, v: Value)
    requires Sane(w) && Enabled(w, l)
  {
    var c := CallOf(w, l);
    c.Resolve? && c.i < |w.pairs| && w.pairs[c.i] == Pair(p, false) && c.v == v && MustRead(p, v)
  }

  lemma StepAdds(w: World, l: Label, e: Event, q: nat, u: Value)
    requires Sane(w) && Enabled(w, l) && Notable(e)
    ensures e in Step(w, l).log <==> e in w.log || Adds(w, l, e)
    ensures Awaits(Step(w, l), q, u) ==> Awaits(w, q, u) || ReadsNow(w, l, q, u)
  {
    hide CallResolve, CallReject, AddReactions, Deliver, GotThen, TrackerDone, TakeJob, RunJob, NextBatch;
    hide ResolveSettles, ReadLeadsTo, MustRead, Notable;
    if w.frames != [] {
      assert FrameOk(w, Top(w));
      PoppedAwaits(w, q, u);
    }
    match l
    case DoResolve(i, v) => CallAdds(w, i, v, e); CallFrames(w, i, v, q, u);
    case DoReject(i, v) => CallAdds(w, i, v, e); CallFrames(w, i, v, q, u);
    case DoThen(p, c, f, r) =>
      RegisteringAdds(w, p, Reaction(c, FulfillReaction, f, |w.log|), Reaction(c, RejectReaction, r, |w.log|), e, q, u);
    case DoGotThen(o) => GotThenAdds(w, o, e, q, u);
    case DoTrackerDone => TrackerDoneAdds(w, e, q, u);
    case DoStartJob => StartJobAdds(w, e, q, u);
    case DoThenableDone(o) =>
      if o.Threw? {
        CallAdds(PopFrame(w), Top(w).pair, o.error, e);
        CallFrames(PopFrame(w), Top(w).pair, o.error, q, u);
      }
    case DoHandlerDone(o) =>
      DeliverAdds(PopFrame(w), Top(w).reaction.capability, o.Returned?, if o.Returned? then o.value else o.error, e, q, u);
    case _ =>
  }

  // ---------------------------------------------------------------- runs

  ghost predicate Good(w: World) {
    Inv(w, None) && KindsOk(w)
  }

  /** What is added by a step is added by what it does. */
  lemma AddsByCause(w: World, l: Label, e: Event)
    requires Good(w) && Enabled(w, l)
    ensures Adds(w, l, e) <==>
      || (exists p, v :: Does(w, l, ResolveCalled(p, v)) && ResolveSettles(p, v, e))
      || (exists p, v :: Does(w, l, RejectCalled(p, v)) && e == Settled(p, Rejected, v))
      || (exists p, v, o :: Does(w, l, ThenRead(p, v, o)) && ReadLeadsTo(p, v, o, e))
      || (exists p, c, f, r :: Does(w, l, ThenCalled(p, c, f, r))
            && e == Registered(p, Reaction(c, FulfillReaction, f, |w.log|), Reaction(c, RejectReaction, r, |w.log|)))
  {
    hide KindsOk, Histories, OrderOk, LogOk, IdsOk, RightsOk, Sane, ResolveSettles, ReadLeadsTo;
    var c := CallOf(w, l);
    if c.Resolve? || c.Reject_? {
      CallIs(w, l, c.i, c.v);
    }
    hide Resolves, Rejects, CallOf;
    if Adds(w, l, e) {
      if c.Resolve? && c.i < |w.pairs| && !w.pairs[c.i].alreadyResolved {
        assert Unused(w, c.i, w.pairs[c.i].promise);
        assert Does(w, l, ResolveCalled(w.pairs[c.i].promise, c.v));
      }
      if c.Reject_? && c.i < |w.pairs| && !w.pairs[c.i].alreadyResolved {
        assert Unused(w, c.i, w.pairs[c.i].promise);
        assert Does(w, l, RejectCalled(w.pairs[c.i].promise, c.v));
      }
      if l.DoGotThen? {
        assert Does(w, l, ThenRead(Top(w).promise, Top(w).resolution, l.read));
      }
      if l.DoThen? {
        assert Does(w, l, ThenCalled(l.p, l.capability, l.onFulfilled, l.onRejected));
      }
    } else {
      forall i, v ensures (Resolves(w, l, i, v) <==> c == Resolve(i, v)) && (Rejects(w, l, i, v) <==> c == Reject_(i, v)) {
        CallIs(w, l, i, v);
      }
    }
  }

  lemma ReadsByCause(w: World, l: Label, p: nat, v: Value)
    requires Good(w) && Enabled(w, l) && ReadsNow(w, l, p, v)
    ensures Does(w, l, ResolveCalled(p, v)) && MustRead(p, v)
  {
    hide KindsOk, Histories, OrderOk, LogOk, IdsOk, RightsOk, Sane;
    var c := CallOf(w, l);
    CallIs(w, l, c.i, c.v);
    assert Unused(w, c.i, p);
  }

  lemma StepKeepsGood(w: World, l: Label)
    requires Good(w) && Enabled(w, l)
    ensures Good(Step(w, l))
  {
    hide Inv, Step, Enabled, CallOf, Sane;
    StepKeepsInv(w, l);
    SaneIf(w);
    forall e | e in Step(w, l).log && e.Registered?
      ensures e.onFulfilled.kind == FulfillReaction && e.onRejected.kind == RejectReaction && e.onFulfilled.capability == e.onRejected.capability
    {
      StepAdds(w, l, e, 0, Undefined);
    }
  }

  lemma SaneIf(w: World)
    requires Inv(w, None)
    ensures Sane(w)
  {
    hide Sane, Histories, OrderOk, LogOk, IdsOk, RightsOk;
  }

  /** What one step settles, queues and registers. */
  lemma StepCauses(w: World, l: Label, p: nat, v: Value)
    requires Good(w) && Enabled(w, l)
    ensures Sane(w)
    ensures Settled(p, Fulfilled, v) in Step(w, l).log <==>
      Settled(p, Fulfilled, v) in w.log || (Does(w, l, ResolveCalled(p, v)) && !IsObject(v)) || Does(w, l, ThenRead(p, v, Returned(None)))
    ensures Settled(p, Rejected, v) in Step(w, l).log <==>
      || Settled(p, Rejected, v) in w.log
      || Does(w, l, RejectCalled(p, v))
      || (v == SelfResolution && Does(w, l, ResolveCalled(p, PromiseObject(p))))
      || exists u :: Does(w, l, ThenRead(p, u, Threw(v)))
  {
    hide Step, Adds, Enabled, Inv, Does, KindsOk, Sane;
    SaneIf(w);
    var f, r := Settled(p, Fulfilled, v), Settled(p, Rejected, v);
    StepAdds(w, l, f, p, v);
    StepAdds(w, l, r, p, v);
    AddsByCause(w, l, f);
    AddsByCause(w, l, r);
  }

  lemma StepQueues(w: World, l: Label, p: nat, v: Value, then_: nat)
    requires Good(w) && Enabled(w, l)
    ensures Sane(w)
    ensures Queued(p, ThenableJob(p, v, then_)) in Step(w, l).log <==>
      Queued(p, ThenableJob(p, v, then_)) in w.log || Does(w, l, ThenRead(p, v, Returned(Some(then_))))
  {
    hide Step, Adds, Enabled, Inv, Does, KindsOk, Sane;
    SaneIf(w);
    var e := Queued(p, ThenableJob(p, v, then_));
    StepAdds(w, l, e, p, v);
    AddsByCause(w, l, e);
  }

  lemma StepRegisters(w: World, l: Label, e: Event)
    requires Good(w) && Enabled(w, l) && e.Registered?
    ensures Sane(w)
    ensures e in Step(w, l).log <==>
      || e in w.log
      || exists p, c, f, r :: Does(w, l, ThenCalled(p, c, f, r))
           && e == Registered(p, Reaction(c, FulfillReaction, f, |w.log|), Reaction(c, RejectReaction, r, |w.log|))
  {
    hide Step, Adds, Enabled, Inv, Does, KindsOk, Sane;
    SaneIf(w);
    StepAdds(w, l, e, 0, Undefined);
    AddsByCause(w, l, e);
  }

  lemma {:induction false} RunCauses(w: World, ls: seq<Label>, w': World, p: nat, v: Value)
    requires Good(w) && IsRun(w, ls, w')
    ensures Settled(p, Fulfilled, v) in w'.log <==>
      || Settled(p, Fulfilled, v) in w.log
      || (Happened(w, ls, ResolveCalled(p, v)) && !IsObject(v))
      || Happened(w, ls, ThenRead(p, v, Returned(None)))
    ensures Settled(p, Rejected, v) in w'.log <==>
      || Settled(p, Rejected, v) in w.log
      || Happened(w, ls, RejectCalled(p, v))
      || (v == SelfResolution && Happened(w, ls, ResolveCalled(p, PromiseObject(p))))
      || exists u :: Happened(w, ls, ThenRead(p, u, Threw(v)))
    decreases |ls|
  {
    if ls != [] {
      StepCauses(w, ls[0], p, v);
      StepKeepsGood(w, ls[0]);
      hide Good, Step, Enabled, Does, Sane;
      RunCauses(Step(w, ls[0]), ls[1..], w', p, v);
      ThrewEither(w, ls, p, v);
    }
  }

  lemma ThrewEither(w: World, ls: seq<Label>, p: nat, v: Value)
    requires ls != [] && Sane(w) && Enabled(w, ls[0])
    ensures (exists u :: Happened(w, ls, ThenRead(p, u, Threw(v)))) <==>
      (exists u :: Does(w, ls[0], ThenRead(p, u, Threw(v)))) || exists u :: Happened(Step(w, ls[0]), ls[1..], ThenRead(p, u, Threw(v)))
  {
    hide Step, Enabled, Does, Sane;
    if u :| Does(w, ls[0], ThenRead(p, u, Threw(v))) {
      assert Happened(w, ls, ThenRead(p, u, Threw(v)));
    }
    if u :| Happened(Step(w, ls[0]), ls[1..], ThenRead(p, u, Threw(v))) {
      assert Happened(w, ls, ThenRead(p, u, Threw(v)));
    }
  }

  lemma {:induction false} RunQueues(w: World, ls: seq<Label>, w': World, p: nat, v: Value, then_: nat)
    requires Good(w) && IsRun(w, ls, w')
    ensures Queued(p, ThenableJob(p, v, then_)) in w'.log <==>
      Queued(p, ThenableJob(p, v, then_)) in w.log || Happened(w, ls, ThenRead(p, v, Returned(Some(then_))))
    decreases |ls|
  {
    if ls != [] {
      StepQueues(w, ls[0], p, v, then_);
      StepKeepsGood(w, ls[0]);
      hide Good, Step, Enabled, Does, Sane;
      RunQueues(Step(w, ls[0]), ls[1..], w', p, v, then_);
    }
  }

  /** resolve reads `then` of what it was called with. */
  lemma {:induction false} ReadAfterCall(w: World, ls: seq<Label>, w': World, p: nat, v: Value, o: Outcome<Option<nat>>)
    requires Good(w) && IsRun(w, ls, w') && Happened(w, ls, ThenRead(p, v, o))
    ensures Awaits(w, p, v) || (Happened(w, ls, ResolveCalled(p, v)) && MustRead(p, v))
    decreases |ls|
  {
    SaneIf(w);
    if Does(w, ls[0], ThenRead(p, v, o)) {
      assert AwaitThen(p, v) == w.frames[|w.frames| - 1];
    } else {
      var l := ls[0];
      StepAdds(w, l, Settled(p, Fulfilled, v), p, v);
      StepKeepsGood(w, l);
      ReadAfterCall(Step(w, l), ls[1..], w', p, v, o);
      hide Good, Step, Enabled, Does, Sane;
      if ReadsNow(w, l, p, v) {
        ReadsByCause(w, l, p, v);
      }
    }
  }

  lemma StateInHistory(w: World, p: nat, state: PromiseState, v: Value)
    requires Inv(w, None) && p < |w.promises| && state != Pending
    ensures w.promises[p].state == state && w.promises[p].result == v <==> Settled(p, state, v) in w.log
  {
    hide Inv, Sel;
    SettlementsOf(w, p);
    var e, sel := Settled(p, state, v), Sel(w.log, Settlements(p));
    if e in w.log {
      var i :| 0 <= i < |w.log| && w.log[i] == e;
      SelHas(w.log, i, Settlements(p));
    }
    if w.promises[p].state == state && w.promises[p].result == v {
      assert sel[0] == e;
      SelOf(w.log, e, Settlements(p));
    }
  }

  lemma EmptyGood()
    ensures Good(Empty)
  {
    EmptyInv();
  }

  /** A promise is fulfilled with v exactly if one of its resolve functions was called with v, the first call of its pair,
      v is not the promise itself, and v is no object or reading its `then` yielded nothing that can be called. */
  lemma FulfilledIff(ls: seq<Label>, w: World, p: nat, v: Value)
    requires IsRun(Empty, ls, w) && p < |w.promises|
    ensures w.promises[p].state == Fulfilled && w.promises[p].result == v <==>
      && Happened(Empty, ls, ResolveCalled(p, v))
      && v != PromiseObject(p) && (!IsObject(v) || Happened(Empty, ls, ThenRead(p, v, Returned(None))))
  {
    hide Happened, Inv, IsRun, Good, KindsOk;
    EmptyGood();
    RunCauses(Empty, ls, w, p, v);
    RunInv(ls, w);
    StateInHistory(w, p, Fulfilled, v);
    if Happened(Empty, ls, ThenRead(p, v, Returned(None))) {
      ReadAfterCall(Empty, ls, w, p, v, Returned(None));
    }
  }

  /** A promise is rejected with v exactly if one of its reject functions was called with v, the first call of its pair; or it
      was resolved with itself, and v is the error for that; or it was resolved with an object whose `then` threw v when it was read. */
  lemma RejectedIff(ls: seq<Label>, w: World, p: nat, v: Value)
    requires IsRun(Empty, ls, w) && p < |w.promises|
    ensures w.promises[p].state == Rejected && w.promises[p].result == v <==>
      || Happened(Empty, ls, RejectCalled(p, v))
      || (v == SelfResolution && Happened(Empty, ls, ResolveCalled(p, PromiseObject(p))))
      || exists u :: Happened(Empty, ls, ResolveCalled(p, u)) && MustRead(p, u) && Happened(Empty, ls, ThenRead(p, u, Threw(v)))
  {
    hide Happened, Inv, IsRun, Good, KindsOk;
    EmptyGood();
    RunCauses(Empty, ls, w, p, v);
    RunInv(ls, w);
    StateInHistory(w, p, Rejected, v);
    forall u | Happened(Empty, ls, ThenRead(p, u, Threw(v))) ensures Happened(Empty, ls, ResolveCalled(p, u)) && MustRead(p, u) {
      ReadAfterCall(Empty, ls, w, p, u, Threw(v));
    }
  }

  /** A job that calls then_ on v, to resolve p, was queued exactly if p was resolved with the object v, not itself, and
      reading v.then yielded then_. */
  lemma ThenableJobIff(ls: seq<Label>, w: World, p: nat, v: Value, then_: nat)
    requires IsRun(Empty, ls, w)
    ensures Queued(p, ThenableJob(p, v, then_)) in w.log <==>
      Happened(Empty, ls, ResolveCalled(p, v)) && MustRead(p, v) && Happened(Empty, ls, ThenRead(p, v, Returned(Some(then_))))
  {
    hide Happened, Inv, IsRun, Good, KindsOk;
    EmptyGood();
    RunQueues(Empty, ls, w, p, v, then_);
    if Happened(Empty, ls, ThenRead(p, v, Returned(Some(then_)))) {
      ReadAfterCall(Empty, ls, w, p, v, Returned(Some(then_)));
    }
  }

  /** Until that job is done p stays as it is, pending; the job is all that is queued, and once started it has a new pair for p. */
  lemma ThenableLeavesPending(ls: seq<Label>, w: World, then_: nat)
    requires IsRun(Empty, ls, w) && w.frames != [] && Top(w).AwaitThen?
    ensures Sane(w) && Top(w).promise < |w.promises|
    ensures var p, v, w' := Top(w).promise, Top(w).resolution, Step(w, DoGotThen(Returned(Some(then_))));
      && w.promises[p].state == Pending && w'.promises == w.promises && w'.pairs == w.pairs
      && w'.queue == w.queue + [Ticket(|w.log|, ThenableJob(p, v, then_))] && w'.log == w.log + [Queued(p, ThenableJob(p, v, then_))]
  {
    RunInv(ls, w);
    SaneIf(w);
    assert FrameOk(w, Top(w));
    RightsOf(w, Top(w).promise);
    assert HeldByFrames(w.frames, Top(w).promise) > 0;
    hide Inv, IsRun;
  }

  lemma ThenableStarts(w: World)
    requires Sane(w) && Enabled(w, DoStartJob) && NextBatch(w)[0].job.ThenableJob?
    ensures var p, w' := NextBatch(w)[0].job.promise, Step(w, DoStartJob);
      && w'.promises == w.promises && w'.pairs == w.pairs + [Pair(p, false)] && w'.frames[|w'.frames| - 1] == InThenable(|w.pairs|)
  {
    hide LeftFurtherOut, Sane;
  }

  lemma StepRegistersIff(w: World, l: Label, p: nat, c: Capability, f: Option<nat>, r: Option<nat>)
    requires Good(w) && Enabled(w, l)
    ensures Sane(w)
    ensures IsRegistered(Step(w, l), p, c, f, r) <==> IsRegistered(w, p, c, f, r) || Does(w, l, ThenCalled(p, c, f, r))
  {
    hide Step, Enabled, Does, Inv, KindsOk, Sane;
    SaneIf(w);
    forall n: nat ensures var e := Registration(p, c, f, r, n);
      e in Step(w, l).log <==> e in w.log || (Does(w, l, ThenCalled(p, c, f, r)) && n == |w.log|)
    {
      StepRegisters(w, l, Registration(p, c, f, r, n));
    }
    assert Does(w, l, ThenCalled(p, c, f, r)) ==> Registration(p, c, f, r, |w.log|) in Step(w, l).log;
  }

  function Registration(p: nat, c: Capability, f: Option<nat>, r: Option<nat>, n: nat): Event {
    Registered(p, Reaction(c, FulfillReaction, f, n), Reaction(c, RejectReaction, r, n))
  }

  /** Reactions with these handlers are registered with p, each for its own outcome. */
  ghost predicate IsRegistered(w: World, p: nat, c: Capability, f: Option<nat>, r: Option<nat>) {
    exists n: nat :: Registration(p, c, f, r, n) in w.log
  }

  lemma {:induction false} RunRegisters(w: World, ls: seq<Label>, w': World, p: nat, c: Capability, f: Option<nat>, r: Option<nat>)
    requires Good(w) && IsRun(w, ls, w')
    ensures IsRegistered(w', p, c, f, r) <==> IsRegistered(w, p, c, f, r) || Happened(w, ls, ThenCalled(p, c, f, r))
    decreases |ls|
  {
    if ls != [] {
      StepRegistersIff(w, ls[0], p, c, f, r);
      StepKeepsGood(w, ls[0]);
      hide Good, Step, Enabled, Does, Sane, IsRegistered;
      RunRegisters(Step(w, ls[0]), ls[1..], w', p, c, f, r);
    }
  }

  /** Reactions are registered exactly by calls of then, the first handler for fulfilment and the second for rejection. */
  lemma RegisteredIff(ls: seq<Label>, w: World, p: nat, c: Capability, f: Option<nat>, r: Option<nat>)
    requires IsRun(Empty, ls, w)
    ensures IsRegistered(w, p, c, f, r) <==> Happened(Empty, ls, ThenCalled(p, c, f, r))
  {
    EmptyGood();
    RunRegisters(Empty, ls, w, p, c, f, r);
  }
}
