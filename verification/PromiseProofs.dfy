/** What every run of the promise machine keeps. */
module PromiseProofs {
  import opened Options
  import opened PromiseSpec

  // ---------------------------------------------------------------- the history, seen from one promise

  datatype Query = Registrations(p: nat) | Settlements(p: nat) | Trackings(p: nat) | ReactionJobs(p: nat) | Life(p: nat)

  predicate Matches(q: Query, e: Event) {
    match q
    case Registrations(p) => e.Registered? && e.p == p
    case Settlements(p) => e.Settled? && e.p == p
    case Trackings(p) => e.Tracked? && e.p == p
    case ReactionJobs(p) => e.Queued? && e.p == p && e.job.ReactionJob?
    case Life(p) => (e.Registered? || e.Settled?) && e.p == p
  }

  /** The events of the history that answer a query, in order. */
  function Sel(log: seq<Event>, q: Query): seq<Event> {
    if log == [] then []
    else
      var e := log[|log| - 1];
      Sel(log[..|log| - 1], q) + (if Matches(q, e) then [e] else [])
  }

  lemma {:induction false} SelAppend(a: seq<Event>, b: seq<Event>, q: Query)
    ensures Sel(a + b, q) == Sel(a, q) + Sel(b, q)
  {
    if b == [] {
      assert a + b == a;
    } else {
      var n := |b| - 1;
      SelAppend(a, b[..n], q);
      assert (a + b)[..|a + b| - 1] == a + b[..n];
      assert (a + b)[|a + b| - 1] == b[n];
    }
  }

  lemma {:induction false} SelAll(s: seq<Event>, q: Query)
    requires forall i :: 0 <= i < |s| ==> Matches(q, s[i])
    ensures Sel(s, q) == s
  {
    if s != [] {
      SelAll(s[..|s| - 1], q);
    }
  }

  lemma {:induction false} SelNone(s: seq<Event>, q: Query)
    requires forall i :: 0 <= i < |s| ==> !Matches(q, s[i])
    ensures Sel(s, q) == []
  {
    if s != [] {
      SelNone(s[..|s| - 1], q);
    }
  }

  function JobsList(rs: seq<Reaction>, argument: Value): seq<Job> {
    seq(|rs|, i requires 0 <= i < |rs| => ReactionJob(rs[i], argument))
  }

  function QueuedList(p: nat, js: seq<Job>): seq<Event> {
    seq(|js|, i requires 0 <= i < |js| => Queued(p, js[i]))
  }

  /** The tickets of jobs that are queued in this order, the first of which gets number n. */
  function Tickets(n: nat, js: seq<Job>): seq<Ticket> {
    seq(|js|, i requires 0 <= i < |js| => Ticket(n + i, js[i]))
  }

  lemma {:induction false} TriggerEffect(w: World, p: nat, rs: seq<Reaction>, argument: Value)
    ensures var js := JobsList(rs, argument);
            Trigger(w, p, rs, argument) == w.(queue := w.queue + Tickets(|w.log|, js), log := w.log + QueuedList(p, js))
    decreases |rs|
  {
    var js := JobsList(rs, argument);
    if rs == [] {
      assert w.queue + Tickets(|w.log|, js) == w.queue && w.log + QueuedList(p, js) == w.log;
    } else {
      var w1 := Enqueue(w, p, ReactionJob(rs[0], argument));
      TriggerEffect(w1, p, rs[1..], argument);
      assert JobsList(rs[1..], argument) == js[1..];
      assert w1.queue + Tickets(|w1.log|, js[1..]) == w.queue + Tickets(|w.log|, js);
      assert w1.log + QueuedList(p, js[1..]) == w.log + QueuedList(p, js);
    }
  }

  // ---------------------------------------------------------------- what holds of one promise

  function OnFulfilled(e: Event): Reaction {
    if e.Registered? then e.onFulfilled else Reaction(NoCapability, FulfillReaction, None, 0)
  }

  function OnRejected(e: Event): Reaction {
    if e.Registered? then e.onRejected else Reaction(NoCapability, RejectReaction, None, 0)
  }

  function FulfillSide(regs: seq<Event>): seq<Reaction> {
    seq(|regs|, i requires 0 <= i < |regs| => OnFulfilled(regs[i]))
  }

  function RejectSide(regs: seq<Event>): seq<Reaction> {
    seq(|regs|, i requires 0 <= i < |regs| => OnRejected(regs[i]))
  }

  /** The reactions that are owed a job, in the order of their registration. */
  function Side(regs: seq<Event>, state: PromiseState): seq<Reaction> {
    match state case Pending => [] case Fulfilled => FulfillSide(regs) case Rejected => RejectSide(regs)
  }

  /** The reactions that have got a job, in the order of their jobs. */
  function Served(jobs: seq<Event>): seq<Reaction> {
    seq(|jobs|, i requires 0 <= i < |jobs| =>
      if jobs[i].Queued? && jobs[i].job.ReactionJob? then jobs[i].job.reaction else Reaction(NoCapability, FulfillReaction, None, 0))
  }

  ghost predicate AllAbout(jobs: seq<Event>, p: nat, result: Value) {
    forall i :: 0 <= i < |jobs| ==> jobs[i].Queued? && jobs[i].p == p && jobs[i].job.ReactionJob? && jobs[i].job.argument == result
  }

  /** The reactions with p whose registration waits, or waited, for the tracker in one of these, outermost first. */
  function Open(frames: seq<Frame>, p: nat): seq<Reaction> {
    if frames == [] then []
    else
      var f := frames[|frames| - 1];
      Open(frames[..|frames| - 1], p) + (if f.TellingHandle? && f.promise == p then [f.reaction] else [])
  }

  /** Reactions are numbered in the order of their registration. */
  ghost predicate Inverted(s: seq<Reaction>) {
    exists i, j :: 0 <= i < j < |s| && s[i].id > s[j].id
  }

  ghost predicate Rising(s: seq<Reaction>) {
    forall i, j :: 0 <= i < j < |s| ==> s[i].id < s[j].id
  }

  /** The history, seen from one promise. */
  datatype View = View(regs: seq<Event>, settlements: seq<Event>, tracks: seq<Event>, jobs: seq<Event>, life: seq<Event>)

  function ViewOf(log: seq<Event>, p: nat): View {
    View(Sel(log, Registrations(p)), Sel(log, Settlements(p)), Sel(log, Trackings(p)), Sel(log, ReactionJobs(p)), Sel(log, Life(p)))
  }

  function Join(a: View, b: View): View {
    View(a.regs + b.regs, a.settlements + b.settlements, a.tracks + b.tracks, a.jobs + b.jobs, a.life + b.life)
  }

  /** What is going on around a promise: registrations that wait for the tracker, those that never will go on, whether the
      tracker was told again that it is handled, and whether any reaction got its job out of turn. */
  datatype Around = Around(open: seq<Reaction>, dropped: seq<Reaction>, retold: bool, outOfTurn: bool)

  function AroundOf(w: World, p: nat): Around {
    Around(Open(w.frames, p), Open(w.ended, p), p in w.retold, p in w.outOfTurn)
  }

  /** The tracker was told that p is rejected, and then, for each registration until one was through, that it is handled. */
  ghost predicate Told(tracks: seq<Event>, p: nat) {
    && tracks != [] && tracks[0] == Tracked(p, TrackReject)
    && (forall i :: 0 < i < |tracks| ==> tracks[i] == Tracked(p, TrackHandle))
  }

  /** Each reaction has got one job, or its registration waits for the tracker, or will never go on. */
  ghost predicate Accounted(s: seq<Reaction>, open: seq<Reaction>, dropped: seq<Reaction>, side: seq<Reaction>) {
    multiset(s) + multiset(open) + multiset(dropped) == multiset(side)
  }

  /** How many jobs there are, calls of the tracker, and registrations that it was told about. */
  predicate Counts(handled: bool, jobs: nat, tracks: nat, waiting: nat, retold: bool) {
    (if handled then jobs > 0 && tracks >= 2 else jobs == 0 && tracks - 1 == waiting) && (retold <==> tracks > 2)
  }

  /** Once p is handled, whatever still waits was registered before the reaction that got the first job. */
  ghost predicate Turns(s: seq<Reaction>, open: seq<Reaction>, outOfTurn: bool) {
    && Rising(open)
    && (s != [] ==> forall i :: 0 <= i < |open| ==> open[i].id < s[0].id)
    && if outOfTurn then Inverted(s) else Rising(s)
  }

  /** A promise that was rejected when nothing was registered with it. */
  ghost predicate LateOk(rec: PromiseRec, v: View, p: nat, a: Around) {
    && Told(v.tracks, p)
    && Accounted(Served(v.jobs), a.open, a.dropped, RejectSide(v.regs))
    && Counts(rec.handled, |v.jobs|, |v.tracks|, |a.open| + |a.dropped|, a.retold)
    && Turns(Served(v.jobs), a.open, a.outOfTurn)
  }

  ghost predicate Late(state: PromiseState, v: View) {
    state == Rejected && !(v.life != [] && v.life[0].Registered?)
  }

  ghost predicate PromiseInv(rec: PromiseRec, v: View, p: nat, a: Around) {
    && AllAbout(v.jobs, p, rec.result)
    && v.settlements == (if rec.state == Pending then [] else [Settled(p, rec.state, rec.result)])
    && (forall i :: 0 <= i < |v.regs| ==> v.regs[i].Registered?)
    && (if rec.state == Pending then v.life == v.regs && rec.fulfillReactions == FulfillSide(v.regs) && rec.rejectReactions == RejectSide(v.regs)
        else v.life != [] && (v.life[0].Registered? ==> v.regs != []) && rec.fulfillReactions == [] && rec.rejectReactions == [])
    && if Late(rec.state, v) then LateOk(rec, v, p, a)
       else a == Around([], [], false, false) && v.tracks == [] && rec.handled == (v.regs != []) && Served(v.jobs) == Side(v.regs, rec.state)
  }

  lemma ViewAppend(a: seq<Event>, b: seq<Event>, p: nat)
    ensures ViewOf(a + b, p) == Join(ViewOf(a, p), ViewOf(b, p))
  {
    SelAppend(a, b, Registrations(p));
    SelAppend(a, b, Settlements(p));
    SelAppend(a, b, Trackings(p));
    SelAppend(a, b, ReactionJobs(p));
    SelAppend(a, b, Life(p));
  }

  /** Events that concern another promise, thenable jobs and job starts are invisible. */
  ghost predicate Foreigner(e: Event, p: nat) {
    e.Started? || e.p != p || (e.Queued? && e.job.ThenableJob?)
  }

  lemma ViewForeign(ext: seq<Event>, p: nat)
    requires forall i :: 0 <= i < |ext| ==> Foreigner(ext[i], p)
    ensures ViewOf(ext, p) == View([], [], [], [], [])
  {
    SelNone(ext, Registrations(p));
    SelNone(ext, Settlements(p));
    SelNone(ext, Trackings(p));
    SelNone(ext, ReactionJobs(p));
    SelNone(ext, Life(p));
  }

  lemma PromiseInvFrame(rec: PromiseRec, log: seq<Event>, ext: seq<Event>, p: nat, a: Around)
    requires PromiseInv(rec, ViewOf(log, p), p, a)
    requires forall i :: 0 <= i < |ext| ==> Foreigner(ext[i], p)
    ensures PromiseInv(rec, ViewOf(log + ext, p), p, a)
  {
    hide Sel;
    ViewAppend(log, ext, p);
    ViewForeign(ext, p);
    assert Join(ViewOf(log, p), View([], [], [], [], [])) == ViewOf(log, p);
  }

  lemma ViewQueued(p: nat, js: seq<Job>)
    requires forall i :: 0 <= i < |js| ==> js[i].ReactionJob?
    ensures ViewOf(QueuedList(p, js), p) == View([], [], [], QueuedList(p, js), [])
  {
    var ext := QueuedList(p, js);
    SelNone(ext, Registrations(p));
    SelNone(ext, Settlements(p));
    SelNone(ext, Trackings(p));
    SelAll(ext, ReactionJobs(p));
    SelNone(ext, Life(p));
  }

  lemma ViewOne(e: Event, p: nat)
    requires !e.Started? && e.p == p && (e.Queued? ==> e.job.ReactionJob?)
    ensures ViewOf([e], p) == View(if e.Registered? then [e] else [], if e.Settled? then [e] else [], if e.Tracked? then [e] else [],
                                   if e.Queued? then [e] else [], if e.Registered? || e.Settled? then [e] else [])
  {
    SelOne(e, Registrations(p));
    SelOne(e, Settlements(p));
    SelOne(e, Trackings(p));
    SelOne(e, ReactionJobs(p));
    SelOne(e, Life(p));
  }

  lemma SelOne(e: Event, q: Query)
    ensures Sel([e], q) == if Matches(q, e) then [e] else []
  {
    if Matches(q, e) { SelAll([e], q); } else { SelNone([e], q); }
  }

  function If<T>(c: bool, e: T): seq<T> {
    if c then [e] else []
  }

  // ---- settling

  /** What is registered with p for its state. */
  function Waiting(rec: PromiseRec, state: PromiseState): seq<Reaction> {
    if state == Fulfilled then rec.fulfillReactions else rec.rejectReactions
  }

  /** The tracker must be told first. */
  predicate Untold(state: PromiseState, handled: bool) {
    state == Rejected && !handled
  }

  /** The history that settling p adds. */
  function SettleEvents(rec: PromiseRec, p: nat, state: PromiseState, value: Value): seq<Event> {
    if Untold(state, rec.handled) then [Settled(p, state, value)] + [Tracked(p, TrackReject)]
    else [Settled(p, state, value)] + QueuedList(p, JobsList(Waiting(rec, state), value))
  }

  lemma SettleView(rec: PromiseRec, p: nat, state: PromiseState, value: Value)
    ensures ViewOf(SettleEvents(rec, p, state, value), p)
         == View([], [Settled(p, state, value)], If(Untold(state, rec.handled), Tracked(p, TrackReject)),
                 if Untold(state, rec.handled) then [] else QueuedList(p, JobsList(Waiting(rec, state), value)), [Settled(p, state, value)])
  {
    hide Sel;
    var e, js := Settled(p, state, value), JobsList(Waiting(rec, state), value);
    ViewAppend([e], [Tracked(p, TrackReject)], p);
    ViewAppend([e], QueuedList(p, js), p);
    ViewOne(e, p);
    ViewOne(Tracked(p, TrackReject), p);
    ViewQueued(p, js);
  }

  lemma ServedList(p: nat, rs: seq<Reaction>, value: Value)
    ensures var js := QueuedList(p, JobsList(rs, value)); Served(js) == rs && AllAbout(js, p, value)
  {
  }

  lemma ServedAppend(a: seq<Event>, b: seq<Event>)
    ensures Served(a + b) == Served(a) + Served(b)
  {
  }

  lemma SettledKeepsPromiseInv(rec: PromiseRec, log: seq<Event>, p: nat, state: PromiseState, value: Value, a: Around)
    requires PromiseInv(rec, ViewOf(log, p), p, a) && rec.state == Pending && state != Pending
    ensures PromiseInv(PromiseRec(state, value, [], [], rec.handled), ViewOf(log + SettleEvents(rec, p, state, value), p), p, a)
    ensures !rec.handled ==> rec.rejectReactions == []
  {
    hide ViewOf;
    var v := ViewOf(log, p);
    ViewAppend(log, SettleEvents(rec, p, state, value), p);
    SettleView(rec, p, state, value);
    ServedList(p, Waiting(rec, state), value);
    assert v.jobs == [] by { assert |Served(v.jobs)| == |v.jobs|; }
    assert rec.handled == (v.regs != []);
  }

  // ---- registering

  function RegisterEvents(rec: PromiseRec, p: nat, f: Reaction, r: Reaction): seq<Event> {
    [Registered(p, f, r)]
    + if Untold(rec.state, rec.handled) then [Tracked(p, TrackHandle)]
      else If(rec.state != Pending, Queued(p, ReactionJob(if rec.state == Fulfilled then f else r, rec.result)))
  }

  function RegisteredRec(rec: PromiseRec, f: Reaction, r: Reaction): PromiseRec {
    match rec.state
    case Pending =>
      rec.(fulfillReactions := rec.fulfillReactions + [f], rejectReactions := rec.rejectReactions + [r], handled := true)
    case Fulfilled => rec.(handled := true)
    case Rejected => rec
  }

  function RegisteredAround(rec: PromiseRec, r: Reaction, a: Around): Around {
    if Untold(rec.state, rec.handled) then a.(open := a.open + [r], retold := a.retold || a.open != [] || a.dropped != []) else a
  }

  lemma RegisterView(rec: PromiseRec, p: nat, f: Reaction, r: Reaction)
    ensures ViewOf(RegisterEvents(rec, p, f, r), p) == RegisterSeen(rec, p, f, r)
  {
    hide Sel;
    var e, j := Registered(p, f, r), Queued(p, ReactionJob(if rec.state == Fulfilled then f else r, rec.result));
    ViewAppend([e], [Tracked(p, TrackHandle)], p);
    ViewAppend([e], If(rec.state != Pending, j), p);
    ViewOne(e, p);
    ViewOne(Tracked(p, TrackHandle), p);
    ViewOne(j, p);
    ViewForeign([], p);
  }

  lemma SidesAppend(regs: seq<Event>, e: Event)
    ensures FulfillSide(regs + [e]) == FulfillSide(regs) + [OnFulfilled(e)]
    ensures RejectSide(regs + [e]) == RejectSide(regs) + [OnRejected(e)]
  {
  }

  lemma AccountedMore(s: seq<Reaction>, open: seq<Reaction>, dropped: seq<Reaction>, side: seq<Reaction>, r: Reaction)
    requires Accounted(s, open, dropped, side)
    ensures Accounted(s + [r], open, dropped, side + [r]) && Accounted(s, open + [r], dropped, side + [r])
  {
  }

  lemma TurnsMore(s: seq<Reaction>, open: seq<Reaction>, outOfTurn: bool, r: Reaction)
    requires Turns(s, open, outOfTurn) && (forall i :: 0 <= i < |s| ==> s[i].id < r.id) && forall i :: 0 <= i < |open| ==> open[i].id < r.id
    ensures s != [] ==> Turns(s + [r], open, outOfTurn)
    ensures s == [] ==> Turns(s, open + [r], outOfTurn)
  {
    if outOfTurn {
      var i, j :| 0 <= i < j < |s| && s[i].id > s[j].id;
      assert (s + [r])[i] == s[i] && (s + [r])[j] == s[j];
    }
  }

  lemma ToldMore(tracks: seq<Event>, p: nat, more: bool)
    requires Told(tracks, p)
    ensures Told(tracks + If(more, Tracked(p, TrackHandle)), p)
  {
  }

  /** What was registered before is numbered below n. */
  lemma SideBelow(s: seq<Reaction>, open: seq<Reaction>, dropped: seq<Reaction>, side: seq<Reaction>, n: nat)
    requires Accounted(s, open, dropped, side) && forall i :: 0 <= i < |side| ==> side[i].id < n
    ensures (forall i :: 0 <= i < |s| ==> s[i].id < n) && forall i :: 0 <= i < |open| ==> open[i].id < n
  {
    forall i | 0 <= i < |s| ensures s[i].id < n {
      assert s[i] in multiset(side);
    }
    forall i | 0 <= i < |open| ensures open[i].id < n {
      assert open[i] in multiset(side);
    }
  }

  lemma LateRegistered(rec: PromiseRec, v: View, p: nat, a: Around, f: Reaction, r: Reaction, v': View)
    requires LateOk(rec, v, p, a) && rec.state == Rejected && forall i :: 0 <= i < |RejectSide(v.regs)| ==> RejectSide(v.regs)[i].id < r.id
    requires v'.regs == v.regs + [Registered(p, f, r)]
    requires v'.tracks == v.tracks + If(!rec.handled, Tracked(p, TrackHandle))
    requires v'.jobs == v.jobs + If(rec.handled, Queued(p, ReactionJob(r, rec.result)))
    ensures LateOk(rec, v', p, RegisteredAround(rec, r, a))
  {
    hide Told, Accounted, Turns, Served, RejectSide;
    var s := Served(v.jobs);
    ToldMore(v.tracks, p, !rec.handled);
    SidesAppend(v.regs, Registered(p, f, r));
    ServedAppend(v.jobs, If(rec.handled, Queued(p, ReactionJob(r, rec.result))));
    ServedOne(p, r, rec.result);
    ServedSize(v.jobs);
    SideBelow(s, a.open, a.dropped, RejectSide(v.regs), r.id);
    AccountedMore(s, a.open, a.dropped, RejectSide(v.regs), r);
    TurnsMore(s, a.open, a.outOfTurn, r);
    assert s + [] == s;
  }

  lemma ServedSize(jobs: seq<Event>)
    ensures |Served(jobs)| == |jobs|
  {
  }

  lemma ServedOne(p: nat, r: Reaction, value: Value)
    ensures Served([]) == [] && Served([Queued(p, ReactionJob(r, value))]) == [r]
  {
  }

  /** What the history shows of a registration. */
  function RegisterSeen(rec: PromiseRec, p: nat, f: Reaction, r: Reaction): View {
    var late := Untold(rec.state, rec.handled);
    View([Registered(p, f, r)], [], If(late, Tracked(p, TrackHandle)),
         If(rec.state != Pending && !late, Queued(p, ReactionJob(if rec.state == Fulfilled then f else r, rec.result))), [Registered(p, f, r)])
  }

  lemma EarlyRegistered(rec: PromiseRec, v: View, p: nat, f: Reaction, r: Reaction, a: Around)
    requires PromiseInv(rec, v, p, a) && !Late(rec.state, v)
    ensures var v' := Join(v, RegisterSeen(rec, p, f, r));
      PromiseInv(RegisteredRec(rec, f, r), v', p, RegisteredAround(rec, r, a)) && !Late(rec.state, v')
  {
    hide LateOk, Served, FulfillSide, RejectSide;
    SidesAppend(v.regs, Registered(p, f, r));
    var x := if rec.state == Fulfilled then f else r;
    ServedAppend(v.jobs, If(rec.state != Pending, Queued(p, ReactionJob(x, rec.result))));
    ServedOne(p, x, rec.result);
  }

  lemma LateStays(rec: PromiseRec, v: View, p: nat, f: Reaction, r: Reaction, a: Around)
    requires PromiseInv(rec, v, p, a) && Late(rec.state, v)
    requires forall i :: 0 <= i < |RejectSide(v.regs)| ==> RejectSide(v.regs)[i].id < r.id
    ensures var v' := Join(v, RegisterSeen(rec, p, f, r));
      PromiseInv(RegisteredRec(rec, f, r), v', p, RegisteredAround(rec, r, a)) && Late(rec.state, v')
  {
    hide LateOk, Served, Side;
    var v' := Join(v, RegisterSeen(rec, p, f, r));
    assert v'.settlements == v.settlements;
    LateRegistered(rec, v, p, a, f, r, v');
  }

  lemma RegisteredKeepsPromiseInv(rec: PromiseRec, log: seq<Event>, p: nat, f: Reaction, r: Reaction, a: Around)
    requires PromiseInv(rec, ViewOf(log, p), p, a)
    requires var side := RejectSide(ViewOf(log, p).regs); forall i :: 0 <= i < |side| ==> side[i].id < r.id
    ensures PromiseInv(RegisteredRec(rec, f, r), ViewOf(log + RegisterEvents(rec, p, f, r), p), p, RegisteredAround(rec, r, a))
  {
    hide ViewOf, PromiseInv, RegisteredRec, RegisteredAround, RegisterEvents, Late, RejectSide;
    ViewAppend(log, RegisterEvents(rec, p, f, r), p);
    RegisterView(rec, p, f, r);
    if Late(rec.state, ViewOf(log, p)) {
      LateStays(rec, ViewOf(log, p), p, f, r, a);
    } else {
      EarlyRegistered(rec, ViewOf(log, p), p, f, r, a);
    }
  }

  // ---- the tracker returns

  lemma AccountedTold(s: seq<Reaction>, open: seq<Reaction>, dropped: seq<Reaction>, side: seq<Reaction>)
    requires Accounted(s, open, dropped, side) && open != []
    ensures Accounted(s + [open[|open| - 1]], open[..|open| - 1], dropped, side)
  {
    assert open == open[..|open| - 1] + [open[|open| - 1]];
  }

  lemma TurnsTold(s: seq<Reaction>, open: seq<Reaction>, outOfTurn: bool)
    requires Turns(s, open, outOfTurn) && open != []
    ensures var r := open[|open| - 1]; Turns(s + [r], open[..|open| - 1], s != [])
  {
    var r := open[|open| - 1];
    if s != [] {
      assert (s + [r])[0] == s[0] && (s + [r])[|s|] == r;
    }
  }

  lemma TurnsEmpty(open: seq<Reaction>, outOfTurn: bool)
    requires Turns([], open, outOfTurn)
    ensures !outOfTurn
  {
  }

  /** When the tracker returns to a registration, that is out of turn exactly if the promise is handled by then. */
  lemma ToldKeepsPromiseInv(rec: PromiseRec, log: seq<Event>, p: nat, a: Around)
    requires PromiseInv(rec, ViewOf(log, p), p, a) && a.open != []
    ensures var n := |a.open| - 1;
      PromiseInv(rec.(handled := true), ViewOf(log + [Queued(p, ReactionJob(a.open[n], rec.result))], p), p,
                 a.(open := a.open[..n], outOfTurn := a.outOfTurn || rec.handled))
  {
    hide ViewOf, Accounted, Turns, Told, Served;
    var r := a.open[|a.open| - 1];
    var v, e := ViewOf(log, p), Queued(p, ReactionJob(r, rec.result));
    ViewAppend(log, [e], p);
    ViewOne(e, p);
    ServedAppend(v.jobs, [e]);
    ServedOne(p, r, rec.result);
    ServedSize(v.jobs);
    AccountedTold(Served(v.jobs), a.open, a.dropped, RejectSide(v.regs));
    TurnsTold(Served(v.jobs), a.open, a.outOfTurn);
    if Served(v.jobs) == [] { TurnsEmpty(a.open, a.outOfTurn); }
    assert v.regs + [] == v.regs && v.tracks + [] == v.tracks && v.life + [] == v.life && v.settlements + [] == v.settlements;
  }

  lemma AccountedLess(s: seq<Reaction>, open: seq<Reaction>, cut: seq<Reaction>, dropped: seq<Reaction>, side: seq<Reaction>)
    requires Accounted(s, open + cut, dropped, side)
    ensures Accounted(s, open, dropped + cut, side)
  {
  }

  lemma TurnsLess(s: seq<Reaction>, open: seq<Reaction>, cut: seq<Reaction>, outOfTurn: bool)
    requires Turns(s, open + cut, outOfTurn)
    ensures Turns(s, open, outOfTurn)
  {
    assert forall i :: 0 <= i < |open| ==> (open + cut)[i] == open[i];
  }

  /** Operations that are ended take their reactions with them. */
  lemma EndedKeepsPromiseInv(rec: PromiseRec, v: View, p: nat, a: Around, open: seq<Reaction>, cut: seq<Reaction>)
    requires PromiseInv(rec, v, p, a) && a.open == open + cut
    ensures PromiseInv(rec, v, p, a.(open := open, dropped := a.dropped + cut))
  {
    hide Accounted, Turns, Told, Served;
    if Late(rec.state, v) {
      AccountedLess(Served(v.jobs), open, cut, a.dropped, RejectSide(v.regs));
      TurnsLess(Served(v.jobs), open, cut, a.outOfTurn);
    } else {
      assert open == [] && cut == [];
    }
  }

  // ---------------------------------------------------------------- the conserved quantity

  function Tally(c: bool): nat {
    if c then 1 else 0
  }

  /** Pairs of resolving functions of p that were not used yet. */
  function UnusedPairs(ps: seq<Pair>, p: nat): nat {
    if ps == [] then 0
    else var x := ps[|ps| - 1]; UnusedPairs(ps[..|ps| - 1], p) + Tally(x.promise == p && !x.alreadyResolved)
  }

  /** Queued jobs that will create another pair of resolving functions for p. */
  function ThenableJobs(ts: seq<Ticket>, p: nat): nat {
    if ts == [] then 0
    else var x := ts[|ts| - 1].job; ThenableJobs(ts[..|ts| - 1], p) + Tally(x.ThenableJob? && x.promise == p)
  }

  /** Calls of resolve for p that are still reading resolution.then, and such jobs in batches being drained. */
  function HeldByFrames(fs: seq<Frame>, p: nat): nat {
    if fs == [] then 0
    else HeldByFrames(fs[..|fs| - 1], p) + HeldBy(fs[|fs| - 1], p)
  }

  function HeldBy(f: Frame, p: nat): nat {
    match f
    case AwaitThen(q, _) => Tally(p == q)
    case Draining(batch) => ThenableJobs(batch, p)
    case _ => 0
  }

  function Tokens(w: World, p: nat): nat {
    UnusedPairs(w.pairs, p) + ThenableJobs(w.queue, p) + HeldByFrames(w.frames, p)
  }

  lemma {:induction false} UsePair(ps: seq<Pair>, i: nat, p: nat)
    requires i < |ps| && !ps[i].alreadyResolved
    ensures UnusedPairs(ps, p) == UnusedPairs(ps[i := ps[i].(alreadyResolved := true)], p) + Tally(ps[i].promise == p)
  {
    var qs := ps[i := ps[i].(alreadyResolved := true)];
    var n := |ps| - 1;
    if i < n {
      UsePair(ps[..n], i, p);
      assert qs[..n] == ps[..n][i := ps[i].(alreadyResolved := true)];
    } else {
      assert qs[..n] == ps[..n];
    }
  }

  lemma {:induction false} ThenableJobsAppend(a: seq<Ticket>, b: seq<Ticket>, p: nat)
    ensures ThenableJobs(a + b, p) == ThenableJobs(a, p) + ThenableJobs(b, p)
  {
    if b == [] {
      assert a + b == a;
    } else {
      var n := |b| - 1;
      ThenableJobsAppend(a, b[..n], p);
      assert (a + b)[..|a + b| - 1] == a + b[..n];
    }
  }

  lemma {:induction false} NoThenables(ts: seq<Ticket>, p: nat)
    requires forall i :: 0 <= i < |ts| ==> !(ts[i].job.ThenableJob? && ts[i].job.promise == p)
    ensures ThenableJobs(ts, p) == 0
  {
    if ts != [] { NoThenables(ts[..|ts| - 1], p); }
  }

  lemma OneTicket(t: Ticket, p: nat)
    ensures ThenableJobs([t], p) == Tally(t.job.ThenableJob? && t.job.promise == p)
  {
    assert [t][..0] == [];
  }

  // ---------------------------------------------------------------- frames

  /** The jobs left in the batches that are being drained, outermost first. */
  function Batches(fs: seq<Frame>): seq<Ticket> {
    if fs == [] then [] else Batches(fs[..|fs| - 1]) + (if fs[|fs| - 1].Draining? then fs[|fs| - 1].batch else [])
  }

  /** The jobs that wait, in the order in which they were queued. */
  function Unstarted(w: World): seq<Ticket> {
    Batches(w.frames) + w.queue
  }

  lemma FramePushed(fs: seq<Frame>, f: Frame)
    ensures forall p: nat :: HeldByFrames(fs + [f], p) == HeldByFrames(fs, p) + HeldBy(f, p)
    ensures forall p: nat :: Open(fs + [f], p) == Open(fs, p) + if f.TellingHandle? && f.promise == p then [f.reaction] else []
    ensures Batches(fs + [f]) == Batches(fs) + if f.Draining? then f.batch else []
  {
    assert (fs + [f])[..|fs|] == fs;
  }

  lemma {:induction false} TellingIff(fs: seq<Frame>, p: nat)
    ensures Telling(fs, p) <==> Open(fs, p) != []
  {
    if fs != [] {
      var init := fs[..|fs| - 1];
      TellingIff(init, p);
      if Telling(init, p) {
        var i :| 0 <= i < |init| && init[i].TellingHandle? && init[i].promise == p;
        assert fs[i] == init[i];
      }
    }
  }

  lemma {:induction false} FramesAppend(a: seq<Frame>, b: seq<Frame>, p: nat)
    ensures Open(a + b, p) == Open(a, p) + Open(b, p) && HeldByFrames(a + b, p) == HeldByFrames(a, p) + HeldByFrames(b, p)
  {
    if b == [] {
      assert a + b == a;
    } else {
      var n := |b| - 1;
      FramesAppend(a, b[..n], p);
      assert (a + b)[..|a + b| - 1] == a + b[..n];
    }
  }

  lemma {:induction false} BatchesAppend(a: seq<Frame>, b: seq<Frame>)
    ensures Batches(a + b) == Batches(a) + Batches(b)
  {
    if b == [] {
      assert a + b == a;
    } else {
      var n := |b| - 1;
      BatchesAppend(a, b[..n]);
      assert (a + b)[..|a + b| - 1] == a + b[..n];
    }
  }

  lemma {:induction false} NoFrames(fs: seq<Frame>, p: nat)
    requires forall i :: 0 <= i < |fs| ==> HeldBy(fs[i], p) == 0 && !(fs[i].TellingHandle? && fs[i].promise == p)
    ensures HeldByFrames(fs, p) == 0 && Open(fs, p) == []
  {
    if fs != [] { NoFrames(fs[..|fs| - 1], p); }
  }

  // ---------------------------------------------------------------- the order of jobs

  function QueuedTickets(log: seq<Event>): seq<Ticket> {
    if log == [] then []
    else
      var n := |log| - 1;
      QueuedTickets(log[..n]) + (if log[n].Queued? then [Ticket(n, log[n].job)] else [])
  }

  function StartedTickets(log: seq<Event>): seq<Ticket> {
    if log == [] then []
    else var e := log[|log| - 1]; StartedTickets(log[..|log| - 1]) + (if e.Started? then [e.ticket] else [])
  }

  lemma OneMoreEvent(log: seq<Event>, e: Event)
    ensures QueuedTickets(log + [e]) == QueuedTickets(log) + (if e.Queued? then [Ticket(|log|, e.job)] else [])
    ensures StartedTickets(log + [e]) == StartedTickets(log) + (if e.Started? then [e.ticket] else [])
  {
    assert (log + [e])[..|log|] == log;
  }

  lemma {:induction false} ListQueued(log: seq<Event>, p: nat, js: seq<Job>)
    ensures QueuedTickets(log + QueuedList(p, js)) == QueuedTickets(log) + Tickets(|log|, js)
    ensures StartedTickets(log + QueuedList(p, js)) == StartedTickets(log)
  {
    if js == [] {
      assert log + QueuedList(p, js) == log;
    } else {
      var n := |js| - 1;
      ListQueued(log, p, js[..n]);
      hide QueuedTickets, StartedTickets;
      var init := log + QueuedList(p, js[..n]);
      assert log + QueuedList(p, js) == init + [Queued(p, js[n])];
      OneMoreEvent(init, Queued(p, js[n]));
      assert Tickets(|log|, js) == Tickets(|log|, js[..n]) + [Ticket(|log| + n, js[n])];
    }
  }

  ghost predicate Increasing(ts: seq<Ticket>) {
    forall i, j :: 0 <= i < j < |ts| ==> ts[i].id < ts[j].id
  }

  ghost predicate Below(ts: seq<Ticket>, n: nat) {
    forall i :: 0 <= i < |ts| ==> ts[i].id < n
  }

  /** A job was started although one queued before it was not, which may have been started since. */
  ghost predicate OutOfOrder(started: seq<Ticket>, pending: seq<Ticket>) {
    exists i, j :: 0 <= i < |started| && i < j < |started + pending| && started[i].id > (started + pending)[j].id
  }

  /** Each job was started, or waits, or was lost with the operation that was to start it; and jobs start in the order in
      which they were queued as long as none is overtaken. */
  ghost predicate InTurn(queued: seq<Ticket>, started: seq<Ticket>, pending: seq<Ticket>, lost: seq<Ticket>, overtaken: bool) {
    && multiset(queued) == multiset(started + pending) + multiset(lost)
    && (!overtaken ==> Increasing(started + pending))
    && (overtaken && lost == [] ==> OutOfOrder(started, pending))
  }

  /** The jobs in batches that were given up. */
  function Lost(w: World): seq<Ticket> {
    Batches(w.ended)
  }

  ghost predicate OrderOk(w: World) {
    && Increasing(Unstarted(w)) && Below(StartedTickets(w.log) + Unstarted(w), |w.log|)
    && InTurn(QueuedTickets(w.log), StartedTickets(w.log), Unstarted(w), Lost(w), w.overtaken)
  }

  lemma {:induction false} QueuedIncrease(log: seq<Event>)
    ensures Increasing(QueuedTickets(log)) && Below(QueuedTickets(log), |log|)
  {
    if log != [] {
      QueuedIncrease(log[..|log| - 1]);
    }
  }

  /** More jobs at the end of the queue. */
  lemma InTurnMore(queued: seq<Ticket>, started: seq<Ticket>, pending: seq<Ticket>, lost: seq<Ticket>, overtaken: bool, ts: seq<Ticket>, n: nat)
    requires InTurn(queued, started, pending, lost, overtaken)
    requires Below(started + pending, n) && Increasing(ts) && forall i :: 0 <= i < |ts| ==> n <= ts[i].id
    ensures InTurn(queued + ts, started, pending + ts, lost, overtaken)
  {
    var s, t := started + pending, started + (pending + ts);
    assert t == s + ts;
    if overtaken && lost == [] {
      var i, j :| 0 <= i < |started| && i < j < |s| && started[i].id > s[j].id;
      assert t[j] == s[j];
    }
  }

  /** The job at position k is started. */
  lemma InTurnStarted(queued: seq<Ticket>, started: seq<Ticket>, front: seq<Ticket>, t: Ticket, back: seq<Ticket>, lost: seq<Ticket>, overtaken: bool)
    requires InTurn(queued, started, front + [t] + back, lost, overtaken) && Increasing(front + [t] + back)
    ensures InTurn(queued, started + [t], front + back, lost, overtaken || front != [])
  {
    var s, s' := started + (front + [t] + back), started + [t] + (front + back);
    assert s == started + front + [t] + back && s' == started + [t] + front + back;
    assert multiset(s) == multiset(started) + multiset(front) + multiset{t} + multiset(back);
    assert multiset(s') == multiset(started) + multiset{t} + multiset(front) + multiset(back);
    if overtaken {
      if lost == [] { StillOutOfOrder(started, front, t, back); }
    } else if front != [] {
      assert front[0].id < t.id by {
        assert (front + [t] + back)[0] == front[0] && (front + [t] + back)[|front|] == t;
      }
      assert (started + [t])[|started|] == t && s'[|started| + 1] == front[0];
    } else {
      assert s' == s;
    }
  }

  /** Some of the jobs that wait are given up. */
  lemma InTurnLost(queued: seq<Ticket>, started: seq<Ticket>, a: seq<Ticket>, b: seq<Ticket>, c: seq<Ticket>, lost: seq<Ticket>, overtaken: bool)
    requires InTurn(queued, started, a + b + c, lost, overtaken)
    ensures InTurn(queued, started, a + c, lost + b, overtaken)
  {
    var s, t := started + (a + b + c), started + (a + c);
    assert s == started + a + b + c && t == started + a + c;
    if overtaken && lost + b == [] {
      assert a + b + c == a + c;
    }
    WithoutMiddle(started + a, b, c);
  }

  lemma WithoutMiddle(a: seq<Ticket>, b: seq<Ticket>, c: seq<Ticket>)
    ensures Increasing(a + b + c) ==> Increasing(a + c)
    ensures forall n: nat :: Below(a + b + c, n) ==> Below(a + c, n)
  {
    var s, t := a + b + c, a + c;
    forall i | 0 <= i < |t| ensures t[i] == s[if i < |a| then i else i + |b|] {
    }
  }

  lemma StillOutOfOrder(started: seq<Ticket>, front: seq<Ticket>, t: Ticket, back: seq<Ticket>)
    requires OutOfOrder(started, front + [t] + back)
    ensures OutOfOrder(started + [t], front + back)
  {
    var pending := front + [t] + back;
    var s, s' := started + pending, started + [t] + (front + back);
    var i, j :| 0 <= i < |started| && i < j < |s| && started[i].id > s[j].id;
    var m := |started| + |front|;
    var j' := if j < |started| then j else if j < m then j + 1 else if j == m then |started| else j;
    assert s'[j'] == s[j];
    assert (started + [t])[i] == started[i];
  }

  // ---------------------------------------------------------------- the invariant

  /** Every event is about a promise that exists. */
  ghost predicate LogOk(w: World) {
    && (forall i :: 0 <= i < |w.log| && !w.log[i].Started? ==> w.log[i].p < |w.promises|)
    && (forall p :: p in w.retold ==> p < |w.promises|)
    && (forall p :: p in w.outOfTurn ==> p < |w.promises|)
  }

  /** Reactions are numbered by where their registration is in the history; and reject waits for the tracker only
      if there are no reactions. */
  ghost predicate IdsOk(w: World) {
    && (forall i :: 0 <= i < |w.log| && w.log[i].Registered? ==> w.log[i].onFulfilled.id == w.log[i].onRejected.id == i)
    && (forall i :: 0 <= i < |w.frames| && w.frames[i].TellingReject? ==> w.frames[i].reactions == [])
  }

  ghost predicate Histories(w: World) {
    forall p :: 0 <= p < |w.promises| ==> PromiseInv(w.promises[p], ViewOf(w.log, p), p, AroundOf(w, p))
  }

  /** The right to settle p, in circulation or lost with an operation that ended: exactly one for a pending promise, none
      for a settled one. `hand` is a right held by an operation in progress. */
  ghost predicate RightsOk(w: World, hand: Option<nat>) {
    forall p :: 0 <= p < |w.promises| ==>
      Tokens(w, p) + HeldByFrames(w.ended, p) + Tally(hand == Some(p)) == Tally(w.promises[p].state == Pending)
  }

  ghost predicate Inv(w: World, hand: Option<nat>) {
    && Sane(w)
    && LogOk(w)
    && IdsOk(w)
    && Histories(w)
    && OrderOk(w)
    && RightsOk(w, hand)
    && (hand.Some? ==> hand.value < |w.promises|)
  }

  // ---- names

  /** More names denote something. */
  ghost predicate NamesGrow(w: World, w': World) {
    && |w.promises| <= |w'.promises| && |w.pairs| <= |w'.pairs|
    && forall i :: 0 <= i < |w'.pairs| ==> w'.pairs[i].promise < |w'.promises|
  }

  lemma StillOk(w: World, w': World)
    requires NamesGrow(w, w')
    ensures forall r :: ReactionOk(w, r) ==> ReactionOk(w', r)
    ensures forall j :: JobOk(w, j) ==> JobOk(w', j)
    ensures forall ts: seq<Ticket> :: JobsOk(w, ts) ==> JobsOk(w', ts)
    ensures forall f :: FrameOk(w, f) ==> FrameOk(w', f)
  {
    forall ts: seq<Ticket> | JobsOk(w, ts) ensures JobsOk(w', ts) {
      assert forall i :: 0 <= i < |ts| ==> JobOk(w, ts[i].job);
    }
    forall f | FrameOk(w, f) ensures FrameOk(w', f) {
      if f.TellingReject? {
        assert forall i :: 0 <= i < |f.reactions| ==> ReactionOk(w, f.reactions[i]);
      }
    }
  }

  ghost predicate FramesOk(w: World, fs: seq<Frame>) {
    forall i :: 0 <= i < |fs| ==> FrameOk(w, fs[i])
  }

  ghost predicate PromisesOk(w: World, ps: seq<PromiseRec>) {
    && (forall p, k :: 0 <= p < |ps| && 0 <= k < |ps[p].fulfillReactions| ==> ReactionOk(w, ps[p].fulfillReactions[k]))
    && (forall p, k :: 0 <= p < |ps| && 0 <= k < |ps[p].rejectReactions| ==> ReactionOk(w, ps[p].rejectReactions[k]))
  }

  lemma SaneIs(w: World)
    ensures Sane(w) <==> NamesGrow(w, w) && JobsOk(w, w.queue) && FramesOk(w, w.frames) && FramesOk(w, w.ended) && PromisesOk(w, w.promises)
  {
  }

  lemma SaneStays(w: World, w': World)
    requires Sane(w) && NamesGrow(w, w')
    ensures JobsOk(w', w.queue) && FramesOk(w', w.frames) && FramesOk(w', w.ended) && PromisesOk(w', w.promises)
  {
    StillOk(w, w');
    hide ReactionOk, JobsOk, FrameOk;
    assert forall p, k :: 0 <= p < |w.promises| && 0 <= k < |w.promises[p].fulfillReactions| ==> ReactionOk(w, w.promises[p].fulfillReactions[k]);
    assert forall p, k :: 0 <= p < |w.promises| && 0 <= k < |w.promises[p].rejectReactions| ==> ReactionOk(w, w.promises[p].rejectReactions[k]);
    assert forall i :: 0 <= i < |w.frames| ==> FrameOk(w, w.frames[i]);
    assert forall i :: 0 <= i < |w.ended| ==> FrameOk(w, w.ended[i]);
  }

  // ---- the order of jobs, through steps that queue some and start none

  lemma OrderGrows(w: World, w': World, ts: seq<Ticket>)
    requires OrderOk(w) && Unstarted(w') == Unstarted(w) + ts && |w.log| <= |w'.log|
    requires QueuedTickets(w'.log) == QueuedTickets(w.log) + ts && StartedTickets(w'.log) == StartedTickets(w.log)
    requires Increasing(ts) && Below(ts, |w'.log|) && forall i :: 0 <= i < |ts| ==> |w.log| <= ts[i].id
    requires w'.overtaken == w.overtaken && w'.ended == w.ended
    ensures OrderOk(w')
  {
    hide QueuedTickets, StartedTickets, Unstarted, InTurn, Batches;
    InTurnMore(QueuedTickets(w.log), StartedTickets(w.log), Unstarted(w), Lost(w), w.overtaken, ts, |w.log|);
    var s, t := StartedTickets(w.log) + Unstarted(w), StartedTickets(w.log) + (Unstarted(w) + ts);
    assert t == s + ts;
    assert forall i :: 0 <= i < |Unstarted(w)| ==> Unstarted(w)[i] == s[|StartedTickets(w.log)| + i];
  }

  lemma OrderSame(w: World, w': World)
    requires OrderOk(w) && Unstarted(w') == Unstarted(w) && w'.log == w.log
    requires w'.overtaken == w.overtaken && w'.ended == w.ended
    ensures OrderOk(w')
  {
  }

  // ---- histories, through steps that are about one promise

  lemma HistoriesGrow(w: World, w': World, ext: seq<Event>, p: nat)
    requires Histories(w) && |w'.promises| == |w.promises| && p < |w.promises| && w'.log == w.log + ext
    requires PromiseInv(w'.promises[p], ViewOf(w'.log, p), p, AroundOf(w', p))
    requires forall q: nat :: q < |w.promises| && q != p ==>
      w'.promises[q] == w.promises[q] && AroundOf(w', q) == AroundOf(w, q) && forall i :: 0 <= i < |ext| ==> Foreigner(ext[i], q)
    ensures Histories(w')
  {
    hide ViewOf, PromiseInv, AroundOf, Foreigner;
    forall q | 0 <= q < |w'.promises| && q != p ensures PromiseInv(w'.promises[q], ViewOf(w'.log, q), q, AroundOf(w', q)) {
      PromiseInvFrame(w.promises[q], w.log, ext, q, AroundOf(w, q));
    }
  }

  lemma HistoriesSame(w: World, w': World)
    requires Histories(w) && w'.promises == w.promises && w'.log == w.log
    requires forall q: nat :: q < |w.promises| ==> AroundOf(w', q) == AroundOf(w, q)
    ensures Histories(w')
  {
    hide ViewOf, PromiseInv, AroundOf;
  }

  /** Events that no promise sees. */
  lemma HistoriesUnseen(w: World, w': World, e: Event)
    requires Histories(w) && w'.promises == w.promises && w'.log == w.log + [e] && (e.Started? || (e.Queued? && e.job.ThenableJob?))
    requires forall q: nat :: q < |w.promises| ==> AroundOf(w', q) == AroundOf(w, q)
    ensures Histories(w')
  {
    hide ViewOf, PromiseInv, AroundOf;
    forall q | 0 <= q < |w'.promises| ensures PromiseInv(w'.promises[q], ViewOf(w'.log, q), q, AroundOf(w', q)) {
      PromiseInvFrame(w.promises[q], w.log, [e], q, AroundOf(w, q));
    }
  }

  // ---------------------------------------------------------------- settling

  /** Reject and Fulfill in one expression. */
  function Settling(w: World, p: nat, state: PromiseState, value: Value): World
    requires p < |w.promises|
  {
    var rec, late := w.promises[p], Untold(state, w.promises[p].handled);
    w.(promises := w.promises[p := PromiseRec(state, value, [], [], rec.handled)], queue := w.queue + SettleTickets(|w.log|, rec, state, value),
       frames := w.frames + If(late, TellingReject(p, rec.rejectReactions, value)), log := w.log + SettleEvents(rec, p, state, value))
  }

  lemma SettlingIs(w: World, p: nat, value: Value)
    requires p < |w.promises|
    ensures Reject(w, p, value) == Settling(w, p, Rejected, value)
    ensures Fulfill(w, p, value) == Settling(w, p, Fulfilled, value)
  {
    var rec := w.promises[p];
    var e, f := Settled(p, Rejected, value), Settled(p, Fulfilled, value);
    var js, ks := JobsList(rec.rejectReactions, value), JobsList(rec.fulfillReactions, value);
    TriggerEffect(Settle(w, p, Rejected, value), p, rec.rejectReactions, value);
    TriggerEffect(Settle(w, p, Fulfilled, value), p, rec.fulfillReactions, value);
    assert w.log + ([e] + [Tracked(p, TrackReject)]) == w.log + [e] + [Tracked(p, TrackReject)];
    assert w.log + ([e] + QueuedList(p, js)) == w.log + [e] + QueuedList(p, js);
    assert w.log + ([f] + QueuedList(p, ks)) == w.log + [f] + QueuedList(p, ks);
    assert w.queue + [] == w.queue && w.frames + [] == w.frames;
  }

  lemma SettlingAround(w: World, p: nat, state: PromiseState, value: Value)
    requires p < |w.promises|
    ensures var w' := Settling(w, p, state, value);
      (forall q: nat :: AroundOf(w', q) == AroundOf(w, q)) && Batches(w'.frames) == Batches(w.frames)
      && forall q: nat :: HeldByFrames(w'.frames, q) == HeldByFrames(w.frames, q)
  {
    var f := TellingReject(p, w.promises[p].rejectReactions, value);
    FramePushed(w.frames, f);
    assert w.frames + [] == w.frames;
  }

  lemma SettleForeign(rec: PromiseRec, p: nat, state: PromiseState, value: Value)
    ensures forall q: nat, i :: q != p && 0 <= i < |SettleEvents(rec, p, state, value)| ==> Foreigner(SettleEvents(rec, p, state, value)[i], q)
    ensures forall i :: 0 <= i < |SettleEvents(rec, p, state, value)| ==> !SettleEvents(rec, p, state, value)[i].Registered?
  {
  }

  lemma SettlingKeepsHistories(w: World, p: nat, state: PromiseState, value: Value)
    requires p < |w.promises| && w.promises[p].state == Pending && state != Pending && Histories(w)
    ensures Histories(Settling(w, p, state, value))
    ensures !w.promises[p].handled ==> w.promises[p].rejectReactions == []
  {
    SettlingAround(w, p, state, value);
    SettleForeign(w.promises[p], p, state, value);
    hide ViewOf, PromiseInv, AroundOf, SettleEvents, Foreigner;
    SettledKeepsPromiseInv(w.promises[p], w.log, p, state, value, AroundOf(w, p));
    HistoriesGrow(w, Settling(w, p, state, value), SettleEvents(w.promises[p], p, state, value), p);
  }

  /** The tickets of the jobs that settling p queues. */
  function SettleTickets(n: nat, rec: PromiseRec, state: PromiseState, value: Value): seq<Ticket> {
    if Untold(state, rec.handled) then [] else Tickets(n + 1, JobsList(Waiting(rec, state), value))
  }

  lemma SettlingTickets(log: seq<Event>, rec: PromiseRec, p: nat, state: PromiseState, value: Value)
    ensures var ext, ts := SettleEvents(rec, p, state, value), SettleTickets(|log|, rec, state, value);
      && QueuedTickets(log + ext) == QueuedTickets(log) + ts && StartedTickets(log + ext) == StartedTickets(log)
      && Increasing(ts) && Below(ts, |log + ext|) && forall i :: 0 <= i < |ts| ==> |log| <= ts[i].id
  {
    hide QueuedTickets, StartedTickets;
    var e, js := Settled(p, state, value), JobsList(Waiting(rec, state), value);
    OneMoreEvent(log, e);
    if Untold(state, rec.handled) {
      OneMoreEvent(log + [e], Tracked(p, TrackReject));
      assert log + ([e] + [Tracked(p, TrackReject)]) == log + [e] + [Tracked(p, TrackReject)];
    } else {
      ListQueued(log + [e], p, js);
      assert log + ([e] + QueuedList(p, js)) == log + [e] + QueuedList(p, js);
    }
  }

  lemma SettlingKeepsOrder(w: World, p: nat, state: PromiseState, value: Value)
    requires p < |w.promises| && OrderOk(w)
    ensures OrderOk(Settling(w, p, state, value))
  {
    hide QueuedTickets, StartedTickets, OrderOk, Batches, SettleEvents, SettleTickets, HeldByFrames, AroundOf, Unstarted, Increasing, Below, Untold;
    var rec, w' := w.promises[p], Settling(w, p, state, value);
    var ts := SettleTickets(|w.log|, rec, state, value);
    SettlingAround(w, p, state, value);
    SettlingTickets(w.log, rec, p, state, value);
    UnstartedMore(w, w', ts);
    OrderGrows(w, w', ts);
  }

  lemma SettlingKeepsRights(w: World, p: nat, state: PromiseState, value: Value)
    requires p < |w.promises| && state != Pending && RightsOk(w, Some(p))
    ensures w.promises[p].state == Pending
    ensures RightsOk(Settling(w, p, state, value), None)
  {
    var w', rec := Settling(w, p, state, value), w.promises[p];
    SettlingAround(w, p, state, value);
    var ts := SettleTickets(|w.log|, rec, state, value);
    forall q: nat ensures Tokens(w', q) == Tokens(w, q) {
      ThenableJobsAppend(w.queue, ts, q);
      NoThenables(ts, q);
    }
    hide Tokens;
  }

  lemma SettlingKeepsSane(w: World, p: nat, state: PromiseState, value: Value)
    requires p < |w.promises| && Sane(w) && LogOk(w)
    ensures Sane(Settling(w, p, state, value)) && LogOk(Settling(w, p, state, value))
  {
    var w', rec := Settling(w, p, state, value), w.promises[p];
    SaneStays(w, w');
    SaneIs(w');
    var rs := Waiting(rec, state);
    assert forall k :: 0 <= k < |rec.fulfillReactions| ==> ReactionOk(w', rec.fulfillReactions[k]);
    assert forall k :: 0 <= k < |rec.rejectReactions| ==> ReactionOk(w', rec.rejectReactions[k]);
    assert forall k :: 0 <= k < |rs| ==> ReactionOk(w', rs[k]);
    hide ReactionOk;
  }

  lemma SettlingKeepsIds(w: World, p: nat, state: PromiseState, value: Value)
    requires p < |w.promises| && IdsOk(w) && (!w.promises[p].handled ==> w.promises[p].rejectReactions == [])
    ensures IdsOk(Settling(w, p, state, value))
  {
    var w' := Settling(w, p, state, value);
    var ext := SettleEvents(w.promises[p], p, state, value);
    assert forall i :: 0 <= i < |ext| ==> !ext[i].Registered?;
    forall i | 0 <= i < |w'.log| && w'.log[i].Registered? ensures w'.log[i].onFulfilled.id == w'.log[i].onRejected.id == i {
      assert i < |w.log|;
    }
  }

  lemma SettlingKeepsInv(w: World, p: nat, state: PromiseState, value: Value)
    requires Inv(w, Some(p)) && state != Pending
    ensures w.promises[p].state == Pending
    ensures Inv(Settling(w, p, state, value), None)
  {
    hide Histories, OrderOk, RightsOk, Sane, LogOk, IdsOk, Settling;
    SettlingKeepsRights(w, p, state, value);
    SettlingKeepsOrder(w, p, state, value);
    SettlingKeepsHistories(w, p, state, value);
    SettlingKeepsSane(w, p, state, value);
    SettlingKeepsIds(w, p, state, value);
  }

  lemma FulfillOrRejectKeepsInv(w: World, p: nat, value: Value)
    requires Inv(w, Some(p))
    ensures w.promises[p].state == Pending
    ensures Inv(Reject(w, p, value), None)
    ensures Inv(Fulfill(w, p, value), None)
  {
    hide Histories, OrderOk, RightsOk, Sane, LogOk, IdsOk, Settling, Reject, Fulfill;
    SettlingKeepsInv(w, p, Rejected, value);
    SettlingKeepsInv(w, p, Fulfilled, value);
    SettlingIs(w, p, value);
  }

  // ---------------------------------------------------------------- calls into user code, and returns

  /** Moving a right between the hand, the pairs, the queue and the frames. */
  lemma MoveRight(w: World, hand: Option<nat>, w': World, hand': Option<nat>)
    requires Inv(w, hand) && Sane(w') && IdsOk(w') && (hand'.Some? ==> hand'.value < |w'.promises|)
    requires w'.promises == w.promises && w'.log == w.log && w'.ended == w.ended && w'.retold == w.retold && w'.outOfTurn == w.outOfTurn
    requires w'.overtaken == w.overtaken && Unstarted(w') == Unstarted(w) && forall q: nat :: Open(w'.frames, q) == Open(w.frames, q)
    requires forall q: nat :: Tokens(w', q) + Tally(hand' == Some(q)) == Tokens(w, q) + Tally(hand == Some(q))
    ensures Inv(w', hand')
  {
    hide Tokens, Sane, PromiseInv, ViewOf, QueuedTickets, StartedTickets, Open, InTurn, IdsOk;
    OrderSame(w, w');
    HistoriesSame(w, w');
    hide OrderOk, Histories;
  }

  lemma SameIds(w: World, w': World)
    requires IdsOk(w) && w'.log == w.log
    requires forall i :: 0 <= i < |w'.frames| && (w'.frames[i].TellingHandle? || w'.frames[i].TellingReject?) ==> w'.frames[i] in w.frames
    ensures IdsOk(w')
  {
  }

  /** Using a pair of resolving functions takes its right in hand. */
  lemma MarkResolvedKeepsInv(w: World, i: nat)
    requires Inv(w, None) && i < |w.pairs| && !w.pairs[i].alreadyResolved
    ensures Inv(MarkResolved(w, i), Some(w.pairs[i].promise))
  {
    hide Histories, OrderOk, RightsOk, LogOk, HeldByFrames, ThenableJobs, Unstarted;
    var w' := MarkResolved(w, i);
    forall q: nat ensures Tokens(w', q) + Tally(w.pairs[i].promise == q) == Tokens(w, q) {
      UsePair(w.pairs, i, q);
    }
    SaneStays(w, w');
    SaneIs(w');
    SameIds(w, w');
    UnstartedSame(w, w');
    hide Sane, IdsOk, Tokens;
    MoveRight(w, None, w', Some(w.pairs[i].promise));
  }

  lemma UnstartedSame(w: World, w': World)
    requires w'.frames == w.frames && w'.queue == w.queue
    ensures Unstarted(w') == Unstarted(w)
  {
  }

  /** Frames that hold neither jobs nor a reaction. */
  predicate Plain(f: Frame) {
    !f.TellingHandle? && (f.Draining? ==> f.batch == [])
  }

  lemma PushedIs(w: World, f: Frame)
    requires Plain(f)
    ensures var w' := PushFrame(w, f);
      && Unstarted(w') == Unstarted(w) && (forall q: nat :: Open(w'.frames, q) == Open(w.frames, q))
      && forall q: nat :: Tokens(w', q) == Tokens(w, q) + HeldBy(f, q)
  {
    FramePushed(w.frames, f);
    if f.Draining? {
      assert Batches(w.frames) + [] == Batches(w.frames);
      assert forall q: nat :: HeldBy(f, q) == 0;
    }
  }

  /** Waiting for resolution.then puts the right in hand into a frame. */
  lemma PushKeepsInv(w: World, f: Frame, hand: Option<nat>)
    requires Inv(w, hand) && FrameOk(w, f) && Plain(f) && !f.TellingReject? && hand == if f.AwaitThen? then Some(f.promise) else None
    ensures Inv(PushFrame(w, f), None)
  {
    hide Histories, OrderOk, RightsOk, LogOk, Tokens, Unstarted, Open;
    var w' := PushFrame(w, f);
    PushedIs(w, f);
    SaneIs(w);
    SaneStays(w, w');
    StillOk(w, w');
    SaneIs(w');
    SameIds(w, w');
    hide Sane, IdsOk, FrameOk;
    MoveRight(w, hand, w', None);
  }

  /** Returning takes the right of the frame, if any, in hand. */
  lemma PopFrameKeepsInv(w: World)
    requires Inv(w, None) && w.frames != [] && Plain(Top(w))
    ensures Inv(PopFrame(w), if Top(w).AwaitThen? then Some(Top(w).promise) else None)
  {
    hide Histories, OrderOk, RightsOk, LogOk, Tokens, Unstarted, Open;
    var w', f := PopFrame(w), Top(w);
    assert w == PushFrame(w', f);
    PushedIs(w', f);
    assert FrameOk(w, f);
    SaneIs(w);
    SaneStays(w, w');
    SaneIs(w');
    SameIds(w, w');
    hide Sane, IdsOk;
    MoveRight(w, None, w', if f.AwaitThen? then Some(f.promise) else None);
  }

  lemma CallResolveKeepsInv(w: World, i: nat, v: Value)
    requires Inv(w, None) && i < |w.pairs|
    ensures Inv(CallResolve(w, i, v), None)
  {
    hide Histories, OrderOk, RightsOk, LogOk, IdsOk, MarkResolved, Reject, Fulfill;
    var p := w.pairs[i].promise;
    if !w.pairs[i].alreadyResolved {
      MarkResolvedKeepsInv(w, i);
      FulfillOrRejectKeepsInv(MarkResolved(w, i), p, if v == PromiseObject(p) then SelfResolution else v);
      PushKeepsInv(MarkResolved(w, i), AwaitThen(p, v), Some(p));
    }
  }

  lemma CallRejectKeepsInv(w: World, i: nat, v: Value)
    requires Inv(w, None) && i < |w.pairs|
    ensures Inv(CallReject(w, i, v), None)
  {
    hide Histories, OrderOk, RightsOk, LogOk, IdsOk, MarkResolved, Reject, Fulfill;
    if !w.pairs[i].alreadyResolved {
      MarkResolvedKeepsInv(w, i);
      FulfillOrRejectKeepsInv(MarkResolved(w, i), w.pairs[i].promise, v);
    }
  }

  lemma DeliverKeepsInv(w: World, c: Capability, ok: bool, v: Value)
    requires Inv(w, None) && (c.Native? ==> c.pair < |w.pairs|)
    ensures Inv(Deliver(w, c, ok, v), None)
  {
    if c.Native? {
      CallResolveKeepsInv(w, c.pair, v);
      CallRejectKeepsInv(w, c.pair, v);
      hide Inv;
    }
  }

  // ---------------------------------------------------------------- jobs

  /** One more job at the end of the queue. */
  lemma QueueOneOrder(w: World, w': World, p: nat, j: Job)
    requires OrderOk(w) && w'.queue == w.queue + [Ticket(|w.log|, j)] && w'.log == w.log + [Queued(p, j)]
    requires Batches(w'.frames) == Batches(w.frames) && w'.overtaken == w.overtaken && w'.ended == w.ended
    ensures OrderOk(w')
  {
    OneMoreEvent(w.log, Queued(p, j));
    hide QueuedTickets, StartedTickets, OrderOk, Batches;
    var ts := [Ticket(|w.log|, j)];
    assert Unstarted(w') == Unstarted(w) + ts;
    OrderGrows(w, w', ts);
  }

  /** Resolving with a thenable hands the right over to a job. */
  lemma EnqueueThenableKeepsInv(w: World, p: nat, v: Value, then_: nat)
    requires Inv(w, Some(p))
    ensures Inv(Enqueue(w, p, ThenableJob(p, v, then_)), None)
  {
    var j := ThenableJob(p, v, then_);
    var w' := Enqueue(w, p, j);
    EnqueueRights(w, p, v, then_);
    EnqueueKeepsRest(w, p, j);
    hide Histories, OrderOk, RightsOk, Sane, IdsOk, PromiseInv, ViewOf;
    QueueOneOrder(w, w', p, j);
    HistoriesUnseen(w, w', Queued(p, j));
  }

  lemma EnqueueRights(w: World, p: nat, v: Value, then_: nat)
    requires RightsOk(w, Some(p))
    ensures RightsOk(Enqueue(w, p, ThenableJob(p, v, then_)), None)
  {
    var t := Ticket(|w.log|, ThenableJob(p, v, then_));
    var w' := Enqueue(w, p, t.job);
    forall q: nat ensures Tokens(w', q) == Tokens(w, q) + Tally(p == q) {
      ThenableJobsAppend(w.queue, [t], q);
      OneTicket(t, q);
    }
    hide Tokens;
  }

  lemma EnqueueKeepsRest(w: World, p: nat, j: Job)
    requires Sane(w) && LogOk(w) && IdsOk(w) && p < |w.promises| && JobOk(w, j)
    ensures var w' := Enqueue(w, p, j); Sane(w') && LogOk(w') && IdsOk(w')
  {
    var w' := Enqueue(w, p, j);
    SaneIs(w);
    SaneStays(w, w');
    StillOk(w, w');
    SaneIs(w');
    hide ReactionOk, FrameOk;
  }

  lemma GotThenKeepsInv(w: World, o: Outcome<Option<nat>>)
    requires Inv(w, None) && w.frames != [] && Top(w).AwaitThen? && Top(w).promise < |w.promises|
    ensures Inv(GotThen(w, o), None)
  {
    hide Inv, Reject, Fulfill, Enqueue;
    var w1, f := PopFrame(w), Top(w);
    PopFrameKeepsInv(w);
    match o
    case Threw(e) => FulfillOrRejectKeepsInv(w1, f.promise, e);
    case Returned(Some(t)) => EnqueueThenableKeepsInv(w1, f.promise, f.resolution, t);
    case Returned(None) => FulfillOrRejectKeepsInv(w1, f.promise, f.resolution);
  }

  /** A batch further out is not empty exactly if there are jobs before those of the innermost. */
  lemma {:induction false} FurtherOutIff(fs: seq<Frame>, f: Frame)
    ensures LeftFurtherOut(fs + [f]) <==> Batches(fs) != []
  {
    if fs != [] {
      var init, g := fs[..|fs| - 1], fs[|fs| - 1];
      FurtherOutIff(init, f);
      var x, y := init + [f], fs + [f];
      if i :| 0 <= i < |x| - 1 && x[i].Draining? && x[i].batch != [] {
        assert y[i] == x[i];
      }
      if i :| 0 <= i < |y| - 1 && y[i].Draining? && y[i].batch != [] {
        assert i < |init| ==> x[i] == y[i];
      }
      if g.Draining? && g.batch != [] {
        assert y[|init|] == g;
      }
    }
  }

  lemma Regroup(front: seq<Ticket>, b: seq<Ticket>, back: seq<Ticket>)
    requires b != []
    ensures front + b + back == front + [b[0]] + (b[1..] + back) && front + b[1..] + back == front + (b[1..] + back)
  {
  }

  lemma NoMore(a: seq<Ticket>)
    ensures a + [] == a
  {
  }

  /** The jobs that wait, around the one that is next. */
  lemma TakenIs(w: World)
    requires w.frames != [] && Top(w).Draining? && NextBatch(w) != []
    ensures var front, t, back := Batches(w.frames[..|w.frames| - 1]), NextBatch(w)[0], NextBatch(w)[1..] + TakeJob(w).queue;
      && Unstarted(w) == front + [t] + back && Unstarted(TakeJob(w)) == front + back
      && TakeJob(w).overtaken == (w.overtaken || front != [])
  {
    var init, b, top := w.frames[..|w.frames| - 1], NextBatch(w), Top(w);
    var rest := if top.batch != [] then w.queue else [];
    FramePushed(init, top);
    FramePushed(init, Draining(b[1..]));
    assert w.frames == init + [top];
    FurtherOutIff(init, top);
    hide Batches, LeftFurtherOut, HeldByFrames, HeldBy, Open;
    Regroup(Batches(init), b, rest);
    NoMore(b);
    NoMore(Batches(init));
    NoMore(Batches(init) + b);
    assert TakeJob(w).queue == rest;
    assert Unstarted(w) == Batches(init) + b + rest;
  }

  lemma TakenOrder(w: World, w': World, front: seq<Ticket>, t: Ticket, back: seq<Ticket>)
    requires OrderOk(w) && Unstarted(w) == front + [t] + back && Unstarted(w') == front + back
    requires w'.log == w.log + [Started(t)] && w'.ended == w.ended && w'.overtaken == (w.overtaken || front != [])
    ensures OrderOk(w')
  {
    OneMoreEvent(w.log, Started(t));
    IncreasingWithout(StartedTickets(w.log), front, t, back, |w.log|);
    hide QueuedTickets, StartedTickets, Unstarted, InTurn, Increasing, Below, Batches;
    InTurnStarted(QueuedTickets(w.log), StartedTickets(w.log), front, t, back, Lost(w), w.overtaken);
  }

  lemma TakeJobKeepsOrder(w: World)
    requires OrderOk(w) && w.frames != [] && Top(w).Draining? && NextBatch(w) != []
    ensures OrderOk(TakeJob(w))
  {
    hide OrderOk, Unstarted, Batches, LeftFurtherOut;
    TakenIs(w);
    TakenOrder(w, TakeJob(w), Batches(w.frames[..|w.frames| - 1]), NextBatch(w)[0], NextBatch(w)[1..] + TakeJob(w).queue);
  }

  lemma IncreasingWithout(started: seq<Ticket>, front: seq<Ticket>, t: Ticket, back: seq<Ticket>, n: nat)
    requires Increasing(front + [t] + back) && Below(started + (front + [t] + back), n)
    ensures Increasing(front + back) && Below(started + [t] + (front + back), n + 1)
  {
    WithoutMiddle(front, [t], back);
    var s, s' := started + (front + [t] + back), started + [t] + (front + back);
    var m := |started| + |front|;
    forall i | 0 <= i < |s'| ensures s'[i] == s[if i < |started| then i else if i == |started| then m else if i <= m then i - 1 else i] {
    }
  }

  lemma TakeJobRights(w: World)
    requires w.frames != [] && Top(w).Draining? && NextBatch(w) != []
    ensures var j := NextBatch(w)[0].job;
      forall q: nat :: Tokens(TakeJob(w), q) + Tally(j.ThenableJob? && j.promise == q) == Tokens(w, q)
  {
    var init, b, w' := w.frames[..|w.frames| - 1], NextBatch(w), TakeJob(w);
    FramePushed(init, Top(w));
    FramePushed(init, Draining(b[1..]));
    assert w.frames == init + [Top(w)] && b == [b[0]] + b[1..];
    hide UnusedPairs, HeldByFrames;
    forall q: nat ensures ThenableJobs(b, q) == ThenableJobs(b[1..], q) + Tally(b[0].job.ThenableJob? && b[0].job.promise == q) {
      ThenableJobsAppend([b[0]], b[1..], q);
      OneTicket(b[0], q);
    }
  }

  lemma TakeJobKeepsRest(w: World)
    requires Sane(w) && LogOk(w) && IdsOk(w) && w.frames != [] && Top(w).Draining? && NextBatch(w) != []
    ensures Sane(TakeJob(w)) && LogOk(TakeJob(w)) && IdsOk(TakeJob(w)) && JobOk(TakeJob(w), NextBatch(w)[0].job)
  {
    var w', b := TakeJob(w), NextBatch(w);
    SaneIs(w);
    SaneStays(w, w');
    assert FrameOk(w', Top(w));
    assert JobsOk(w', b);
    assert JobOk(w', b[0].job);
    assert JobsOk(w', b[1..]);
    SaneIs(w');
    hide ReactionOk, JobOk;
  }

  lemma TakeJobAround(w: World)
    requires w.frames != [] && Top(w).Draining? && NextBatch(w) != []
    ensures forall q: nat :: AroundOf(TakeJob(w), q) == AroundOf(w, q)
  {
    var init := w.frames[..|w.frames| - 1];
    FramePushed(init, Top(w));
    FramePushed(init, Draining(NextBatch(w)[1..]));
    assert w.frames == init + [Top(w)];
    hide Open, Batches, HeldByFrames, LeftFurtherOut;
  }

  lemma TakeJobKeepsRights(w: World)
    requires RightsOk(w, None) && w.frames != [] && Top(w).Draining? && NextBatch(w) != []
    ensures var j := NextBatch(w)[0].job; RightsOk(TakeJob(w), if j.ThenableJob? then Some(j.promise) else None)
  {
    TakeJobRights(w);
    hide Tokens, NextBatch, LeftFurtherOut;
  }

  /** Taking a job off the queue takes its right, if it has one, in hand. */
  lemma TakeJobKeepsInv(w: World)
    requires Inv(w, None) && w.frames != [] && Top(w).Draining? && NextBatch(w) != []
    ensures var j := NextBatch(w)[0].job; Inv(TakeJob(w), if j.ThenableJob? then Some(j.promise) else None) && JobOk(TakeJob(w), j)
  {
    hide OrderOk, Sane, LogOk, IdsOk, Histories, RightsOk, NextBatch;
    TakeJobKeepsOrder(w);
    TakeJobKeepsRights(w);
    TakeJobKeepsRest(w);
    TakeJobAround(w);
    hide LeftFurtherOut;
    HistoriesUnseen(w, TakeJob(w), Started(NextBatch(w)[0]));
  }

  /** A thenable job turns its right into a new pair. */
  lemma NewPairKeepsInv(w: World, p: nat)
    requires Inv(w, Some(p))
    ensures Inv(w.(pairs := w.pairs + [Pair(p, false)]), None)
  {
    hide Histories, OrderOk, RightsOk, LogOk, HeldByFrames, ThenableJobs, Unstarted;
    var w' := w.(pairs := w.pairs + [Pair(p, false)]);
    assert w'.pairs[..|w.pairs|] == w.pairs;
    forall q: nat ensures Tokens(w', q) == Tokens(w, q) + Tally(p == q) {
    }
    SaneStays(w, w');
    SaneIs(w');
    SameIds(w, w');
    UnstartedSame(w, w');
    hide Sane, IdsOk, Tokens;
    MoveRight(w, Some(p), w', None);
  }

  lemma RunJobKeepsInv(w: World, j: Job)
    requires Inv(w, if j.ThenableJob? then Some(j.promise) else None) && JobOk(w, j)
    ensures Inv(RunJob(w, j), None)
  {
    hide Histories, OrderOk, RightsOk, LogOk, IdsOk, Deliver;
    match j
    case ThenableJob(p, _, _) =>
      var w1 := w.(pairs := w.pairs + [Pair(p, false)]);
      NewPairKeepsInv(w, p);
      PushKeepsInv(w1, InThenable(|w.pairs|), None);
    case ReactionJob(r, argument) =>
      if r.handler.None? {
        DeliverKeepsInv(w, r.capability, r.kind == FulfillReaction, argument);
      } else {
        PushKeepsInv(w, InHandler(r), None);
      }
  }

  // ---------------------------------------------------------------- the tracker

  /** Steps that move no right. */
  lemma RightsSame(w: World, w': World, ts: seq<Ticket>)
    requires RightsOk(w, None) && w'.ended == w.ended && w'.pairs == w.pairs && w'.queue == w.queue + ts
    requires |w'.promises| == |w.promises| && forall q: nat :: q < |w.promises| ==> w'.promises[q].state == w.promises[q].state
    requires forall q: nat :: HeldByFrames(w'.frames, q) == HeldByFrames(w.frames, q)
    requires forall i :: 0 <= i < |ts| ==> ts[i].job.ReactionJob?
    ensures RightsOk(w', None)
  {
    hide UnusedPairs, HeldByFrames;
    forall q: nat ensures Tokens(w', q) == Tokens(w, q) {
      ThenableJobsAppend(w.queue, ts, q);
      NoThenables(ts, q);
    }
    hide Tokens;
  }

  /** The rest of a registration with p that the tracker was told about. */
  function AfterTold(w: World, p: nat, r: Reaction): World
    requires w.frames != [] && p < |w.promises|
  {
    var rec := w.promises[p];
    var j := ReactionJob(r, rec.result);
    w.(promises := w.promises[p := rec.(handled := true)], queue := w.queue + [Ticket(|w.log|, j)],
       frames := w.frames[..|w.frames| - 1], log := w.log + [Queued(p, j)],
       outOfTurn := if rec.handled then w.outOfTurn + {p} else w.outOfTurn)
  }

  lemma PoppedIs(w: World, r: Reaction, p: nat)
    requires w.frames != [] && Top(w) == TellingHandle(p, r)
    ensures var init := w.frames[..|w.frames| - 1];
      && Batches(w.frames) == Batches(init) && (forall q: nat :: HeldByFrames(init, q) == HeldByFrames(w.frames, q))
      && Open(w.frames, p) == Open(init, p) + [r] && forall q: nat :: q != p ==> Open(w.frames, q) == Open(init, q)
  {
    var init := w.frames[..|w.frames| - 1];
    FramePushed(init, Top(w));
    assert w.frames == init + [Top(w)];
    hide Open, HeldByFrames, Batches;
    assert Batches(init) + [] == Batches(init) && forall q: nat :: Open(init, q) + [] == Open(init, q);
  }

  lemma ToldAround(w: World, p: nat, r: Reaction)
    requires p < |w.promises| && w.frames != [] && Top(w) == TellingHandle(p, r)
    ensures var w', a := AfterTold(w, p, r), AroundOf(w, p);
      && a.open != [] && a.open[|a.open| - 1] == r && AroundOf(w', p) == a.(open := a.open[..|a.open| - 1], outOfTurn := a.outOfTurn || w.promises[p].handled)
      && forall q: nat :: q != p ==> AroundOf(w', q) == AroundOf(w, q)
  {
    PoppedIs(w, r, p);
    hide Open, Batches, HeldByFrames;
    var o := Open(w.frames[..|w.frames| - 1], p);
    assert (o + [r])[..|o|] == o;
  }

  lemma ToldKeepsHistories(w: World, p: nat, r: Reaction)
    requires Histories(w) && p < |w.promises| && w.frames != [] && Top(w) == TellingHandle(p, r)
    ensures Histories(AfterTold(w, p, r))
  {
    hide ViewOf, PromiseInv, AroundOf;
    ToldAround(w, p, r);
    ToldKeepsPromiseInv(w.promises[p], w.log, p, AroundOf(w, p));
    HistoriesGrow(w, AfterTold(w, p, r), [Queued(p, ReactionJob(r, w.promises[p].result))], p);
  }

  lemma ToldKeepsRights(w: World, p: nat, r: Reaction)
    requires RightsOk(w, None) && p < |w.promises| && w.frames != [] && Top(w) == TellingHandle(p, r)
    ensures RightsOk(AfterTold(w, p, r), None)
  {
    PoppedIs(w, r, p);
    hide RightsOk, HeldByFrames, Open, Batches;
    RightsSame(w, AfterTold(w, p, r), [Ticket(|w.log|, ReactionJob(r, w.promises[p].result))]);
  }

  lemma ToldKeepsRest(w: World, p: nat, r: Reaction)
    requires Sane(w) && LogOk(w) && IdsOk(w) && p < |w.promises| && w.frames != [] && Top(w) == TellingHandle(p, r)
    ensures var w' := AfterTold(w, p, r); Sane(w') && LogOk(w') && IdsOk(w')
  {
    var w' := AfterTold(w, p, r);
    assert FrameOk(w, Top(w));
    SaneIs(w);
    SaneStays(w, w');
    StillOk(w, w');
    SaneIs(w');
    hide ReactionOk;
  }

  lemma ToldKeepsInv(w: World, p: nat, r: Reaction)
    requires Inv(w, None) && p < |w.promises| && w.frames != [] && Top(w) == TellingHandle(p, r)
    ensures Inv(AfterTold(w, p, r), None)
  {
    hide OrderOk, Sane, LogOk, IdsOk, Histories, RightsOk;
    ToldKeepsHistories(w, p, r);
    ToldKeepsRights(w, p, r);
    ToldKeepsRest(w, p, r);
    PoppedIs(w, r, p);
    QueueOneOrder(w, AfterTold(w, p, r), p, ReactionJob(r, w.promises[p].result));
  }

  /** When the tracker returns, the operation it was called by goes on. */
  lemma TrackerDoneKeepsInv(w: World)
    requires Inv(w, None) && w.frames != [] && (Top(w).TellingReject? || Top(w).TellingHandle?) && Top(w).promise < |w.promises|
    ensures Inv(TrackerDone(w), None)
  {
    if Top(w).TellingReject? {
      assert Top(w).reactions == [];
      hide Inv;
      PopFrameKeepsInv(w);
    } else {
      hide Inv;
      ToldKeepsInv(w, Top(w).promise, Top(w).reaction);
    }
  }

  // ---------------------------------------------------------------- registering

  function RegisterTickets(n: nat, rec: PromiseRec, f: Reaction, r: Reaction): seq<Ticket> {
    If(rec.state != Pending && !Untold(rec.state, rec.handled),
       Ticket(n + 1, ReactionJob(if rec.state == Fulfilled then f else r, rec.result)))
  }

  /** AddReactions in one expression. */
  ghost function Registering(w: World, p: nat, f: Reaction, r: Reaction): World
    requires p < |w.promises|
  {
    var rec := w.promises[p];
    w.(promises := w.promises[p := RegisteredRec(rec, f, r)], queue := w.queue + RegisterTickets(|w.log|, rec, f, r),
       frames := w.frames + If(Untold(rec.state, rec.handled), TellingHandle(p, r)), log := w.log + RegisterEvents(rec, p, f, r),
       retold := if Untold(rec.state, rec.handled) && (Telling(w.frames, p) || Telling(w.ended, p)) then w.retold + {p} else w.retold)
  }

  lemma RegisteringIs(w: World, p: nat, f: Reaction, r: Reaction)
    requires p < |w.promises|
    ensures AddReactions(w, p, f, r) == Registering(w, p, f, r)
  {
    hide Telling;
    var rec, e := w.promises[p], Registered(p, f, r);
    var x := [Queued(p, ReactionJob(if rec.state == Fulfilled then f else r, rec.result))];
    assert w.log + ([e] + []) == w.log + [e];
    assert w.log + ([e] + x) == w.log + [e] + x;
    assert w.log + ([e] + [Tracked(p, TrackHandle)]) == w.log + [e] + [Tracked(p, TrackHandle)];
    assert w.frames + [] == w.frames && w.queue + [] == w.queue;
    if rec.state == Rejected && !rec.handled {
      assert w.promises[p := rec] == w.promises;
    }
  }

  lemma TellingFrame(fs: seq<Frame>, p: nat, r: Reaction, more: bool)
    ensures var fs' := fs + If(more, TellingHandle(p, r));
      && Batches(fs') == Batches(fs) && (forall q: nat :: HeldByFrames(fs', q) == HeldByFrames(fs, q))
      && Open(fs', p) == Open(fs, p) + If(more, r) && forall q: nat :: q != p ==> Open(fs', q) == Open(fs, q)
  {
    FramePushed(fs, TellingHandle(p, r));
    hide Open, HeldByFrames, Batches;
    assert fs + [] == fs && Batches(fs) + [] == Batches(fs) && forall q: nat :: Open(fs, q) + [] == Open(fs, q);
  }

  lemma RegisteringAround(w: World, p: nat, f: Reaction, r: Reaction)
    requires p < |w.promises|
    ensures var w', rec := Registering(w, p, f, r), w.promises[p];
      && AroundOf(w', p) == RegisteredAround(rec, r, AroundOf(w, p))
      && (forall q: nat :: q != p ==> AroundOf(w', q) == AroundOf(w, q))
      && Batches(w'.frames) == Batches(w.frames) && forall q: nat :: HeldByFrames(w'.frames, q) == HeldByFrames(w.frames, q)
  {
    hide Open, Batches, HeldByFrames, Telling, RegisteredRec, RegisterTickets, RegisterEvents;
    TellingFrame(w.frames, p, r, Untold(w.promises[p].state, w.promises[p].handled));
    TellingIff(w.frames, p);
    TellingIff(w.ended, p);
  }

  lemma RegisterForeign(rec: PromiseRec, p: nat, f: Reaction, r: Reaction)
    ensures forall q: nat, i :: q != p && 0 <= i < |RegisterEvents(rec, p, f, r)| ==> Foreigner(RegisterEvents(rec, p, f, r)[i], q)
  {
  }

  lemma RegisteringKeepsHistories(w: World, p: nat, f: Reaction, r: Reaction)
    requires p < |w.promises| && Histories(w) && IdsOk(w) && r.id == |w.log|
    ensures Histories(Registering(w, p, f, r))
  {
    var rec := w.promises[p];
    RegisteringAround(w, p, f, r);
    RegisterForeign(rec, p, f, r);
    RegistrationsInOrder(w.log, p);
    assert ViewOf(w.log, p).regs == Sel(w.log, Registrations(p));
    hide Sel, ViewOf, PromiseInv, AroundOf, RegisterEvents, Foreigner, RegisteredAround, RegisteredRec, IdsOk;
    RegisteredKeepsPromiseInv(rec, w.log, p, f, r, AroundOf(w, p));
    HistoriesGrow(w, Registering(w, p, f, r), RegisterEvents(rec, p, f, r), p);
  }

  lemma RegisteringTickets(log: seq<Event>, rec: PromiseRec, p: nat, f: Reaction, r: Reaction)
    ensures var ext, ts := RegisterEvents(rec, p, f, r), RegisterTickets(|log|, rec, f, r);
      && QueuedTickets(log + ext) == QueuedTickets(log) + ts && StartedTickets(log + ext) == StartedTickets(log)
      && Increasing(ts) && Below(ts, |log + ext|) && forall i :: 0 <= i < |ts| ==> |log| <= ts[i].id
  {
    hide QueuedTickets, StartedTickets;
    var e := Registered(p, f, r);
    var x := Queued(p, ReactionJob(if rec.state == Fulfilled then f else r, rec.result));
    OneMoreEvent(log, e);
    OneMoreEvent(log + [e], Tracked(p, TrackHandle));
    OneMoreEvent(log + [e], x);
    assert log + ([e] + [Tracked(p, TrackHandle)]) == log + [e] + [Tracked(p, TrackHandle)];
    assert log + ([e] + [x]) == log + [e] + [x];
    assert log + ([e] + []) == log + [e];
  }

  lemma UnstartedMore(w: World, w': World, ts: seq<Ticket>)
    requires Batches(w'.frames) == Batches(w.frames) && w'.queue == w.queue + ts
    ensures Unstarted(w') == Unstarted(w) + ts
  {
    hide Batches;
    assert Batches(w.frames) + (w.queue + ts) == Batches(w.frames) + w.queue + ts;
  }

  lemma RegisteringKeepsOrder(w: World, p: nat, f: Reaction, r: Reaction)
    requires p < |w.promises| && OrderOk(w)
    ensures OrderOk(Registering(w, p, f, r))
  {
    hide QueuedTickets, StartedTickets, OrderOk, Batches, RegisterEvents, RegisterTickets, RegisteredRec, Telling, HeldByFrames, AroundOf, Unstarted, RegisteredAround, Increasing, Below;
    var rec, w' := w.promises[p], Registering(w, p, f, r);
    var ts := RegisterTickets(|w.log|, rec, f, r);
    RegisteringAround(w, p, f, r);
    RegisteringTickets(w.log, rec, p, f, r);
    UnstartedMore(w, w', ts);
    OrderGrows(w, w', ts);
  }

  lemma RegisteringKeepsRights(w: World, p: nat, f: Reaction, r: Reaction)
    requires p < |w.promises| && RightsOk(w, None)
    ensures RightsOk(Registering(w, p, f, r), None)
  {
    RegisteringAround(w, p, f, r);
    hide RightsOk, HeldByFrames, AroundOf, Telling, Batches, RegisterEvents, RegisteredAround;
    RightsSame(w, Registering(w, p, f, r), RegisterTickets(|w.log|, w.promises[p], f, r));
  }

  lemma RegisteringKeepsSane(w: World, p: nat, f: Reaction, r: Reaction)
    requires p < |w.promises| && Sane(w) && LogOk(w) && ReactionOk(w, f) && ReactionOk(w, r)
    ensures Sane(Registering(w, p, f, r)) && LogOk(Registering(w, p, f, r))
  {
    var w', rec := Registering(w, p, f, r), w.promises[p];
    SaneStays(w, w');
    StillOk(w, w');
    SaneIs(w');
    assert forall k :: 0 <= k < |rec.fulfillReactions| ==> ReactionOk(w', rec.fulfillReactions[k]);
    assert forall k :: 0 <= k < |rec.rejectReactions| ==> ReactionOk(w', rec.rejectReactions[k]);
    hide ReactionOk, Telling;
  }

  lemma RegisteringKeepsIds(w: World, p: nat, f: Reaction, r: Reaction)
    requires p < |w.promises| && IdsOk(w) && f.id == r.id == |w.log|
    ensures IdsOk(Registering(w, p, f, r))
  {
    hide Telling;
    var w' := Registering(w, p, f, r);
    var ext := RegisterEvents(w.promises[p], p, f, r);
    assert forall i :: 0 < i < |ext| ==> !ext[i].Registered?;
    forall i | 0 <= i < |w'.log| && w'.log[i].Registered? ensures w'.log[i].onFulfilled.id == w'.log[i].onRejected.id == i {
      assert i <= |w.log|;
    }
  }

  /** Registering reactions queues a job if the promise is settled, unless the tracker must be told first. */
  lemma RegisteringKeepsInv(w: World, p: nat, f: Reaction, r: Reaction)
    requires Inv(w, None) && p < |w.promises| && ReactionOk(w, f) && ReactionOk(w, r) && f.id == r.id == |w.log|
    ensures Inv(AddReactions(w, p, f, r), None)
  {
    RegisteringIs(w, p, f, r);
    hide Histories, OrderOk, RightsOk, Sane, LogOk, IdsOk, Registering, AddReactions;
    RegisteringKeepsHistories(w, p, f, r);
    RegisteringKeepsOrder(w, p, f, r);
    RegisteringKeepsRights(w, p, f, r);
    RegisteringKeepsSane(w, p, f, r);
    RegisteringKeepsIds(w, p, f, r);
  }

  // ---- a new promise

  /** Nothing refers to a promise that does not exist yet. */
  lemma FreshName(w: World)
    requires Sane(w)
    ensures var n := |w.promises|; Tokens(w, n) == 0 && HeldByFrames(w.ended, n) == 0 && Open(w.frames, n) == [] && Open(w.ended, n) == []
  {
    NoPairs(w.pairs, |w.promises|);
    NoTickets(w, w.queue);
    FreshFrames(w, w.frames);
    FreshFrames(w, w.ended);
  }

  lemma FreshFrames(w: World, fs: seq<Frame>)
    requires FramesOk(w, fs)
    ensures HeldByFrames(fs, |w.promises|) == 0 && Open(fs, |w.promises|) == []
  {
    var n := |w.promises|;
    forall i | 0 <= i < |fs| ensures HeldBy(fs[i], n) == 0 && !(fs[i].TellingHandle? && fs[i].promise == n) {
      assert FrameOk(w, fs[i]);
      if fs[i].Draining? { NoTickets(w, fs[i].batch); }
    }
    NoFrames(fs, n);
  }

  lemma NoTickets(w: World, ts: seq<Ticket>)
    requires JobsOk(w, ts)
    ensures ThenableJobs(ts, |w.promises|) == 0
  {
    forall i | 0 <= i < |ts| ensures !(ts[i].job.ThenableJob? && ts[i].job.promise == |w.promises|) {
      assert JobOk(w, ts[i].job);
    }
    NoThenables(ts, |w.promises|);
  }

  lemma {:induction false} NoPairs(ps: seq<Pair>, p: nat)
    requires forall i :: 0 <= i < |ps| ==> ps[i].promise != p
    ensures UnusedPairs(ps, p) == 0
  {
    if ps != [] { NoPairs(ps[..|ps| - 1], p); }
  }

  lemma NewPromiseHistories(w: World)
    requires Histories(w) && LogOk(w) && Open(w.frames, |w.promises|) == [] && Open(w.ended, |w.promises|) == []
    ensures Histories(NewPromise(w)) && LogOk(NewPromise(w))
  {
    var w', n := NewPromise(w), |w.promises|;
    ViewForeign(w.log, n);
    assert forall q: nat :: AroundOf(w', q) == AroundOf(w, q);
    assert AroundOf(w', n) == Around([], [], false, false);
    NewPromiseInv(n);
    hide PromiseInv, ViewOf, AroundOf;
  }

  lemma NewPromiseInv(p: nat)
    ensures PromiseInv(PromiseRec(Pending, Undefined, [], [], false), View([], [], [], [], []), p, Around([], [], false, false))
  {
    hide LateOk;
    assert FulfillSide([]) == [] && RejectSide([]) == [] && Served([]) == [];
  }

  lemma NewPromiseKeepsRest(w: World)
    requires Sane(w) && IdsOk(w) && OrderOk(w)
    ensures Sane(NewPromise(w)) && IdsOk(NewPromise(w)) && OrderOk(NewPromise(w))
  {
    var w' := NewPromise(w);
    hide OrderOk, Unstarted;
    SaneStays(w, w');
    SaneIs(w');
    SameIds(w, w');
    UnstartedSame(w, w');
    OrderSame2(w, w');
  }

  lemma OrderSame2(w: World, w': World)
    requires OrderOk(w) && Unstarted(w') == Unstarted(w) && w'.log == w.log
    requires w'.overtaken == w.overtaken && w'.ended == w.ended
    ensures OrderOk(w')
  {
    hide QueuedTickets, StartedTickets, Unstarted, InTurn;
  }

  /** A new promise comes with one pair of resolving functions, the only right to settle it. */
  lemma NewPromiseKeepsInv(w: World)
    requires Inv(w, None)
    ensures Inv(NewPromise(w), None)
  {
    hide Histories, OrderOk, LogOk, IdsOk, Sane;
    var w', n := NewPromise(w), |w.promises|;
    FreshName(w);
    NewPromiseHistories(w);
    NewPromiseKeepsRest(w);
    assert w'.pairs[..|w.pairs|] == w.pairs;
    forall q: nat ensures Tokens(w', q) == Tokens(w, q) + Tally(q == n) {
    }
    hide Tokens;
  }

  // ---- an uncatchable error

  lemma InterruptedOrder(w: World, k: nat, drop: bool)
    requires OrderOk(w) && k <= |w.frames|
    ensures OrderOk(Interrupt(w, k, drop))
  {
    var w' := Interrupt(w, k, drop);
    var a, b, q := Batches(w.frames[..k]), Batches(w.frames[k..]), w.queue;
    InterruptedBatches(w, k, drop);
    var mid, rest := if drop then b + q else b, if drop then [] else q;
    assert Unstarted(w) == a + mid + rest && Unstarted(w') == a + rest && Lost(w') == Lost(w) + mid;
    hide QueuedTickets, StartedTickets, InTurn, Batches, Increasing, Below, Unstarted, Lost;
    InTurnLost(QueuedTickets(w.log), StartedTickets(w.log), a, mid, rest, Lost(w), w.overtaken);
    WithoutMiddle(a, mid, rest);
    BelowWithout(StartedTickets(w.log), a, mid, rest, |w.log|);
  }

  lemma BelowWithout(s: seq<Ticket>, a: seq<Ticket>, b: seq<Ticket>, c: seq<Ticket>, n: nat)
    requires Below(s + (a + b + c), n)
    ensures Below(s + (a + c), n)
  {
    hide Below, Increasing;
    WithoutMiddle(s + a, b, c);
    assert s + (a + b + c) == s + a + b + c && s + (a + c) == s + a + c;
  }

  lemma OneBatch(ts: seq<Ticket>)
    ensures Batches([Draining(ts)]) == ts && Batches([]) == []
  {
    FramePushed([], Draining(ts));
    assert [] + [Draining(ts)] == [Draining(ts)] && [] + ts == ts;
  }

  lemma InterruptedBatches(w: World, k: nat, drop: bool)
    requires k <= |w.frames|
    ensures var a, b := Batches(w.frames[..k]), Batches(w.frames[k..]);
      && Unstarted(w) == a + b + w.queue && Lost(Interrupt(w, k, drop)) == Lost(w) + if drop then b + w.queue else b
  {
    hide Batches;
    var fs, gs := w.frames[k..], if drop then [Draining(w.queue)] else [];
    assert w.frames == w.frames[..k] + fs;
    BatchesAppend(w.frames[..k], fs);
    BatchesAppend(w.ended + fs, gs);
    BatchesAppend(w.ended, fs);
    OneBatch(w.queue);
    Together(Batches(w.ended), Batches(fs), Batches(gs));
    NoMore(Batches(w.ended) + Batches(fs));
  }

  lemma Together(a: seq<Ticket>, b: seq<Ticket>, c: seq<Ticket>)
    ensures a + b + c == a + (b + c)
  {
  }

  /** Moving frames to those that ended moves what they hold. */
  lemma InterruptedFrames(w: World, k: nat, drop: bool, p: nat)
    requires k <= |w.frames|
    ensures var w' := Interrupt(w, k, drop);
      && Open(w.frames, p) == Open(w.frames[..k], p) + Open(w.frames[k..], p)
      && Open(w'.ended, p) == Open(w.ended, p) + Open(w.frames[k..], p)
      && Tokens(w', p) + HeldByFrames(w'.ended, p) == Tokens(w, p) + HeldByFrames(w.ended, p)
  {
    hide Open, HeldByFrames, UnusedPairs, ThenableJobs;
    var fs, gs := w.frames[k..], if drop then [Draining(w.queue)] else [];
    assert w.frames == w.frames[..k] + fs;
    FramesAppend(w.frames[..k], fs, p);
    FramesAppend(w.ended + fs, gs, p);
    FramesAppend(w.ended, fs, p);
    OneDraining(w.queue, p);
    assert Open(w.ended, p) + Open(fs, p) + [] == Open(w.ended, p) + Open(fs, p);
  }

  lemma OneDraining(ts: seq<Ticket>, p: nat)
    ensures Open([Draining(ts)], p) == [] == Open([], p)
    ensures HeldByFrames([Draining(ts)], p) == ThenableJobs(ts, p) && HeldByFrames([], p) == 0 && ThenableJobs([], p) == 0
  {
    FramePushed([], Draining(ts));
    assert [] + [Draining(ts)] == [Draining(ts)];
  }

  lemma InterruptedHistories(w: World, k: nat, drop: bool)
    requires Histories(w) && k <= |w.frames|
    ensures Histories(Interrupt(w, k, drop))
  {
    hide PromiseInv, ViewOf, Open, Tokens, HeldByFrames;
    var w' := Interrupt(w, k, drop);
    forall p | 0 <= p < |w.promises| ensures PromiseInv(w.promises[p], ViewOf(w.log, p), p, AroundOf(w', p)) {
      InterruptedFrames(w, k, drop, p);
      EndedKeepsPromiseInv(w.promises[p], ViewOf(w.log, p), p, AroundOf(w, p), Open(w.frames[..k], p), Open(w.frames[k..], p));
    }
  }

  lemma InterruptedRest(w: World, k: nat, drop: bool)
    requires Sane(w) && IdsOk(w) && k <= |w.frames|
    ensures Sane(Interrupt(w, k, drop)) && IdsOk(Interrupt(w, k, drop))
  {
    hide FrameOk, JobOk, ReactionOk, PromisesOk;
    var w' := Interrupt(w, k, drop);
    SaneIs(w);
    SaneStays(w, w');
    assert FrameOk(w', Draining(w.queue)) by { QueueOk(w', w.queue); }
    SaneIs(w');
    SameIds(w, w');
  }

  lemma QueueOk(w: World, ts: seq<Ticket>)
    requires JobsOk(w, ts)
    ensures FrameOk(w, Draining(ts))
  {
  }

  /** An uncatchable error ends some operations and may drop the queue; no promise gets settled twice for that. */
  lemma InterruptKeepsInv(w: World, k: nat, drop: bool)
    requires Inv(w, None) && k <= |w.frames|
    ensures Inv(Interrupt(w, k, drop), None)
  {
    hide Histories, OrderOk, Sane, IdsOk, Tokens, HeldByFrames, Open;
    InterruptedOrder(w, k, drop);
    InterruptedHistories(w, k, drop);
    InterruptedRest(w, k, drop);
    forall q: nat { InterruptedFrames(w, k, drop, q); }
  }

  /** So does the tracker, or a job, that throws. */
  lemma ThrowKeepsInv(w: World)
    requires Inv(w, None) && w.frames != []
    ensures Inv(Throw(w), None)
  {
    hide Inv;
    var n := |w.frames| - 1;
    InterruptKeepsInv(w, n, false);
    assert w.frames[n..] == [Top(w)] && w.ended + [Top(w)] + [] == w.ended + [Top(w)];
  }

  // ---------------------------------------------------------------- whole runs

  lemma StepKeepsInv(w: World, l: Label)
    requires Inv(w, None) && Enabled(w, l)
    ensures Inv(Step(w, l), None)
  {
    hide Histories, OrderOk, RightsOk, LogOk, IdsOk, CallResolve, CallReject, AddReactions, GotThen, TakeJob, RunJob, Deliver, NewPromise, TrackerDone;
    match l
    case DoNewPromise => NewPromiseKeepsInv(w);
    case DoResolve(i, v) => CallResolveKeepsInv(w, i, v);
    case DoReject(i, v) => CallRejectKeepsInv(w, i, v);
    case DoThen(p, c, f, r) =>
      RegisteringKeepsInv(w, p, Reaction(c, FulfillReaction, f, |w.log|), Reaction(c, RejectReaction, r, |w.log|));
    case DoGotThen(o) => GotThenKeepsInv(w, o);
    case DoTrackerDone => TrackerDoneKeepsInv(w);
    case DoTrackerThrew => ThrowKeepsInv(w);
    case DoLeave => PushKeepsInv(w, Draining([]), None);
    case DoLeaveDone => PopFrameKeepsInv(w);
    case DoLeaveThrew => ThrowKeepsInv(w);
    case DoStartJob =>
      TakeJobKeepsInv(w);
      RunJobKeepsInv(TakeJob(w), NextBatch(w)[0].job);
    case DoThenableDone(o) =>
      PopFrameKeepsInv(w);
      if o.Threw? { CallRejectKeepsInv(PopFrame(w), Top(w).pair, o.error); }
    case DoHandlerDone(o) =>
      PopFrameKeepsInv(w);
      var c := Top(w).reaction.capability;
      if o.Returned? { DeliverKeepsInv(PopFrame(w), c, true, o.value); } else { DeliverKeepsInv(PopFrame(w), c, false, o.error); }
    case DoInterrupt(k, drop) => InterruptKeepsInv(w, k, drop);
  }

  /** w' is reached from w by the steps `ls`. */
  ghost predicate IsRun(w: World, ls: seq<Label>, w': World)
    decreases |ls|
  {
    if ls == [] then w == w' else Sane(w) && Enabled(w, ls[0]) && IsRun(Step(w, ls[0]), ls[1..], w')
  }

  lemma {:induction false} RunKeepsInv(w: World, ls: seq<Label>, w': World)
    requires Inv(w, None) && IsRun(w, ls, w')
    ensures Inv(w', None)
    decreases |ls|
  {
    if ls != [] {
      hide Inv, Step, Enabled;
      StepKeepsInv(w, ls[0]);
      RunKeepsInv(Step(w, ls[0]), ls[1..], w');
    }
  }

  lemma EmptyInv()
    ensures Inv(Empty, None)
  {
  }

  /** History and promises only grow. */
  ghost predicate Grows(w: World, w': World) {
    w.log <= w'.log && |w.promises| <= |w'.promises|
  }

  lemma CallsGrow(w: World, i: nat, v: Value)
    requires i < |w.pairs| && w.pairs[i].promise < |w.promises|
    ensures Grows(w, CallResolve(w, i, v)) && Grows(w, CallReject(w, i, v))
  {
    SettlingIs(MarkResolved(w, i), w.pairs[i].promise, v);
    SettlingIs(MarkResolved(w, i), w.pairs[i].promise, SelfResolution);
    hide Reject, Fulfill;
  }

  lemma DeliverGrows(w: World, c: Capability, ok: bool, v: Value)
    requires c.Native? ==> c.pair < |w.pairs| && w.pairs[c.pair].promise < |w.promises|
    ensures Grows(w, Deliver(w, c, ok, v))
  {
    if c.Native? { CallsGrow(w, c.pair, v); }
    hide CallResolve, CallReject;
  }

  lemma StepGrows(w: World, l: Label)
    requires Sane(w) && Enabled(w, l)
    ensures Grows(w, Step(w, l))
  {
    hide CallResolve, CallReject, Reject, Fulfill, AddReactions, Deliver, LeftFurtherOut, NextBatch, Settling, Registering;
    match l
    case DoNewPromise =>
    case DoResolve(i, v) => CallsGrow(w, i, v);
    case DoReject(i, v) => CallsGrow(w, i, v);
    case DoThen(p, c, f, r) =>
      RegisteringGrows(w, p, Reaction(c, FulfillReaction, f, |w.log|), Reaction(c, RejectReaction, r, |w.log|));
    case DoGotThen(o) =>
      assert FrameOk(w, Top(w));
      SettlingGrows(PopFrame(w), Top(w).promise, if o.Threw? then o.error else Top(w).resolution);
    case DoTrackerDone =>
      assert FrameOk(w, Top(w));
      if Top(w).TellingReject? { TriggerEffect(PopFrame(w), Top(w).promise, Top(w).reactions, Top(w).reason); }
    case DoTrackerThrew =>
    case DoLeave =>
    case DoLeaveDone =>
    case DoLeaveThrew =>
    case DoStartJob =>
      TakeJobNames(w);
      var j := NextBatch(w)[0].job;
      if j.ReactionJob? { DeliverGrows(TakeJob(w), j.reaction.capability, j.reaction.kind == FulfillReaction, j.argument); }
    case DoThenableDone(o) =>
      assert FrameOk(w, Top(w));
      if o.Threw? { CallsGrow(PopFrame(w), Top(w).pair, o.error); }
    case DoHandlerDone(o) =>
      assert FrameOk(w, Top(w));
      var c := Top(w).reaction.capability;
      DeliverGrows(PopFrame(w), c, o.Returned?, if o.Returned? then o.value else o.error);
    case DoInterrupt(_, _) =>
  }

  lemma SettlingGrows(w: World, p: nat, v: Value)
    requires p < |w.promises|
    ensures Grows(w, Reject(w, p, v)) && Grows(w, Fulfill(w, p, v))
  {
    SettlingIs(w, p, v);
    hide Reject, Fulfill;
  }

  lemma RegisteringGrows(w: World, p: nat, f: Reaction, r: Reaction)
    requires p < |w.promises|
    ensures Grows(w, AddReactions(w, p, f, r))
  {
    RegisteringIs(w, p, f, r);
    hide AddReactions, Telling;
  }

  lemma TakeJobNames(w: World)
    requires Sane(w) && w.frames != [] && Top(w).Draining? && NextBatch(w) != []
    ensures JobOk(TakeJob(w), NextBatch(w)[0].job) && Grows(w, TakeJob(w))
    ensures var j := NextBatch(w)[0].job;
      j.ReactionJob? ==> var c := j.reaction.capability; c.Native? ==> c.pair < |TakeJob(w).pairs| && TakeJob(w).pairs[c.pair].promise < |TakeJob(w).promises|
  {
    hide LeftFurtherOut;
    assert FrameOk(w, Top(w));
    assert JobOk(w, NextBatch(w)[0].job);
  }

  lemma {:induction false} RunGrows(w: World, ls: seq<Label>, w': World)
    requires Inv(w, None) && IsRun(w, ls, w')
    ensures Grows(w, w')
    decreases |ls|
  {
    if ls != [] {
      StepGrows(w, ls[0]);
      StepKeepsInv(w, ls[0]);
      hide Inv, Step, Enabled;
      RunGrows(Step(w, ls[0]), ls[1..], w');
    }
  }

  lemma HistoriesOf(w: World, p: nat)
    requires Inv(w, None) && p < |w.promises|
    ensures PromiseInv(w.promises[p], ViewOf(w.log, p), p, AroundOf(w, p))
  {
  }

  lemma RunInv(ls: seq<Label>, w: World)
    requires IsRun(Empty, ls, w)
    ensures Inv(w, None)
  {
    hide Inv, IsRun;
    EmptyInv();
    RunKeepsInv(Empty, ls, w);
  }

  lemma RightsOf(w: World, p: nat)
    requires Inv(w, None) && p < |w.promises|
    ensures Tokens(w, p) + HeldByFrames(w.ended, p) == if w.promises[p].state == Pending then 1 else 0
  {
    hide Tokens, HeldByFrames, Histories, OrderOk, Sane, LogOk, IdsOk;
  }

  lemma SettlementsOf(w: World, p: nat)
    requires Inv(w, None) && p < |w.promises|
    ensures Sel(w.log, Settlements(p)) == if w.promises[p].state == Pending then [] else [Settled(p, w.promises[p].state, w.promises[p].result)]
  {
    HistoriesOf(w, p);
    hide Sel, Inv, LateOk;
  }

  /** A promise is settled at most once: in every run the history holds one settlement of a settled
      promise, the one its state shows, and none of a pending one. Exactly one right to settle a
      pending promise is in circulation (an unused pair of resolving functions, a queued thenable job
      or a resolve call reading `then`) or was lost with an operation that ended; a settled promise has none. */
  lemma SettledAtMostOnce(ls: seq<Label>, w: World, p: nat)
    requires IsRun(Empty, ls, w) && p < |w.promises|
    ensures Sel(w.log, Settlements(p)) == if w.promises[p].state == Pending then [] else [Settled(p, w.promises[p].state, w.promises[p].result)]
    ensures Tokens(w, p) + HeldByFrames(w.ended, p) == if w.promises[p].state == Pending then 1 else 0
  {
    hide IsRun, Inv, Sel, Tokens;
    RunInv(ls, w);
    SettlementsOf(w, p);
    RightsOf(w, p);
  }

  /** Two histories of which one extends the other agree on every settled promise. */
  lemma SettledStays(w: World, w': World, p: nat)
    requires Inv(w, None) && Inv(w', None) && Grows(w, w')
    requires p < |w.promises| && w.promises[p].state != Pending
    ensures w'.promises[p].state == w.promises[p].state && w'.promises[p].result == w.promises[p].result
  {
    hide Sel, Inv;
    SettlementsOf(w, p);
    SettlementsOf(w', p);
    SelAppend(w.log, w'.log[|w.log|..], Settlements(p));
    assert w'.log == w.log + w'.log[|w.log|..];
    assert Sel(w.log, Settlements(p))[0] == Sel(w'.log, Settlements(p))[0];
  }

  lemma StepLeavesSettled(w: World, l: Label, p: nat)
    requires Inv(w, None) && Enabled(w, l)
    requires p < |w.promises| && w.promises[p].state != Pending
    ensures var w' := Step(w, l);
            p < |w'.promises| && w'.promises[p].state == w.promises[p].state && w'.promises[p].result == w.promises[p].result
  {
    StepKeepsInv(w, l);
    StepGrows(w, l);
    hide Step, Inv, Enabled;
    SettledStays(w, Step(w, l), p);
  }

  /** Once settled, state and result never change, whatever user code does. */
  lemma SettledForever(ls: seq<Label>, w: World, more: seq<Label>, w': World, p: nat)
    requires IsRun(Empty, ls, w) && IsRun(w, more, w')
    requires p < |w.promises| && w.promises[p].state != Pending
    ensures p < |w'.promises| && w'.promises[p].state == w.promises[p].state && w'.promises[p].result == w.promises[p].result
  {
    hide Inv;
    RunInv(ls, w);
    RunKeepsInv(w, more, w');
    RunGrows(w, more, w');
    SettledStays(w, w', p);
  }

  /** Registrations below n, numbered in their order. */
  ghost predicate Numbered(regs: seq<Event>, n: nat) {
    && (forall i :: 0 <= i < |regs| ==> regs[i].Registered? && regs[i].onFulfilled.id == regs[i].onRejected.id < n)
    && (forall i, j :: 0 <= i < j < |regs| && regs[i].Registered? && regs[j].Registered? ==> regs[i].onFulfilled.id < regs[j].onFulfilled.id)
  }

  lemma {:induction false} RegistrationsInOrder(log: seq<Event>, p: nat)
    requires forall i :: 0 <= i < |log| && log[i].Registered? ==> log[i].onFulfilled.id == log[i].onRejected.id == i
    ensures Numbered(Sel(log, Registrations(p)), |log|)
  {
    if log != [] {
      var n := |log| - 1;
      RegistrationsInOrder(log[..n], p);
      NumberedMore(Sel(log[..n], Registrations(p)), log[n], n);
    }
  }

  lemma NumberedMore(regs: seq<Event>, e: Event, n: nat)
    requires Numbered(regs, n)
    ensures Numbered(regs + [], n + 1) && (e.Registered? && e.onFulfilled.id == e.onRejected.id == n ==> Numbered(regs + [e], n + 1))
  {
  }

  lemma SideRises(log: seq<Event>, p: nat, state: PromiseState)
    requires forall i :: 0 <= i < |log| && log[i].Registered? ==> log[i].onFulfilled.id == log[i].onRejected.id == i
    ensures Rising(Side(Sel(log, Registrations(p)), state))
  {
    RegistrationsInOrder(log, p);
    hide Sel;
  }

  lemma MultisetMore<T>(s: seq<T>)
    requires s != []
    ensures multiset(s) == multiset(s[..|s| - 1]) + multiset{s[|s| - 1]}
  {
    assert s == s[..|s| - 1] + [s[|s| - 1]];
  }

  ghost predicate Sorted<T>(s: seq<T>, key: T -> nat) {
    forall i, j :: 0 <= i < j < |s| ==> key(s[i]) < key(s[j])
  }

  lemma LastIsTop<T>(s: seq<T>, key: T -> nat, x: T)
    requires Sorted(s, key) && x in multiset(s)
    ensures key(x) <= key(s[|s| - 1])
    ensures key(x) == key(s[|s| - 1]) ==> x == s[|s| - 1]
  {
    var i :| 0 <= i < |s| && s[i] == x;
  }

  lemma SameLast<T>(a: seq<T>, b: seq<T>, key: T -> nat)
    requires Sorted(a, key) && Sorted(b, key) && multiset(a) == multiset(b) && a != [] && b != []
    ensures a[|a| - 1] == b[|b| - 1]
  {
    assert a[|a| - 1] in multiset(a) && b[|b| - 1] in multiset(b);
    LastIsTop(a, key, b[|b| - 1]);
    LastIsTop(b, key, a[|a| - 1]);
  }

  lemma Cancel<T>(a: multiset<T>, b: multiset<T>, m: multiset<T>)
    requires a + m == b + m
    ensures a == b
  {
    assert a == (a + m) - m && b == (b + m) - m;
  }

  lemma SortedInit<T>(s: seq<T>, key: T -> nat, n: nat)
    requires Sorted(s, key) && n <= |s|
    ensures Sorted(s[..n], key)
  {
  }

  /** Two ascending lists of the same are the same. */
  lemma {:induction false} SortedIsUnique<T>(a: seq<T>, b: seq<T>, key: T -> nat)
    requires multiset(a) == multiset(b) && Sorted(a, key) && Sorted(b, key)
    ensures a == b
  {
    hide Sorted;
    assert |a| == |multiset(a)| == |multiset(b)| == |b|;
    if a != [] {
      var n := |a| - 1;
      SameLast(a, b, key);
      MultisetMore(a);
      MultisetMore(b);
      Cancel(multiset(a[..n]), multiset(b[..n]), multiset{a[n]});
      SortedInit(a, key, n);
      SortedInit(b, key, n);
      SortedIsUnique(a[..n], b[..n], key);
      assert a == a[..n] + [a[n]] && b == b[..n] + [b[n]];
    }
  }

  lemma InOrderIff(s: seq<Reaction>, open: seq<Reaction>, dropped: seq<Reaction>, side: seq<Reaction>, outOfTurn: bool)
    requires Accounted(s, open, dropped, side) && Rising(side) && if outOfTurn then Inverted(s) else Rising(s)
    ensures s == side <==> !outOfTurn && open == [] && dropped == []
  {
    assert |s| + |open| + |dropped| == |side| by {
      assert |multiset(s) + multiset(open) + multiset(dropped)| == |multiset(side)|;
    }
    if !outOfTurn && open == [] && dropped == [] {
      SortedIsUnique(s, side, (r: Reaction) => r.id);
    }
  }

  lemma OneJobEach(rec: PromiseRec, v: View, p: nat, a: Around)
    requires PromiseInv(rec, v, p, a) && Rising(Side(v.regs, rec.state))
    ensures AllAbout(v.jobs, p, rec.result) && Accounted(Served(v.jobs), a.open, a.dropped, Side(v.regs, rec.state))
    ensures if a.outOfTurn then Inverted(Served(v.jobs)) else Rising(Served(v.jobs))
    ensures Served(v.jobs) == Side(v.regs, rec.state) <==> !a.outOfTurn && a.open == [] && a.dropped == []
  {
    hide Inverted, Rising, Served, AllAbout, Told, Counts;
    InOrderIff(Served(v.jobs), a.open, a.dropped, Side(v.regs, rec.state), a.outOfTurn);
  }

  /** Every pair of reactions registered with a settled p gets one job, of the kind that matches the state, with the result as
      argument, unless its registration waits for the tracker, or was ended by an error or a tracker that threw. The jobs
      are queued in the order of the registrations exactly if p was never handled already when the tracker returned from
      being told so. So each registration has got its job, in order, exactly if neither is the case. */
  lemma OneJobPerReaction(ls: seq<Label>, w: World, p: nat)
    requires IsRun(Empty, ls, w) && p < |w.promises|
    ensures var served, side := Served(Sel(w.log, ReactionJobs(p))), Side(Sel(w.log, Registrations(p)), w.promises[p].state);
      && AllAbout(Sel(w.log, ReactionJobs(p)), p, w.promises[p].result)
      && multiset(served) + multiset(Open(w.frames, p)) + multiset(Open(w.ended, p)) == multiset(side)
      && (if p in w.outOfTurn then Inverted(served) else Rising(served))
      && (served == side <==> p !in w.outOfTurn && !Telling(w.frames, p) && !Telling(w.ended, p))
  {
    hide IsRun, Inv, Sel, Telling, Inverted, Rising, PromiseInv, Open;
    RunInv(ls, w);
    HistoriesOf(w, p);
    TellingIff(w.frames, p);
    TellingIff(w.ended, p);
    IdsOf(w);
    SideRises(w.log, p, w.promises[p].state);
    OneJobEach(w.promises[p], ViewOf(w.log, p), p, AroundOf(w, p));
  }

  lemma IdsOf(w: World)
    requires Inv(w, None)
    ensures forall i :: 0 <= i < |w.log| && w.log[i].Registered? ==> w.log[i].onFulfilled.id == w.log[i].onRejected.id == i
  {
    hide Histories, OrderOk, Sane, LogOk, RightsOk;
  }

  /** The rejection tracker is called for p iff p is rejected and nothing was registered with it before. It is told so
      first, and afterwards only that p is handled: as soon as anything is registered with p, and more than once exactly
      if reactions were registered before it ever returned from that. */
  lemma TrackerCalls(ls: seq<Label>, w: World, p: nat)
    requires IsRun(Empty, ls, w) && p < |w.promises|
    ensures var life, tracks := Sel(w.log, Life(p)), Sel(w.log, Trackings(p));
      if w.promises[p].state != Rejected || (life != [] && life[0].Registered?) then tracks == []
      else Told(tracks, p) && (|tracks| == 1 <==> Sel(w.log, Registrations(p)) == [])
    ensures |Sel(w.log, Trackings(p))| > 2 <==> p in w.retold
  {
    hide IsRun, Inv, Sel, Open, PromiseInv;
    RunInv(ls, w);
    HistoriesOf(w, p);
    TracksOf(w.promises[p], ViewOf(w.log, p), p, AroundOf(w, p));
  }

  lemma TracksOf(rec: PromiseRec, v: View, p: nat, a: Around)
    requires PromiseInv(rec, v, p, a)
    ensures if Late(rec.state, v) then Told(v.tracks, p) && (|v.tracks| == 1 <==> v.regs == []) else v.tracks == []
    ensures |v.tracks| > 2 <==> a.retold
  {
    hide Told, Turns;
    ServedSize(v.jobs);
    var s, side := Served(v.jobs), RejectSide(v.regs);
    hide Served;
    if Late(rec.state, v) {
      assert |s| + |a.open| + |a.dropped| == |side| by {
        assert |multiset(s) + multiset(a.open) + multiset(a.dropped)| == |multiset(side)|;
      }
    }
  }

  /** Every queued job is started once, or still waits, or was in a batch that was given up because a job threw or an error
      could not be caught. Jobs start in the order in which they were queued, unless one was started while older ones were
      left in a batch further out; and exactly if none was, and none lost, those started and those that wait are
      the ones queued, in order. */
  lemma JobsAreFifoIff(ls: seq<Label>, w: World)
    requires IsRun(Empty, ls, w)
    ensures multiset(QueuedTickets(w.log)) == multiset(StartedTickets(w.log) + Unstarted(w)) + multiset(Lost(w))
    ensures !w.overtaken ==> Increasing(StartedTickets(w.log) + Unstarted(w))
    ensures QueuedTickets(w.log) == StartedTickets(w.log) + Unstarted(w) <==> !w.overtaken && Lost(w) == []
  {
    RunInv(ls, w);
    QueuedIncrease(w.log);
    hide QueuedTickets, StartedTickets, Unstarted, Lost, Sane, Histories, IdsOk, RightsOk, LogOk, IsRun;
    FifoIff(QueuedTickets(w.log), StartedTickets(w.log), Unstarted(w), Lost(w), w.overtaken);
  }

  lemma FifoIff(queued: seq<Ticket>, started: seq<Ticket>, pending: seq<Ticket>, lost: seq<Ticket>, overtaken: bool)
    requires InTurn(queued, started, pending, lost, overtaken) && Increasing(queued)
    ensures queued == started + pending <==> !overtaken && lost == []
  {
    var s := started + pending;
    assert |queued| == |s| + |lost| by {
      assert |multiset(queued)| == |multiset(s) + multiset(lost)|;
    }
    if overtaken && lost == [] {
      OutOfOrderIs(queued, started, pending);
    } else if lost == [] {
      SortedIsUnique(queued, s, (t: Ticket) => t.id);
    }
  }

  lemma OutOfOrderIs(queued: seq<Ticket>, started: seq<Ticket>, pending: seq<Ticket>)
    requires Increasing(queued) && OutOfOrder(started, pending)
    ensures queued != started + pending
  {
    var s := started + pending;
    var i, j :| 0 <= i < |started| && i < j < |s| && started[i].id > s[j].id;
    assert s[i] == started[i];
  }

  // ---- without a leave inside of a job

  /** No job leaves the runtime again, which drains the queue. */
  ghost predicate NoNestedLeave(w: World, ls: seq<Label>)
    decreases |ls|
  {
    ls == [] || (Sane(w) && Enabled(w, ls[0])
                 && (ls[0].DoLeave? ==> forall i :: 0 <= i < |w.frames| ==> !w.frames[i].Draining?)
                 && NoNestedLeave(Step(w, ls[0]), ls[1..]))
  }

  /** No batch is being drained inside of another, and no job was overtaken. */
  ghost predicate OneDrain(w: World) {
    !w.overtaken && forall i, j :: 0 <= i < j < |w.frames| ==> !(w.frames[i].Draining? && w.frames[j].Draining?)
  }

  /** No batch is begun. */
  ghost predicate Drains(w: World, w': World) {
    && (forall i :: 0 <= i < |w'.frames| && w'.frames[i].Draining? ==> i < |w.frames| && w.frames[i].Draining?)
    && w'.overtaken == w.overtaken
  }

  lemma CallsDrain(w: World, i: nat, v: Value)
    requires i < |w.pairs| && w.pairs[i].promise < |w.promises|
    ensures Drains(w, CallResolve(w, i, v)) && Drains(w, CallReject(w, i, v))
  {
    SettlingDrains(MarkResolved(w, i), w.pairs[i].promise, v);
    SettlingDrains(MarkResolved(w, i), w.pairs[i].promise, SelfResolution);
    hide Reject, Fulfill;
  }

  lemma DeliverDrains(w: World, c: Capability, ok: bool, v: Value)
    requires c.Native? ==> c.pair < |w.pairs| && w.pairs[c.pair].promise < |w.promises|
    ensures Drains(w, Deliver(w, c, ok, v))
  {
    if c.Native? { CallsDrain(w, c.pair, v); }
    hide CallResolve, CallReject;
  }

  lemma SettlingDrains(w: World, p: nat, v: Value)
    requires p < |w.promises|
    ensures Drains(w, Reject(w, p, v)) && Drains(w, Fulfill(w, p, v))
  {
    SettlingIs(w, p, v);
    hide Reject, Fulfill;
  }

  lemma RegisteringDrains(w: World, p: nat, f: Reaction, r: Reaction)
    requires p < |w.promises|
    ensures Drains(w, AddReactions(w, p, f, r))
  {
    RegisteringIs(w, p, f, r);
    hide AddReactions, Telling;
  }

  lemma StepKeepsOneDrain(w: World, l: Label)
    requires Sane(w) && Enabled(w, l) && OneDrain(w)
    requires l.DoLeave? ==> forall i :: 0 <= i < |w.frames| ==> !w.frames[i].Draining?
    ensures OneDrain(Step(w, l))
  {
    hide CallResolve, CallReject, Reject, Fulfill, AddReactions, Deliver, NextBatch;
    match l
    case DoNewPromise =>
    case DoResolve(i, v) => CallsDrain(w, i, v);
    case DoReject(i, v) => CallsDrain(w, i, v);
    case DoThen(p, c, f, r) =>
      RegisteringDrains(w, p, Reaction(c, FulfillReaction, f, |w.log|), Reaction(c, RejectReaction, r, |w.log|));
    case DoGotThen(o) =>
      assert FrameOk(w, Top(w));
      SettlingDrains(PopFrame(w), Top(w).promise, if o.Threw? then o.error else Top(w).resolution);
    case DoTrackerDone =>
      assert FrameOk(w, Top(w));
      if Top(w).TellingReject? { TriggerEffect(PopFrame(w), Top(w).promise, Top(w).reactions, Top(w).reason); }
    case DoTrackerThrew =>
    case DoLeave =>
    case DoLeaveDone =>
    case DoLeaveThrew =>
    case DoStartJob =>
      TakeJobNames(w);
      var j := NextBatch(w)[0].job;
      assert !LeftFurtherOut(w.frames);
      assert OneDrain(TakeJob(w));
      hide TakeJob;
      if j.ReactionJob? { DeliverDrains(TakeJob(w), j.reaction.capability, j.reaction.kind == FulfillReaction, j.argument); }
    case DoThenableDone(o) =>
      assert FrameOk(w, Top(w));
      if o.Threw? { CallsDrain(PopFrame(w), Top(w).pair, o.error); }
    case DoHandlerDone(o) =>
      assert FrameOk(w, Top(w));
      var c := Top(w).reaction.capability;
      DeliverDrains(PopFrame(w), c, o.Returned?, if o.Returned? then o.value else o.error);
    case DoInterrupt(_, _) =>
  }

  lemma {:induction false} NoNestedKeepsOneDrain(w: World, ls: seq<Label>, w': World)
    requires NoNestedLeave(w, ls) && IsRun(w, ls, w') && OneDrain(w)
    ensures OneDrain(w')
    decreases |ls|
  {
    if ls != [] {
      StepKeepsOneDrain(w, ls[0]);
      hide Step, OneDrain, Enabled, Sane;
      NoNestedKeepsOneDrain(Step(w, ls[0]), ls[1..], w');
    }
  }

  /** As long as no job leaves the runtime again, jobs start in the order in which they were queued. */
  lemma JobsAreFifo(ls: seq<Label>, w: World)
    requires IsRun(Empty, ls, w) && NoNestedLeave(Empty, ls)
    ensures Increasing(StartedTickets(w.log) + Unstarted(w))
    ensures Lost(w) == [] ==> QueuedTickets(w.log) == StartedTickets(w.log) + Unstarted(w)
  {
    hide IsRun, NoNestedLeave;
    NoNestedKeepsOneDrain(Empty, ls, w);
    JobsAreFifoIff(ls, w);
  }

  // ---- runs in which the orders differ

  /** The run so far, and the world it led to. */
  ghost predicate At(ls: seq<Label>, w: World) {
    IsRun(Empty, ls, w) && Inv(w, None)
  }

  lemma Continue(ls: seq<Label>, w: World, l: Label, ls': seq<Label>)
    requires At(ls, w) && Enabled(w, l) && ls' == ls + [l]
    ensures At(ls', Step(w, l)) && Sane(Step(w, l))
  {
    StepKeepsInv(w, l);
    hide Enabled, Step;
    RunMore(Empty, ls, w, l);
  }

  lemma {:induction false} RunMore(w0: World, ls: seq<Label>, w: World, l: Label)
    requires IsRun(w0, ls, w) && Sane(w) && Enabled(w, l)
    ensures IsRun(w0, ls + [l], Step(w, l))
    decreases |ls|
  {
    var more := ls + [l];
    if ls == [] {
      assert more[0] == l && more[1..] == [];
      assert IsRun(Step(w, l), [], Step(w, l));
    } else {
      assert more[0] == ls[0] && more[1..] == ls[1..] + [l];
      hide Step, Enabled, Sane;
      RunMore(Step(w0, ls[0]), ls[1..], w, l);
    }
  }

  lemma EmptyRun()
    ensures At([], Empty) && Sane(Empty)
  {
    EmptyInv();
    hide Inv;
  }

  function Handled(n: nat, id: nat): Reaction {
    Reaction(Foreign, FulfillReaction, Some(n), id)
  }

  function Caught(n: nat, id: nat): Reaction {
    Reaction(Foreign, RejectReaction, Some(n), id)
  }

  /** Registers with promise 0. */
  function Register(n: nat): Label {
    DoThen(0, Foreign, Some(n), Some(n))
  }

  const TwoJobs: seq<Label> := [DoNewPromise, Register(1), Register(2), DoResolve(0, Primitive(0))]

  lemma TwoJobsQueued() returns (w: World)
    ensures At(TwoJobs, w) && Sane(w) && w.frames == [] && |w.log| == 5
    ensures w.promises == [PromiseRec(Fulfilled, Primitive(0), [], [], true)]
    ensures w.queue == [Ticket(3, ReactionJob(Handled(1, 0), Primitive(0))), Ticket(4, ReactionJob(Handled(2, 1), Primitive(0)))]
  {
    hide At, Sane, Telling, Reject, Fulfill;
    EmptyRun();
    Continue([], Empty, DoNewPromise, [DoNewPromise]);
    var w1 := Step(Empty, DoNewPromise);
    assert w1 == World([PromiseRec(Pending, Undefined, [], [], false)], [Pair(0, false)], [], [], [], [], {}, {}, false);
    Continue([DoNewPromise], w1, Register(1), [DoNewPromise, Register(1)]);
    var w2 := Step(w1, Register(1));
    assert [] + [Handled(1, 0)] == [Handled(1, 0)] && [] + [Caught(1, 0)] == [Caught(1, 0)];
    assert w2.promises == [PromiseRec(Pending, Undefined, [Handled(1, 0)], [Caught(1, 0)], true)];
    assert w2.pairs == [Pair(0, false)] && w2.queue == [] && w2.frames == [] && |w2.log| == 1;
    Continue([DoNewPromise, Register(1)], w2, Register(2), [DoNewPromise, Register(1), Register(2)]);
    var w3 := Step(w2, Register(2));
    assert [Handled(1, 0)] + [Handled(2, 1)] == [Handled(1, 0), Handled(2, 1)] && [Caught(1, 0)] + [Caught(2, 1)] == [Caught(1, 0), Caught(2, 1)];
    assert w3.promises == [PromiseRec(Pending, Undefined, [Handled(1, 0), Handled(2, 1)], [Caught(1, 0), Caught(2, 1)], true)];
    assert w3.pairs == [Pair(0, false)] && w3.queue == [] && w3.frames == [] && |w3.log| == 2;
    Continue([DoNewPromise, Register(1), Register(2)], w3, DoResolve(0, Primitive(0)), TwoJobs);
    w := Step(w3, DoResolve(0, Primitive(0)));
    SettlingIs(MarkResolved(w3, 0), 0, Primitive(0));
    assert w == Settling(MarkResolved(w3, 0), 0, Fulfilled, Primitive(0));
  }

  const Overtaking: seq<Label> := TwoJobs + [DoLeave, DoStartJob, Register(3), DoLeave, DoStartJob]

  lemma FirstStarted() returns (w: World)
    ensures At(TwoJobs + [DoLeave, DoStartJob], w) && Sane(w) && |w.log| == 6
    ensures w.promises == [PromiseRec(Fulfilled, Primitive(0), [], [], true)] && w.queue == []
    ensures w.frames == [Draining([Ticket(4, ReactionJob(Handled(2, 1), Primitive(0)))]), InHandler(Handled(1, 0))]
  {
    hide Sane, Telling, At, Deliver, CallResolve, CallReject, GotThen, TrackerDone;
    var w4 := TwoJobsQueued();
    Continue(TwoJobs, w4, DoLeave, TwoJobs + [DoLeave]);
    var w5 := Step(w4, DoLeave);
    assert w5.frames == [Draining([])];
    Continue(TwoJobs + [DoLeave], w5, DoStartJob, TwoJobs + [DoLeave, DoStartJob]);
    w := Step(w5, DoStartJob);
  }

  /** The handler of the first job registers a third reaction and leaves. */
  lemma LeftAgain() returns (w: World)
    ensures At(Overtaking[..8], w) && Sane(w) && |w.frames| == 3
    ensures w.frames[0].Draining? && w.frames[0].batch != [] && Top(w) == Draining([]) && w.queue == [Ticket(7, ReactionJob(Handled(3, 6), Primitive(0)))]
  {
    hide Sane, Telling, At, Deliver, CallResolve, CallReject, GotThen, TrackerDone;
    var ls := Overtaking;
    var w6 := FirstStarted();
    assert ls[..6] == TwoJobs + [DoLeave, DoStartJob];
    Continue(ls[..6], w6, ls[6], ls[..7]);
    var w7 := Step(w6, Register(3));
    assert w7.frames == w6.frames && w7.queue == [Ticket(7, ReactionJob(Handled(3, 6), Primitive(0)))];
    Continue(ls[..7], w7, ls[7], ls[..8]);
    w := Step(w7, DoLeave);
  }

  /** Two jobs wait. The handler of the first registers a third reaction and leaves the runtime, which starts the job of
      that reaction before the second. */
  lemma OvertakingExample()
    ensures exists w :: At(Overtaking, w) && QueuedTickets(w.log) != StartedTickets(w.log) + Unstarted(w)
  {
    hide Sane, Inv, IsRun, Deliver;
    var ls := Overtaking;
    var w8 := LeftAgain();
    assert LeftFurtherOut(w8.frames);
    Continue(ls[..8], w8, ls[8], ls);
    var w := Step(w8, DoStartJob);
    assert w.overtaken;
    hide Step;
    hide QueuedTickets, StartedTickets, Unstarted;
    JobsAreFifoIff(ls, w);
  }

  const Reentering: seq<Label> :=
    [DoNewPromise, DoReject(0, Primitive(0)), DoTrackerDone, Register(1), Register(2), DoTrackerDone, DoTrackerDone]

  const Base: World := World([PromiseRec(Pending, Undefined, [], [], false)], [Pair(0, false)], [], [], [], [], {}, {}, false)

  lemma RejectedAlone() returns (w: World)
    ensures At(Reentering[..2], w) && Sane(w) && w.frames == [TellingReject(0, [], Primitive(0))] && |w.log| == 2 && w.ended == [] && w.outOfTurn == {} && w.retold == {}
    ensures w.promises == [PromiseRec(Rejected, Primitive(0), [], [], false)] && w.queue == []
  {
    hide At, Sane, Reject, Fulfill;
    var v := Primitive(0);
    EmptyRun();
    assert Reentering[..2] == [DoNewPromise, DoReject(0, v)];
    Continue([], Empty, DoNewPromise, [DoNewPromise]);
    assert Step(Empty, DoNewPromise) == Base;
    Continue([DoNewPromise], Base, DoReject(0, v), [DoNewPromise, DoReject(0, v)]);
    SettlingIs(MarkResolved(Base, 0), 0, v);
    w := Settling(MarkResolved(Base, 0), 0, Rejected, v);
    assert Step(Base, DoReject(0, v)) == w;
  }

  lemma ToldOnce() returns (w: World)
    ensures At(Reentering[..4], w) && Sane(w) && w.frames == [TellingHandle(0, Caught(1, 2))] && w.queue == [] && |w.log| == 4
    ensures w.promises == [PromiseRec(Rejected, Primitive(0), [], [], false)] && w.ended == [] && w.outOfTurn == {} && w.retold == {}
  {
    hide At, Sane, RunJob, TakeJob, GotThen, Deliver, CallResolve, CallReject;
    var ls := Reentering;
    var w2 := RejectedAlone();
    Continue(ls[..2], w2, ls[2], ls[..3]);
    var w3 := Step(w2, DoTrackerDone);
    assert w3 == PopFrame(w2) && w3.frames == [];
    Continue(ls[..3], w3, ls[3], ls[..4]);
    assert !Telling(w3.frames, 0) && !Telling(w3.ended, 0);
    w := Step(w3, Register(1));
  }

  lemma ToldTwice() returns (w: World)
    ensures At(Reentering[..5], w) && Sane(w) && w.frames == [TellingHandle(0, Caught(1, 2)), TellingHandle(0, Caught(2, 4))]
    ensures w.promises == [PromiseRec(Rejected, Primitive(0), [], [], false)] && w.ended == [] && w.outOfTurn == {} && w.retold == {0}
  {
    hide At, Sane, RunJob, TakeJob, GotThen, Deliver, CallResolve, CallReject;
    var ls := Reentering;
    var w4 := ToldOnce();
    Continue(ls[..4], w4, ls[4], ls[..5]);
    w := Step(w4, Register(2));
    assert w4.frames[0] == TellingHandle(0, Caught(1, 2));
    assert Telling(w4.frames, 0);
  }

  /** The tracker, told that a rejected promise is handled, registers reactions with it: they get their job first, and the
      tracker is told twice. */
  lemma ReenteringExample()
    ensures exists w :: At(Reentering, w) && !Telling(w.frames, 0)
                     && Served(Sel(w.log, ReactionJobs(0))) != RejectSide(Sel(w.log, Registrations(0)))
                     && |Sel(w.log, Trackings(0))| > 2
  {
    hide Sane, Inv, IsRun, Sel;
    var ls := Reentering;
    var w5 := ToldTwice();
    Continue(ls[..5], w5, ls[5], ls[..6]);
    var w6 := Step(w5, DoTrackerDone);
    assert w6.frames == [TellingHandle(0, Caught(1, 2))] && |w6.promises| == 1 && w6.promises[0].state == Rejected && w6.promises[0].handled && w6.ended == [] && w6.retold == {0};
    Continue(ls[..6], w6, ls[6], ls);
    var w := Step(w6, DoTrackerDone);
    assert w.frames == [] && |w.promises| == 1 && w.promises[0].state == Rejected && w.ended == [] && w.outOfTurn == {0} && w.retold == {0};
    assert !Telling(w.frames, 0);
    hide Step, Telling, Served, Side, RejectSide;
    OrdersDiffer(ls, w);
  }

  lemma OrdersDiffer(ls: seq<Label>, w: World)
    requires At(ls, w) && w.promises != [] && w.promises[0].state == Rejected && 0 in w.outOfTurn && 0 in w.retold
    ensures Served(Sel(w.log, ReactionJobs(0))) != RejectSide(Sel(w.log, Registrations(0))) && |Sel(w.log, Trackings(0))| > 2
  {
    hide Inv, IsRun, Sel, Telling, Served, RejectSide;
    OneJobPerReaction(ls, w, 0);
    TrackerCalls(ls, w, 0);
  }

  /** The tracker, told that a rejected promise is handled, throws: the reaction that was to be registered gets no job. */
  lemma ThrowingTrackerExample()
    ensures exists w :: At(Reentering[..4] + [DoTrackerThrew], w) && w.frames == [] && w.queue == []
                     && Served(Sel(w.log, ReactionJobs(0))) != RejectSide(Sel(w.log, Registrations(0)))
  {
    hide Sane, Inv, IsRun, Sel, Served, RejectSide;
    var ls := Reentering[..4];
    var w4 := ToldOnce();
    Continue(ls, w4, DoTrackerThrew, ls + [DoTrackerThrew]);
    var w := Step(w4, DoTrackerThrew);
    assert w.frames == [] && w.queue == [] && w.ended == [TellingHandle(0, Caught(1, 2))] && w.promises == w4.promises;
    assert w.ended[0].TellingHandle? && Telling(w.ended, 0);
    hide Step, Telling;
    OneJobPerReaction(ls + [DoTrackerThrew], w, 0);
  }

  const Abandoning: seq<Label> := TwoJobs + [DoLeave, DoStartJob, DoHandlerDone(Returned(Primitive(0))), DoLeaveThrew]

  /** Two jobs wait. The function that the result of the first is delivered to throws, which ends the batch: the second is
      never started. */
  lemma AbandoningExample()
    ensures exists w :: At(Abandoning, w) && w.frames == [] && w.queue == [] && QueuedTickets(w.log) != StartedTickets(w.log)
  {
    hide Sane, Inv, IsRun, AddReactions, GotThen, TrackerDone, CallResolve, CallReject;
    var ls := Abandoning;
    var w6 := FirstStarted();
    assert ls[..6] == TwoJobs + [DoLeave, DoStartJob];
    Continue(ls[..6], w6, ls[6], ls[..7]);
    var w7 := Step(w6, DoHandlerDone(Returned(Primitive(0))));
    assert w7.frames == [Draining(w6.frames[0].batch)] && w7.queue == [];
    Continue(ls[..7], w7, ls[7], ls);
    var w := Step(w7, DoLeaveThrew);
    assert w.frames == [] && w.queue == [] && w.ended == w6.ended + w7.frames;
    BatchesAppend(w6.ended, w7.frames);
    OneBatch(w6.frames[0].batch);
    assert Lost(w) != [] && Unstarted(w) == [];
    hide Step, QueuedTickets, StartedTickets, Unstarted, Lost;
    JobsAreFifoIff(ls, w);
    assert StartedTickets(w.log) + [] == StartedTickets(w.log);
  }
}
