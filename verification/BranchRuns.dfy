/** Executing statements directly, and executing their code: both pass through the same expressions in the same order. */
module BranchRuns {
  import opened Options
  import opened BranchSpec
  import opened BranchBlocks
  import opened BranchLayout

  // ---------------------------------------------------------------- what can be seen of a run

  /** What runs other code: an expression, the conversion of a value that is tested, entering a with statement, and the
      calls of an iterator, of which the last closes it early. */
  datatype Act = Evaluated(id: nat) | Tested | EnteredWith | Iterated | Advanced | Closed

  datatype Event = Event(act: Act, choice: Choice)

  /** The choices still to come, and what was seen so far. */
  datatype Io = Io(cs: seq<Choice>, out: seq<Event>)

  /** Paused: no choice is left. TimedOut: some loop went round more often than execution was to go on. Astray: a finally
      block threw, although its try block had completed, and there is a catch clause. */
  datatype Outcome = Normal | Broke(name: Option<string>) | Continued(name: Option<string>) | Threw | Paused | TimedOut | Astray

  datatype Result = Result(o: Outcome, io: Io)

  /** By section 14 of ECMA-262; as the machine does it; or in the way both agree on, up to where they do not. */
  datatype Mode = AsStandard | AsMachine | UntilAstray

  // ---------------------------------------------------------------- direct execution

  /** Something happens that may throw; yes is how a test comes out. */
  function Do(act: Act, io: Io): (r: (Result, bool))
    ensures r.0.o.Normal? || r.0.o.Threw? || r.0.o.Paused?
    ensures Adds(io, r.0)
  {
    if io.cs == [] then (Result(Paused, io), false)
    else
      var c, io' := io.cs[0], Io(io.cs[1..], io.out + [Event(act, io.cs[0])]);
      if c.Throw? then (Result(Threw, io'), false) else (Result(Normal, io'), c.yes)
  }

  function Evaluate(e: Option<nat>, io: Io): (r: Result)
    ensures r.o.Normal? || r.o.Threw? || r.o.Paused?
    ensures Adds(io, r)
  {
    if e.None? then Result(Normal, io) else Do(Evaluated(e.value), io).0
  }

  function Test(e: Option<nat>, io: Io): (r: (Result, bool))
    ensures r.0.o.Normal? || r.0.o.Threw? || r.0.o.Paused?
    ensures Adds(io, r.0)
  {
    if e.None? then (Result(Normal, io), true)
    else
      var r := Evaluate(e, io);
      if r.o.Normal? then Do(Tested, r.io) else (r, false)
  }

  /** The outcome of the body of a loop or switch that is a break out of it; or after which a loop goes on. */
  predicate Ends(o: Outcome, name: Option<string>) {
    o == Broke(None) || (name.Some? && o == Broke(name))
  }

  predicate GoesOn(o: Outcome, name: Option<string>) {
    o == Normal || o == Continued(None) || (name.Some? && o == Continued(name))
  }

  predicate Stops(o: Outcome) { o.Threw? || o.Paused? || o.TimedOut? || o.Astray? }

  /** Events are only added, and an exception is one. */
  predicate Adds(io: Io, r: Result) {
    io.out <= r.io.out && (r.o.Threw? ==> io.out != r.io.out)
  }

  ghost predicate Below(list: seq<Stmt>, parent: Stmt) {
    forall i :: 0 <= i < |list| ==> list[i] < parent
  }

  /** Executes a statement, for at most fuel rounds of each loop. */
  function Execute(mode: Mode, s: Stmt, io: Io, fuel: nat): (r: Result)
    ensures Adds(io, r)
    decreases fuel, s, 6
  {
    match s
    case Expression(id) => Evaluate(Some(id), io)
    case Sequence(_, list) => ExecuteList(mode, list, 0, s, io, fuel)
    case If(condition, x, y) =>
      var (t, yes) := Test(Some(condition), io);
      if !t.o.Normal? then t
      else if yes then Execute(mode, x, t.io, fuel)
      else if y.Some? then Execute(mode, y.value, t.io, fuel) else t
    case With(subject, body) =>
      var t := Evaluate(Some(subject), io);
      if !t.o.Normal? then t
      else var u := Do(EnteredWith, t.io).0; if !u.o.Normal? then u else Execute(mode, body, u.io, fuel)
    case TryStmt(_, _, _) => ExecuteTry(mode, s, io, fuel)
    case Switch(_, discriminant, cases, default) =>
      var t := Evaluate(Some(discriminant), io);
      if !t.o.Normal? then t
      else
        var (u, k) := Select(cases, default, 0, t.io);
        if !u.o.Normal? then u
        else var r := ExecuteCases(mode, s, k, u.io, fuel); if Ends(r.o, None) then r.(o := Normal) else r
    case Labelled(name, t) =>
      if Loop(t) then ExecuteLoop(mode, t, Some(name), io, fuel)
      else var r := Execute(mode, t, io, fuel); if r.o == Broke(Some(name)) then r.(o := Normal) else r
    case Branch(isBreak, name) => Result(if isBreak then Broke(name) else Continued(name), io)
    case _ => ExecuteLoop(mode, s, None, io, fuel)
  }

  /** The statements from the i-th on. */
  function ExecuteList(mode: Mode, list: seq<Stmt>, i: nat, parent: Stmt, io: Io, fuel: nat): (r: Result)
    requires Below(list, parent)
    ensures Adds(io, r)
    decreases fuel, parent, 1, |list| - i
  {
    if i >= |list| then Result(Normal, io)
    else var r := Execute(mode, list[i], io, fuel); if r.o.Normal? then ExecuteList(mode, list, i + 1, parent, r.io, fuel) else r
  }

  function ExecuteLoop(mode: Mode, s: Stmt, name: Option<string>, io: Io, fuel: nat): (r: Result)
    requires Loop(s)
    ensures Adds(io, r)
    decreases fuel, s, 5
  {
    match s
    case While(test, body) => ExecuteRounds(mode, test, None, body, name, io, fuel)
    case DoWhile(body, until) => ExecuteUntil(mode, body, until, name, io, fuel)
    case For(_, _, init, test, update, body) =>
      var t := Evaluate(init, io);
      if t.o.Normal? then ExecuteRounds(mode, test, update, body, name, t.io, fuel) else t
    case ForInOf(_, _, source, into, body) =>
      var t := Evaluate(Some(source), io);
      if !t.o.Normal? then t
      else var u := Do(Iterated, t.io).0; if u.o.Normal? then ExecuteEach(mode, into, body, name, u.io, fuel) else u
  }

  /** test, body, update, and so on. */
  function ExecuteRounds(mode: Mode, test: Option<nat>, update: Option<nat>, body: Stmt, name: Option<string>, io: Io, fuel: nat): (r: Result)
    ensures Adds(io, r)
    decreases fuel, body, 7
  {
    var (t, yes) := Test(test, io);
    if !t.o.Normal? || !yes then t
    else
      var r := Execute(mode, body, t.io, fuel);
      if Ends(r.o, name) then r.(o := Normal)
      else if !GoesOn(r.o, name) then r
      else
        var u := Evaluate(update, r.io);
        if !u.o.Normal? then u
        else if fuel == 0 then u.(o := TimedOut)
        else ExecuteRounds(mode, test, update, body, name, u.io, fuel - 1)
  }

  /** body, test, and so on. */
  function ExecuteUntil(mode: Mode, body: Stmt, until: nat, name: Option<string>, io: Io, fuel: nat): (r: Result)
    ensures Adds(io, r)
    decreases fuel, body, 7
  {
    var r := Execute(mode, body, io, fuel);
    if Ends(r.o, name) then r.(o := Normal)
    else if !GoesOn(r.o, name) then r
    else
      var (t, yes) := Test(Some(until), r.io);
      if !t.o.Normal? || !yes then t
      else if fuel == 0 then t.(o := TimedOut)
      else ExecuteUntil(mode, body, until, name, t.io, fuel - 1)
  }

  /** The elements of an iteration, which is closed by whatever leaves it early but an exception. */
  function ExecuteEach(mode: Mode, into: nat, body: Stmt, name: Option<string>, io: Io, fuel: nat): (r: Result)
    ensures Adds(io, r)
    decreases fuel, body, 7
  {
    var (t, over) := Do(Advanced, io);
    if !t.o.Normal? || over then t
    else
      var v := Evaluate(Some(into), t.io);
      if !v.o.Normal? then v
      else
        var r := Execute(mode, body, v.io, fuel);
        if Stops(r.o) then r
        else if GoesOn(r.o, name) then
          if fuel == 0 then r.(o := TimedOut) else ExecuteEach(mode, into, body, name, r.io, fuel - 1)
        else
          var u := Do(Closed, r.io).0;
          if !u.o.Normal? then u else if Ends(r.o, name) then u else u.(o := r.o)
  }

  /** The first case from the i-th on whose test succeeds; otherwise the default, or none. */
  function Select(cases: seq<Case>, default: int, i: nat, io: Io): (r: (Result, nat))
    ensures r.0.o.Normal? || r.0.o.Threw? || r.0.o.Paused?
    ensures Adds(io, r.0)
    decreases |cases| - i
  {
    if i >= |cases| then (Result(Normal, io), if default < 0 then |cases| else default)
    else if i == default then Select(cases, default, i + 1, io)
    else
      var (t, yes) := Test(Some(cases[i].test), io);
      if !t.o.Normal? || yes then (t, i) else Select(cases, default, i + 1, t.io)
  }

  /** The cases from the k-th on. */
  function ExecuteCases(mode: Mode, s: Stmt, k: nat, io: Io, fuel: nat): (r: Result)
    requires s.Switch?
    ensures Adds(io, r)
    decreases fuel, s, 2, |s.cases| - k
  {
    if k >= |s.cases| then Result(Normal, io)
    else
      var r := ExecuteList(mode, s.cases[k].list, 0, s, io, fuel);
      if r.o.Normal? then ExecuteCases(mode, s, k + 1, r.io, fuel) else r
  }

  function ExecuteTry(mode: Mode, s: Stmt, io: Io, fuel: nat): (r: Result)
    requires s.TryStmt?
    ensures Adds(io, r)
    decreases fuel, s, 3
  {
    var b := Execute(mode, s.block, io, fuel);
    var r := if b.o.Threw? && s.catch_.Some? then ExecuteList(mode, s.catch_.value.list, 0, s, b.io, fuel) else b;
    if s.finally_.None? || r.o.Paused? || r.o.TimedOut? || r.o.Astray? then r
    else
      var f := ExecuteList(mode, s.finally_.value.list, 0, s, r.io, fuel);
      if f.o.Normal? then r.(io := f.io)
      else if !mode.AsStandard? && f.o.Threw? && b.o.Normal? && s.catch_.Some? then
        if mode.AsMachine? then CaughtAgain(s, f.io, fuel) else f.(o := Astray)
      else f
  }

  /** The machine: what a finally block throws after a try block that completed goes to the catch clause of the same statement,
      and if that completes the finally block is executed once more. */
  function CaughtAgain(s: Stmt, io: Io, fuel: nat): (r: Result)
    requires s.TryStmt? && s.catch_.Some? && s.finally_.Some?
    ensures Adds(io, r)
    decreases fuel, s, 2
  {
    var c := ExecuteList(AsMachine, s.catch_.value.list, 0, s, io, fuel);
    if c.o.Normal? then ExecuteList(AsMachine, s.finally_.value.list, 0, s, c.io, fuel) else c
  }

  // ---------------------------------------------------------------- the machine

  function ActOf(i: Instr): Option<Act> {
    match i
    case Op(id) => Some(Evaluated(id))
    case JumpIf(_) => Some(Tested)
    case JumpUnless(_) => Some(Tested)
    case EnterWith => Some(EnteredWith)
    case Iterate => Some(Iterated)
    case IterNext(_) => Some(Advanced)
    case EnumPopClose => Some(Closed)
    case _ => None
  }

  datatype Config = Config(s: State, io: Io)

  /** One step of the machine; the instructions that run no other code do not throw. */
  function Tick(f: seq<Instr>, c: Config): Config {
    if !c.s.Running? || c.s.pc >= |f| then c
    else
      match ActOf(f[c.s.pc])
      case None => c.(s := Step(f, c.s, Go(false)))
      case Some(a) =>
        if c.io.cs == [] then c
        else Config(Step(f, c.s, c.io.cs[0]), Io(c.io.cs[1..], c.io.out + [Event(a, c.io.cs[0])]))
  }

  function Ticks(f: seq<Instr>, c: Config, n: nat): Config
    decreases n
  {
    if n == 0 then c else Ticks(f, Tick(f, c), n - 1)
  }

  lemma {:induction false} TicksAdd(f: seq<Instr>, c: Config, m: nat, n: nat)
    ensures Ticks(f, c, m + n) == Ticks(f, Ticks(f, c, m), n)
    decreases m
  {
    if m > 0 {
      TicksAdd(f, Tick(f, c), m - 1, n);
    }
  }

  function C(pc: nat, frames: seq<Frame>, io: Io): Config {
    Config(Running(pc, frames), io)
  }

  /** The machine is where a result leaves it that stops execution. */
  ghost predicate Halted(f: seq<Instr>, d: Config, frames: seq<Frame>, r: Result) {
    && d.io == r.io
    && match r.o
       case Threw => d.s == Handle(frames)
       case Paused => d.s.Running? && d.io.cs == [] && d.s.pc < |f| && ActOf(f[d.s.pc]).Some?
       case TimedOut => true
       case _ => false
  }

  /** The machine has got to where a statement that ends at b, inside of ctx, should leave it with this result. */
  ghost predicate Right(f: seq<Instr>, d: Config, b: nat, ctx: seq<Target>, frames: seq<Frame>, r: Result) {
    && d.io == r.io
    && match r.o
       case Normal => d.s == Running(b, frames)
       case Broke(name) => d.s.Running? && d.s.frames == frames && ExitAt(f, d.s.pc, ctx, name, true)
       case Continued(name) => d.s.Running? && d.s.frames == frames && ExitAt(f, d.s.pc, ctx, name, false)
       case _ => Halted(f, d, frames, r)
  }

  /** n steps lead there; at least fuel if execution was given up. */
  ghost predicate Gets(f: seq<Instr>, c: Config, n: nat, b: nat, ctx: seq<Target>, frames: seq<Frame>, r: Result, fuel: nat) {
    Right(f, Ticks(f, c, n), b, ctx, frames, r) && (r.o.TimedOut? ==> n >= fuel)
  }

  /** The first m steps, and then n more. */
  lemma After(f: seq<Instr>, c: Config, m: nat, d: Config, n: nat, b: nat, ctx: seq<Target>, frames: seq<Frame>, r: Result, fuel: nat)
    requires Ticks(f, c, m) == d && Gets(f, d, n, b, ctx, frames, r, if fuel > m then fuel - m else 0)
    ensures Gets(f, c, m + n, b, ctx, frames, r, fuel)
  {
    hide Right;
    TicksAdd(f, c, m, n);
  }

  lemma Silent(f: seq<Instr>, pc: nat, frames: seq<Frame>, io: Io, i: Instr)
    requires Is(f, pc, i) && ActOf(i).None?
    ensures Tick(f, C(pc, frames, io)) == Config(Exec(i, pc, frames, false), io)
  {
  }

  /** An instruction that something happens at. */
  lemma Seen(f: seq<Instr>, pc: nat, frames: seq<Frame>, io: Io, i: Instr, a: Act)
    requires Is(f, pc, i) && ActOf(i) == Some(a)
    ensures var (r, yes) := Do(a, io); var d := Tick(f, C(pc, frames, io));
      if r.o.Normal? then d == Config(Exec(i, pc, frames, yes), r.io)
      else Halted(f, d, frames, r)
  {
  }

  lemma OneTick(f: seq<Instr>, c: Config)
    ensures Ticks(f, c, 1) == Tick(f, c)
  {
    assert Ticks(f, Tick(f, c), 0) == Tick(f, c);
  }

  lemma EvaluateRuns(f: seq<Instr>, pc: nat, frames: seq<Frame>, e: Option<nat>, io: Io) returns (n: nat)
    requires LaidOp(f, pc, e)
    ensures var r := Evaluate(e, io); var d := Ticks(f, C(pc, frames, io), n);
      if r.o.Normal? then d == C(pc + OpSize(e), frames, r.io) else Halted(f, d, frames, r)
  {
    n := OpSize(e);
    if e.Some? {
      Seen(f, pc, frames, io, Op(e.value), Evaluated(e.value));
      OneTick(f, C(pc, frames, io));
    }
  }

  lemma TestRuns(f: seq<Instr>, pc: nat, frames: seq<Frame>, test: Option<nat>, to: nat, io: Io) returns (n: nat)
    requires LaidTest(f, pc, test, to)
    ensures var (r, yes) := Test(test, io); var d := Ticks(f, C(pc, frames, io), n);
      if r.o.Normal? then d == C(if yes then pc + TestSize(test) else to, frames, r.io) else Halted(f, d, frames, r)
  {
    if test.None? {
      n := 0;
    } else {
      n := EvaluateRuns(f, pc, frames, test, io);
      var r := Evaluate(test, io);
      if r.o.Normal? {
        Seen(f, pc + 1, frames, r.io, JumpUnless(to - (pc + 1)), Tested);
        OneTick(f, C(pc + 1, frames, r.io));
        TicksAdd(f, C(pc, frames, io), n, 1);
        n := n + 1;
      }
    }
  }

  lemma HandlePushed(frames: seq<Frame>, x: Frame)
    requires !x.TryFrame?
    ensures Handle(frames + [x]) == Handle(frames)
  {
    assert (frames + [x])[..|frames|] == frames;
  }

  /** The way out of one block more. */
  lemma ExitOut(f: seq<Instr>, pc: nat, ctx: seq<Target>, t: Target, name: Option<string>, isBreak: bool)
    requires ExitAt(f, pc, ctx + [t], name, isBreak) && !Catches(t.typ, t.name, name, isBreak) && !SharedScope(ctx + [t], name, isBreak)
    ensures var i := if IsScope(t.typ) then Some(LeaveBlock) else if t.typ.BlockTry? then Some(LeaveTry)
        else if t.typ.BlockWith? then Some(LeaveWith) else if t.typ.BlockLoopEnum? then Some(EnumPopClose) else None;
      if i.Some? then Is(f, pc, i.value) && ExitAt(f, pc + 1, ctx, name, isBreak) else ExitAt(f, pc, ctx, name, isBreak)
  {
    assert (ctx + [t])[..|ctx|] == ctx;
  }

  /** The last block is the one that a break or continue is about. */
  lemma ExitHere(f: seq<Instr>, pc: nat, ctx: seq<Target>, t: Target, name: Option<string>, isBreak: bool)
    requires ExitAt(f, pc, ctx + [t], name, isBreak) && Catches(t.typ, t.name, name, isBreak)
    ensures Is(f, pc, Jump((if isBreak then t.brk else t.cont) - pc)) && (isBreak || IsLoop(t.typ))
  {
  }

  /** A jump to a position ahead or behind. */
  lemma JumpRuns(f: seq<Instr>, pc: nat, to: nat, frames: seq<Frame>, io: Io)
    requires Is(f, pc, Jump(to - pc))
    ensures Tick(f, C(pc, frames, io)) == C(to, frames, io)
  {
    Silent(f, pc, frames, io, Jump(to - pc));
  }

  // ---------------------------------------------------------------- the code of a statement does what the statement does

  /** What leaves a block on all ways, and the frame that is left. */
  predicate LeftBy(t: Target, i: Instr, x: Frame) {
    if IsScope(t.typ) then i == LeaveBlock && x == ScopeFrame else t.typ.BlockWith? && i == LeaveWith && x == WithFrame
  }

  /** At the end of a scope or with statement, and on the ways out of it, it is left. */
  lemma Through(f: seq<Instr>, c: Config, n: nat, b: nat, ctx: seq<Target>, t: Target, i: Instr, frames: seq<Frame>, x: Frame, r: Result, fuel: nat)
    returns (k: nat)
    requires Gets(f, c, n, b, ctx + [t], frames + [x], r, fuel) && Is(f, b, i) && LeftBy(t, i, x) && t.name.None?
    requires r.o.Continued? ==> !SharedScope(ctx + [t], r.o.name, false)
    ensures Gets(f, c, k, b + 1, ctx, frames, r, fuel)
  {
    var d := Ticks(f, c, n);
    if Stops(r.o) {
      HandlePushed(frames, x);
      k := n;
    } else {
      assert (frames + [x])[..|frames|] == frames;
      if r.o.Normal? {
        Silent(f, b, frames + [x], r.io, i);
      } else {
        ExitOut(f, d.s.pc, ctx, t, r.o.name, r.o.Broke?);
        Silent(f, d.s.pc, frames + [x], r.io, i);
      }
      OneTick(f, d);
      TicksAdd(f, c, n, 1);
      k := n + 1;
    }
  }

  lemma {:induction false} StatementRuns(f: seq<Instr>, a: nat, b: nat, s: Stmt, ctx: seq<Target>, frames: seq<Frame>, io: Io, fuel: nat) returns (n: nat)
    requires Layout(f, a, b, s, ctx)
    ensures Gets(f, C(a, frames, io), n, b, ctx, frames, Execute(AsMachine, s, io, fuel), fuel)
    decreases fuel, s, 9
  {
    hide Ticks, Tick, LaidIf, LaidTry, LaidSwitch, LaidLoop, LaidBlock, LaidAt, Handle;
    match s
    case Expression(id) => n := EvaluateRuns(f, a, frames, Some(id), io);
    case Sequence(lexical, list) => n := BlockRuns(f, a, b, lexical, list, s, ctx, frames, io, fuel);
    case If(_, _, _) =>
      var m :| LaidIf(f, a, m, b, s, ctx);
      n := IfRuns(f, a, m, b, s, ctx, frames, io, fuel);
    case With(_, _) => n := WithRuns(f, a, b, s, ctx, frames, io, fuel);
    case TryStmt(_, _, _) =>
      var m, k :| LaidTry(f, a, m, k, b, s, ctx);
      n := TryRuns(f, a, m, k, b, s, ctx, frames, io, fuel);
    case Switch(_, _, _, _) =>
      var marks :| LaidSwitch(f, a, b, marks, s, ctx);
      n := SwitchRuns(f, a, b, marks, s, ctx, frames, io, fuel);
    case Labelled(name, t) =>
      if Loop(t) {
        n := LoopRuns(f, a, b, t, Some(name), ctx, frames, io, fuel);
      } else {
        n := LabelRuns(f, a, b, name, t, ctx, frames, io, fuel);
      }
    case Branch(isBreak, name) =>
      n := 0;
      assert Ticks(f, C(a, frames, io), 0) == C(a, frames, io) by {
        NoTicks(f, C(a, frames, io));
      }
    case _ => n := LoopRuns(f, a, b, s, None, ctx, frames, io, fuel);
  }

  lemma NoTicks(f: seq<Instr>, c: Config)
    ensures Ticks(f, c, 0) == c
  {
  }

  lemma {:induction false} ListRuns(f: seq<Instr>, marks: seq<nat>, list: seq<Stmt>, i: nat, parent: Stmt, ctx: seq<Target>, frames: seq<Frame>, io: Io, fuel: nat)
    returns (n: nat)
    requires LaidAt(f, marks, list, parent, ctx) && i <= |list| && Below(list, parent)
    ensures Gets(f, C(marks[i], frames, io), n, marks[|list|], ctx, frames, ExecuteList(AsMachine, list, i, parent, io, fuel), fuel)
    decreases fuel, parent, 1, |list| - i
  {
    hide Ticks, Tick, Layout, Handle, Execute;
    var c := C(marks[i], frames, io);
    if i == |list| {
      n := 0;
      NoTicks(f, c);
    } else {
      var r := Execute(AsMachine, list[i], io, fuel);
      n := StatementRuns(f, marks[i], marks[i + 1], list[i], ctx, frames, io, fuel);
      if r.o.Normal? {
        var k := ListRuns(f, marks, list, i + 1, parent, ctx, frames, r.io, fuel);
        After(f, c, n, C(marks[i + 1], frames, r.io), k, marks[|list|], ctx, frames, ExecuteList(AsMachine, list, i + 1, parent, r.io, fuel), fuel);
        n := n + k;
      }
    }
  }

  lemma {:induction false} LaidListRuns(f: seq<Instr>, a: nat, b: nat, list: seq<Stmt>, parent: Stmt, ctx: seq<Target>, frames: seq<Frame>, io: Io, fuel: nat)
    returns (n: nat)
    requires LaidList(f, a, b, list, parent, ctx)
    ensures Below(list, parent) && Gets(f, C(a, frames, io), n, b, ctx, frames, ExecuteList(AsMachine, list, 0, parent, io, fuel), fuel)
    decreases fuel, parent, 2
  {
    var marks :| LaidAt(f, marks, list, parent, ctx) && marks[0] == a && marks[|list|] == b;
    n := ListRuns(f, marks, list, 0, parent, ctx, frames, io, fuel);
  }

  lemma {:induction false} BlockRuns(f: seq<Instr>, a: nat, b: nat, lexical: bool, list: seq<Stmt>, parent: Stmt, ctx: seq<Target>, frames: seq<Frame>, io: Io, fuel: nat)
    returns (n: nat)
    requires LaidBlock(f, a, b, lexical, list, parent, ctx)
    ensures Below(list, parent) && Gets(f, C(a, frames, io), n, b, ctx, frames, ExecuteList(AsMachine, list, 0, parent, io, fuel), fuel)
    decreases fuel, parent, 4
  {
    hide Ticks, Tick, LaidList, Handle, ExecuteList, Right;
    if !lexical {
      n := LaidListRuns(f, a, b, list, parent, ctx, frames, io, fuel);
    } else {
      n := ScopedListRuns(f, a, b, list, parent, ctx, frames, io, fuel);
    }
  }

  /** Statements in a scope of their own. */
  lemma {:induction false} ScopedListRuns(f: seq<Instr>, a: nat, b: nat, list: seq<Stmt>, parent: Stmt, ctx: seq<Target>, frames: seq<Frame>, io: Io, fuel: nat)
    returns (n: nat)
    requires a + 2 <= b && Is(f, a, EnterBlock) && Is(f, b - 1, LeaveBlock) && LaidList(f, a + 1, b - 1, list, parent, ctx + [ScopeTarget])
    ensures Below(list, parent) && Gets(f, C(a, frames, io), n, b, ctx, frames, ExecuteList(AsMachine, list, 0, parent, io, fuel), fuel)
    decreases fuel, parent, 3
  {
    hide Ticks, Tick, LaidList, Handle, ExecuteList, Right;
    var c, d := C(a, frames, io), C(a + 1, frames + [ScopeFrame], io);
    Silent(f, a, frames, io, EnterBlock);
    OneTick(f, c);
    var k := LaidListRuns(f, a + 1, b - 1, list, parent, ctx + [ScopeTarget], frames + [ScopeFrame], io, fuel);
    var r := ExecuteList(AsMachine, list, 0, parent, io, fuel);
    After(f, c, 1, d, k, b - 1, ctx + [ScopeTarget], frames + [ScopeFrame], r, fuel);
    n := Through(f, c, 1 + k, b - 1, ctx, ScopeTarget, LeaveBlock, frames, ScopeFrame, r, fuel);
  }

  lemma {:induction false} IfRuns(f: seq<Instr>, a: nat, m: nat, b: nat, s: Stmt, ctx: seq<Target>, frames: seq<Frame>, io: Io, fuel: nat) returns (n: nat)
    requires s.If? && LaidIf(f, a, m, b, s, ctx)
    ensures Gets(f, C(a, frames, io), n, b, ctx, frames, Execute(AsMachine, s, io, fuel), fuel)
    decreases fuel, s, 5
  {
    hide Ticks, Tick, Layout, Handle;
    var c := C(a, frames, io);
    var to := if s.alternate.None? then b else m + 1;
    n := TestRuns(f, a, frames, Some(s.condition), to, io);
    var (t, yes) := Test(Some(s.condition), io);
    if t.o.Normal? {
      if yes {
        var k := StatementRuns(f, a + 2, m, s.consequent, ctx, frames, t.io, fuel);
        var r := Execute(AsMachine, s.consequent, t.io, fuel);
        After(f, c, n, C(a + 2, frames, t.io), k, m, ctx, frames, r, fuel);
        n := n + k;
        if s.alternate.Some? && r.o.Normal? {
          JumpRuns(f, m, b, frames, r.io);
          OneTick(f, C(m, frames, r.io));
          TicksAdd(f, c, n, 1);
          n := n + 1;
        }
      } else if s.alternate.Some? {
        var k := StatementRuns(f, m + 1, b, s.alternate.value, ctx, frames, t.io, fuel);
        After(f, c, n, C(m + 1, frames, t.io), k, b, ctx, frames, Execute(AsMachine, s.alternate.value, t.io, fuel), fuel);
        n := n + k;
      }
    }
  }

  lemma {:induction false} WithRuns(f: seq<Instr>, a: nat, b: nat, s: Stmt, ctx: seq<Target>, frames: seq<Frame>, io: Io, fuel: nat) returns (n: nat)
    requires s.With? && Layout(f, a, b, s, ctx)
    ensures Gets(f, C(a, frames, io), n, b, ctx, frames, Execute(AsMachine, s, io, fuel), fuel)
    decreases fuel, s, 5
  {
    hide Ticks, Tick, Handle;
    var c, t := C(a, frames, io), Evaluate(Some(s.subject), io);
    n := EvaluateRuns(f, a, frames, Some(s.subject), io);
    if t.o.Normal? {
      Seen(f, a + 1, frames, t.io, EnterWith, EnteredWith);
      var u := Do(EnteredWith, t.io).0;
      OneTick(f, C(a + 1, frames, t.io));
      TicksAdd(f, c, n, 1);
      n := n + 1;
      if u.o.Normal? {
        var inner := Target(BlockWith, None, b, 0);
        var k := StatementRuns(f, a + 2, b - 1, s.body, ctx + [inner], frames + [WithFrame], u.io, fuel);
        var r := Execute(AsMachine, s.body, u.io, fuel);
        After(f, c, n, C(a + 2, frames + [WithFrame], u.io), k, b - 1, ctx + [inner], frames + [WithFrame], r, fuel);
        n := Through(f, c, n + k, b - 1, ctx, inner, LeaveWith, frames, WithFrame, r, fuel);
      }
    }
  }

  lemma {:induction false} LabelRuns(f: seq<Instr>, a: nat, b: nat, name: string, t: Stmt, ctx: seq<Target>, frames: seq<Frame>, io: Io, fuel: nat) returns (n: nat)
    requires !Loop(t) && Layout(f, a, b, t, ctx + [Target(BlockLabel, Some(name), b, 0)])
    ensures Gets(f, C(a, frames, io), n, b, ctx, frames, Execute(AsMachine, Labelled(name, t), io, fuel), fuel)
    decreases fuel, t, 10
  {
    hide Ticks, Tick, Layout, Handle, ExitAt, Right;
    var r := Execute(AsMachine, t, io, fuel);
    var k := StatementRuns(f, a, b, t, ctx + [Target(BlockLabel, Some(name), b, 0)], frames, io, fuel);
    n := LabelLeft(f, C(a, frames, io), k, b, name, ctx, frames, r, fuel);
  }

  /** A break leads to the end of the statement with its label. */
  lemma LabelLeft(f: seq<Instr>, c: Config, m: nat, b: nat, name: string, ctx: seq<Target>, frames: seq<Frame>, r: Result, fuel: nat) returns (n: nat)
    requires Gets(f, c, m, b, ctx + [Target(BlockLabel, Some(name), b, 0)], frames, r, fuel)
    ensures Gets(f, c, n, b, ctx, frames, if r.o == Broke(Some(name)) then r.(o := Normal) else r, fuel)
  {
    hide Ticks, Tick, Handle, ExitAt;
    var d, t := Ticks(f, c, m), Target(BlockLabel, Some(name), b, 0);
    n := m;
    if r.o.Broke? || r.o.Continued? {
      if Catches(BlockLabel, Some(name), r.o.name, r.o.Broke?) {
        ExitHere(f, d.s.pc, ctx, t, r.o.name, r.o.Broke?);
        JumpRuns(f, d.s.pc, b, frames, r.io);
        Onward(f, c, n, C(b, frames, r.io));
        n := n + 1;
      } else {
        ExitOut(f, d.s.pc, ctx, t, r.o.name, r.o.Broke?);
      }
    }
  }

  // ---------------------------------------------------------------- loops

  /** One step more. */
  lemma Onward(f: seq<Instr>, c: Config, n: nat, d: Config)
    requires Tick(f, Ticks(f, c, n)) == d
    ensures Ticks(f, c, n + 1) == d
  {
    OneTick(f, Ticks(f, c, n));
    TicksAdd(f, c, n, 1);
  }

  /** What is between a for, while or do-while loop and its body: the loop, and the scope its iterations share. */
  function LoopCtx(ctx: seq<Target>, loop: Target, lexical: bool): seq<Target> {
    ctx + [loop] + if lexical then [IterScopeTarget] else []
  }

  function LoopFrames(frames: seq<Frame>, lexical: bool): seq<Frame> {
    if lexical then frames + [ScopeFrame] else frames
  }

  lemma LoopStops(f: seq<Instr>, d: Config, frames: seq<Frame>, lexical: bool, r: Result)
    requires Halted(f, d, LoopFrames(frames, lexical), r)
    ensures Halted(f, d, frames, r)
  {
    if lexical {
      HandlePushed(frames, ScopeFrame);
    }
  }

  /** Where the loop was left by its body. */
  function LoopLeft(r: Result, name: Option<string>): Result {
    if Ends(r.o, name) then r.(o := Normal) else r
  }

  lemma LoopLeaves(f: seq<Instr>, c: Config, n: nat, p: nat, ctx: seq<Target>, loop: Target, lexical: bool, frames: seq<Frame>, r: Result, fuel: nat)
    returns (k: nat)
    requires loop.typ.BlockLoop? && !GoesOn(r.o, loop.name)
    requires Gets(f, c, n, p, LoopCtx(ctx, loop, lexical), LoopFrames(frames, lexical), r, fuel)
    ensures Gets(f, c, k, loop.brk, ctx, frames, LoopLeft(r, loop.name), fuel)
  {
    hide Ticks, Tick, Handle, ExitAt;
    if Stops(r.o) {
      k := n;
      LoopStops(f, Ticks(f, c, n), frames, lexical, r);
    } else {
      var m := ScopeLeaves(f, c, n, ctx, loop, lexical, frames, r);
      var d := Ticks(f, c, m);
      k := m;
      if Catches(BlockLoop, loop.name, r.o.name, r.o.Broke?) {
        ExitHere(f, d.s.pc, ctx, loop, r.o.name, r.o.Broke?);
        JumpRuns(f, d.s.pc, loop.brk, frames, r.io);
        Onward(f, c, m, C(loop.brk, frames, r.io));
        k := m + 1;
      } else {
        ExitOut(f, d.s.pc, ctx, loop, r.o.name, r.o.Broke?);
      }
    }
  }

  /** A branch out of the loop leaves the scope its iterations share. */
  lemma ScopeLeaves(f: seq<Instr>, c: Config, n: nat, ctx: seq<Target>, loop: Target, lexical: bool, frames: seq<Frame>, r: Result) returns (k: nat)
    requires loop.typ.BlockLoop? && !GoesOn(r.o, loop.name) && (r.o.Broke? || r.o.Continued?)
    requires var d := Ticks(f, c, n);
      d.io == r.io && d.s.Running? && d.s.frames == LoopFrames(frames, lexical) && ExitAt(f, d.s.pc, LoopCtx(ctx, loop, lexical), r.o.name, r.o.Broke?)
    ensures var d := Ticks(f, c, k);
      d.io == r.io && d.s.Running? && d.s.frames == frames && ExitAt(f, d.s.pc, ctx + [loop], r.o.name, r.o.Broke?)
  {
    hide Ticks, Tick, Handle, ExitAt;
    var d := Ticks(f, c, n);
    k := n;
    if lexical {
      assert (ctx + [loop] + [IterScopeTarget])[|ctx|] == loop;
      ExitOut(f, d.s.pc, ctx + [loop], IterScopeTarget, r.o.name, r.o.Broke?);
      assert (frames + [ScopeFrame])[..|frames|] == frames;
      Silent(f, d.s.pc, frames + [ScopeFrame], r.io, LeaveBlock);
      Onward(f, c, n, C(d.s.pc + 1, frames, r.io));
      k := n + 1;
    } else {
      assert LoopCtx(ctx, loop, lexical) == ctx + [loop];
    }
  }

  /** A continue of the loop leads to where its continues go. */
  lemma LoopContinues(f: seq<Instr>, c: Config, n: nat, p: nat, ctx: seq<Target>, loop: Target, lexical: bool, frames: seq<Frame>, r: Result, fuel: nat)
    requires loop.typ.BlockLoop? && GoesOn(r.o, loop.name) && r.o.Continued?
    requires Gets(f, c, n, p, LoopCtx(ctx, loop, lexical), frames, r, fuel)
    ensures Ticks(f, c, n + 1) == C(loop.cont, frames, r.io)
  {
    hide Ticks, Tick, Handle;
    var d := Ticks(f, c, n);
    assert Catches(BlockLoop, loop.name, r.o.name, false);
    if lexical {
      assert SharedScope(ctx + [loop] + [IterScopeTarget], r.o.name, false);
    } else {
      assert LoopCtx(ctx, loop, lexical) == ctx + [loop];
      ExitHere(f, d.s.pc, ctx, loop, r.o.name, false);
    }
    assert Is(f, d.s.pc, Jump(loop.cont - d.s.pc));
    JumpRuns(f, d.s.pc, loop.cont, frames, r.io);
    Onward(f, c, n, C(loop.cont, frames, r.io));
  }

  /** What is copied when a round begins. */
  lemma CopyRuns(f: seq<Instr>, p: nat, needStash: bool, frames: seq<Frame>, io: Io)
    requires Is(f, p, Copy(needStash))
    ensures Tick(f, C(p, frames + [ScopeFrame], io)) == C(p + 1, frames + [ScopeFrame], io)
  {
    Silent(f, p, frames + [ScopeFrame], io, Copy(needStash));
  }

  /** A loop with its test at h. Its body ends at p, its update is at q, and the last of its code before e is the jump back. */
  datatype Rounds = Rounds(h: nat, p: nat, q: nat, e: nat, test: Option<nat>, update: Option<nat>, body: Stmt, lexical: bool, needStash: bool) {
    ghost predicate Laid(f: seq<Instr>, ctx: seq<Target>, loop: Target) {
      && loop.typ.BlockLoop? && LaidRound(f, h, p, q, e, test, update, body, LoopCtx(ctx, loop, lexical))
      && (if lexical then p + 1 == q && Is(f, p, Copy(needStash)) && Is(f, e, LeaveBlock) && e + 1 == loop.brk && (loop.cont == q || loop.cont == p)
          else p == q && e == loop.brk && (loop.cont == q || (loop.cont == h && update.None?)))
    }
  }

  /** From the end of the body, or from where a continue leads, the update and the jump back lead to the next test. */
  lemma RoundGoesBack(f: seq<Instr>, x: Rounds, ctx: seq<Target>, loop: Target, frames: seq<Frame>, at: nat, io: Io) returns (n: nat)
    requires x.Laid(f, ctx, loop) && (at == x.p || at == loop.cont)
    ensures var u, d := Evaluate(x.update, io), Ticks(f, C(at, LoopFrames(frames, x.lexical), io), n);
      if u.o.Normal? then d == C(x.h, LoopFrames(frames, x.lexical), u.io) && (n > 0 || (!x.lexical && at != x.q))
      else Halted(f, d, frames, u)
  {
    hide Layout, Handle, Ticks, Tick;
    var framesB := LoopFrames(frames, x.lexical);
    var c, u := C(at, framesB, io), Evaluate(x.update, io);
    if at == x.h && !x.lexical && at != x.q {
      n := 0;
      NoTicks(f, c);
    } else {
      n := 0;
      NoTicks(f, c);
      if at != x.q {
        CopyRuns(f, x.p, x.needStash, frames, io);
        Onward(f, c, 0, C(x.q, framesB, io));
        n := 1;
      }
      var k := EvaluateRuns(f, x.q, framesB, x.update, io);
      TicksAdd(f, c, n, k);
      n := n + k;
      if u.o.Normal? {
        JumpRuns(f, x.e - 1, x.h, framesB, u.io);
        Onward(f, c, n, C(x.h, framesB, u.io));
        n := n + 1;
      } else {
        LoopStops(f, Ticks(f, c, n), frames, x.lexical, u);
      }
    }
  }

  lemma {:induction false} RoundsRun(f: seq<Instr>, x: Rounds, ctx: seq<Target>, loop: Target, frames: seq<Frame>, io: Io, fuel: nat) returns (n: nat)
    requires x.Laid(f, ctx, loop)
    ensures Gets(f, C(x.h, LoopFrames(frames, x.lexical), io), n, loop.brk, ctx, frames,
                 ExecuteRounds(AsMachine, x.test, x.update, x.body, loop.name, io, fuel), fuel)
    decreases fuel, x.body, 10
  {
    hide Layout, Handle, Ticks, Tick, Execute;
    var framesB, ctxB := LoopFrames(frames, x.lexical), LoopCtx(ctx, loop, x.lexical);
    var c := C(x.h, framesB, io);
    var (t, yes) := Test(x.test, io);
    n := TestRuns(f, x.h, framesB, x.test, x.e, io);
    if !t.o.Normal? {
      LoopStops(f, Ticks(f, c, n), frames, x.lexical, t);
    } else if !yes {
      if x.lexical {
        assert framesB[..|frames|] == frames;
        Silent(f, x.e, framesB, t.io, LeaveBlock);
        Onward(f, c, n, C(x.e + 1, frames, t.io));
        n := n + 1;
      }
    } else {
      var r, at := Execute(AsMachine, x.body, t.io, fuel), x.h + TestSize(x.test);
      var k := StatementRuns(f, at, x.p, x.body, ctxB, framesB, t.io, fuel);
      After(f, c, n, C(at, framesB, t.io), k, x.p, ctxB, framesB, r, fuel);
      n := n + k;
      if !GoesOn(r.o, loop.name) {
        n := LoopLeaves(f, c, n, x.p, ctx, loop, x.lexical, frames, r, fuel);
      } else {
        n := NextRound(f, x, ctx, loop, frames, c, n, r, fuel);
      }
    }
  }

  /** After a round, the next. */
  lemma {:induction false} NextRound(f: seq<Instr>, x: Rounds, ctx: seq<Target>, loop: Target, frames: seq<Frame>, c: Config, m: nat, r: Result, fuel: nat)
    returns (n: nat)
    requires x.Laid(f, ctx, loop) && GoesOn(r.o, loop.name)
    requires Gets(f, c, m, x.p, LoopCtx(ctx, loop, x.lexical), LoopFrames(frames, x.lexical), r, fuel)
    ensures var u := Evaluate(x.update, r.io);
      Gets(f, c, n, loop.brk, ctx, frames,
           if !u.o.Normal? then u else if fuel == 0 then u.(o := TimedOut) else ExecuteRounds(AsMachine, x.test, x.update, x.body, loop.name, u.io, fuel - 1), fuel)
    decreases fuel, x.body, 6
  {
    hide Layout, Handle, Ticks, Tick, Execute, ExecuteRounds;
    var framesB, u := LoopFrames(frames, x.lexical), Evaluate(x.update, r.io);
    var at := x.p;
    n := m;
    if r.o.Continued? {
      LoopContinues(f, c, m, x.p, ctx, loop, x.lexical, framesB, r, fuel);
      n, at := m + 1, loop.cont;
    }
    var k := RoundGoesBack(f, x, ctx, loop, frames, at, r.io);
    TicksAdd(f, c, n, k);
    n := n + k;
    if u.o.Normal? && fuel > 0 {
      var l := RoundsRun(f, x, ctx, loop, frames, u.io, fuel - 1);
      assert n > 0;
      Weaker(f, C(x.h, framesB, u.io), l, loop.brk, ctx, frames, ExecuteRounds(AsMachine, x.test, x.update, x.body, loop.name, u.io, fuel - 1), fuel - 1,
        if fuel > n then fuel - n else 0);
      After(f, c, n, C(x.h, framesB, u.io), l, loop.brk, ctx, frames, ExecuteRounds(AsMachine, x.test, x.update, x.body, loop.name, u.io, fuel - 1), fuel);
      n := n + l;
    }
  }

  lemma Weaker(f: seq<Instr>, c: Config, n: nat, b: nat, ctx: seq<Target>, frames: seq<Frame>, r: Result, fuel: nat, less: nat)
    requires Gets(f, c, n, b, ctx, frames, r, fuel) && less <= fuel
    ensures Gets(f, c, n, b, ctx, frames, r, less)
  {
  }

  lemma {:induction false} LoopRuns(f: seq<Instr>, a: nat, b: nat, s: Stmt, name: Option<string>, ctx: seq<Target>, frames: seq<Frame>, io: Io, fuel: nat)
    returns (n: nat)
    requires Loop(s) && LaidLoop(f, a, b, s, name, ctx)
    ensures Gets(f, C(a, frames, io), n, b, ctx, frames, ExecuteLoop(AsMachine, s, name, io, fuel), fuel)
    decreases fuel, s, 5
  {
    hide Layout, LaidRound, LaidForInOf, Handle, Ticks, Tick, Right, Execute, ExecuteRounds, ExecuteUntil, ExecuteEach;
    match s
    case While(test, body) =>
      var x, loop := Rounds(a, b - 1, b - 1, b, test, None, body, false, false), Target(BlockLoop, name, b, a);
      assert LoopCtx(ctx, loop, false) == ctx + [loop];
      n := RoundsRun(f, x, ctx, loop, frames, io, fuel);
    case DoWhile(body, until) => n := UntilRuns(f, a, b, body, until, name, ctx, frames, io, fuel);
    case For(lexical, _, _, _, _, _) =>
      if lexical {
        n := ForLexicalRuns(f, a, b, s, name, ctx, frames, io, fuel);
      } else {
        n := ForRuns(f, a, b, s, name, ctx, frames, io, fuel);
      }
    case ForInOf(_, _, _, _, _) =>
      var e: nat, q: nat :| LaidForInOf(f, a, e, q, s, name, ctx) && q + 4 == b;
      n := ForInOfRuns(f, a, e, q, s, name, ctx, frames, io, fuel);
  }

  lemma {:induction false} ForRuns(f: seq<Instr>, a: nat, b: nat, s: Stmt, name: Option<string>, ctx: seq<Target>, frames: seq<Frame>, io: Io, fuel: nat)
    returns (n: nat)
    requires s.For? && !s.lexical && LaidFor(f, a, b, s, name, ctx)
    ensures Gets(f, C(a, frames, io), n, b, ctx, frames, ExecuteLoop(AsMachine, s, name, io, fuel), fuel)
    decreases fuel, s, 4
  {
    hide Layout, LaidRound, Handle, Ticks, Tick, Execute, ExecuteRounds;
    var c, t := C(a, frames, io), Evaluate(s.init, io);
    n := EvaluateRuns(f, a, frames, s.init, io);
    if t.o.Normal? {
      var h, q := a + OpSize(s.init), b - 1 - OpSize(s.update);
      var x, loop := Rounds(h, q, q, b, s.test, s.update, s.body, false, false), Target(BlockLoop, name, b, q);
      assert LoopCtx(ctx, loop, false) == ctx + [loop];
      var k := RoundsRun(f, x, ctx, loop, frames, t.io, fuel);
      After(f, c, n, C(h, frames, t.io), k, b, ctx, frames, ExecuteRounds(AsMachine, s.test, s.update, s.body, name, t.io, fuel), fuel);
      n := n + k;
    }
  }

  lemma {:induction false} ForLexicalRuns(f: seq<Instr>, a: nat, b: nat, s: Stmt, name: Option<string>, ctx: seq<Target>, frames: seq<Frame>, io: Io, fuel: nat)
    returns (n: nat)
    requires s.For? && s.lexical && LaidForLexical(f, a, b, s, name, ctx)
    ensures Gets(f, C(a, frames, io), n, b, ctx, frames, ExecuteLoop(AsMachine, s, name, io, fuel), fuel)
    decreases fuel, s, 4
  {
    hide Layout, LaidRound, Handle, Ticks, Tick, Execute, ExecuteRounds;
    var c, t, inside := C(a, frames, io), Evaluate(s.init, io), frames + [ScopeFrame];
    Silent(f, a, frames, io, EnterBlock);
    NoTicks(f, c);
    Onward(f, c, 0, C(a + 1, inside, io));
    var m := EvaluateRuns(f, a + 1, inside, s.init, io);
    TicksAdd(f, c, 1, m);
    n := 1 + m;
    if t.o.Normal? {
      var c0, q := a + 1 + OpSize(s.init), b - 2 - OpSize(s.update);
      CopyRuns(f, c0, s.needStash, frames, t.io);
      Onward(f, c, n, C(c0 + 1, inside, t.io));
      n := n + 1;
      var loop := Target(BlockLoop, name, b, if s.needStash then q - 1 else q);
      var x := Rounds(c0 + 1, q - 1, q, b - 1, s.test, s.update, s.body, true, s.needStash);
      assert LoopCtx(ctx, loop, true) == ctx + [loop, IterScopeTarget];
      var k := RoundsRun(f, x, ctx, loop, frames, t.io, fuel);
      After(f, c, n, C(c0 + 1, inside, t.io), k, b, ctx, frames, ExecuteRounds(AsMachine, s.test, s.update, s.body, name, t.io, fuel), fuel);
      n := n + k;
    } else {
      LoopStops(f, Ticks(f, c, n), frames, true, t);
    }
  }

  lemma {:induction false} UntilRuns(f: seq<Instr>, a: nat, b: nat, body: Stmt, until: nat, name: Option<string>, ctx: seq<Target>, frames: seq<Frame>, io: Io, fuel: nat)
    returns (n: nat)
    requires b >= 2 && Layout(f, a, b - 2, body, ctx + [Target(BlockLoop, name, b, b - 2)]) && Is(f, b - 2, Op(until)) && Is(f, b - 1, JumpIf(a - (b - 1)))
    ensures Gets(f, C(a, frames, io), n, b, ctx, frames, ExecuteUntil(AsMachine, body, until, name, io, fuel), fuel)
    decreases fuel, body, 10
  {
    hide Layout, Handle, Ticks, Tick, Execute;
    var c, loop, r := C(a, frames, io), Target(BlockLoop, name, b, b - 2), Execute(AsMachine, body, io, fuel);
    assert LoopCtx(ctx, loop, false) == ctx + [loop];
    n := StatementRuns(f, a, b - 2, body, ctx + [loop], frames, io, fuel);
    if !GoesOn(r.o, name) {
      n := LoopLeaves(f, c, n, b - 2, ctx, loop, false, frames, r, fuel);
    } else {
      if r.o.Continued? {
        LoopContinues(f, c, n, b - 2, ctx, loop, false, frames, r, fuel);
        n := n + 1;
      }
      n := UntilTested(f, a, b, body, until, name, ctx, frames, c, n, r.io, fuel);
    }
  }

  /** At the end of a round: the test, and maybe the next round. */
  lemma {:induction false} UntilTested(f: seq<Instr>, a: nat, b: nat, body: Stmt, until: nat, name: Option<string>, ctx: seq<Target>, frames: seq<Frame>,
                                       c: Config, m: nat, io: Io, fuel: nat) returns (n: nat)
    requires b >= 2 && Layout(f, a, b - 2, body, ctx + [Target(BlockLoop, name, b, b - 2)]) && Is(f, b - 2, Op(until)) && Is(f, b - 1, JumpIf(a - (b - 1)))
    requires Ticks(f, c, m) == C(b - 2, frames, io)
    ensures var (t, yes) := Test(Some(until), io);
      Gets(f, c, n, b, ctx, frames, if !t.o.Normal? || !yes then t else if fuel == 0 then t.(o := TimedOut) else ExecuteUntil(AsMachine, body, until, name, t.io, fuel - 1), fuel)
    decreases fuel, body, 6
  {
    hide Layout, Handle, Ticks, Tick, Execute, ExecuteUntil;
    var u := Evaluate(Some(until), io);
    var k := EvaluateRuns(f, b - 2, frames, Some(until), io);
    TicksAdd(f, c, m, k);
    n := m + k;
    if u.o.Normal? {
      Seen(f, b - 1, frames, u.io, JumpIf(a - (b - 1)), Tested);
      var (t, yes) := Do(Tested, u.io);
      Onward(f, c, n, Tick(f, C(b - 1, frames, u.io)));
      n := n + 1;
      if t.o.Normal? && yes && fuel > 0 {
        var r := ExecuteUntil(AsMachine, body, until, name, t.io, fuel - 1);
        var l := UntilRuns(f, a, b, body, until, name, ctx, frames, t.io, fuel - 1);
        Weaker(f, C(a, frames, t.io), l, b, ctx, frames, r, fuel - 1, if fuel > n then fuel - n else 0);
        After(f, c, n, C(a, frames, t.io), l, b, ctx, frames, r, fuel);
        n := n + l;
      }
    }
  }

  // ---------------------------------------------------------------- for-in and for-of

  lemma SourceRuns(f: seq<Instr>, a: nat, e: nat, s: Stmt, frames: seq<Frame>, io: Io) returns (n: nat)
    requires s.ForInOf? && LaidSource(f, a, e, s)
    ensures var r := Evaluate(Some(s.source), io); var d := Ticks(f, C(a, frames, io), n);
      if r.o.Normal? then d == C(e, frames, r.io) else Halted(f, d, frames, r)
  {
    hide Handle, Ticks, Tick;
    var c, r := C(a, frames, io), Evaluate(Some(s.source), io);
    if !s.declares {
      n := EvaluateRuns(f, a, frames, Some(s.source), io);
    } else {
      var inside := if s.headUsed then frames + [ScopeFrame] else frames;
      Silent(f, a, frames, io, if s.headUsed then EnterBlock else Jump(1));
      NoTicks(f, c);
      Onward(f, c, 0, C(a + 1, inside, io));
      var k := EvaluateRuns(f, a + 1, inside, Some(s.source), io);
      TicksAdd(f, c, 1, k);
      n := 1 + k;
      if s.headUsed {
        if r.o.Normal? {
          assert (frames + [ScopeFrame])[..|frames|] == frames;
          Silent(f, a + 2, inside, r.io, LeaveBlock);
          Onward(f, c, n, C(e, frames, r.io));
          n := n + 1;
        } else {
          HandlePushed(frames, ScopeFrame);
        }
      }
    }
  }

  lemma {:induction false} ForInOfRuns(f: seq<Instr>, a: nat, e: nat, q: nat, s: Stmt, name: Option<string>, ctx: seq<Target>, frames: seq<Frame>, io: Io, fuel: nat)
    returns (n: nat)
    requires s.ForInOf? && LaidForInOf(f, a, e, q, s, name, ctx)
    ensures Gets(f, C(a, frames, io), n, q + 4, ctx, frames, ExecuteLoop(AsMachine, s, name, io, fuel), fuel)
    decreases fuel, s, 4
  {
    hide Layout, Handle, Ticks, Tick, Execute, ExecuteEach;
    var c, t := C(a, frames, io), Evaluate(Some(s.source), io);
    n := SourceRuns(f, a, e, s, frames, io);
    if t.o.Normal? {
      Seen(f, e, frames, t.io, Iterate, Iterated);
      var u := Do(Iterated, t.io).0;
      Onward(f, c, n, Tick(f, C(e, frames, t.io)));
      n := n + 1;
      if u.o.Normal? {
        var k := EachRuns(f, a, e, q, s, name, ctx, frames, u.io, fuel);
        After(f, c, n, C(e + 1, frames + [IterFrame], u.io), k, q + 4, ctx, frames, ExecuteEach(AsMachine, s.into, s.body, name, u.io, fuel), fuel);
        n := n + k;
      }
    }
  }

  /** The end of an iteration. */
  lemma IterationEnds(f: seq<Instr>, q: nat, frames: seq<Frame>, io: Io)
    requires Is(f, q + 1, EnumPop) && Is(f, q + 2, Jump(2))
    ensures Ticks(f, C(q + 1, frames + [IterFrame], io), 2) == C(q + 4, frames, io)
  {
    var c := C(q + 1, frames + [IterFrame], io);
    assert (frames + [IterFrame])[..|frames|] == frames;
    hide Ticks, Tick;
    Silent(f, q + 1, frames + [IterFrame], io, EnumPop);
    NoTicks(f, c);
    Onward(f, c, 0, C(q + 2, frames, io));
    JumpRuns(f, q + 2, q + 4, frames, io);
    Onward(f, c, 1, C(q + 4, frames, io));
  }

  /** The iteration is closed at pc. */
  lemma CloseRuns(f: seq<Instr>, pc: nat, frames: seq<Frame>, io: Io)
    requires Is(f, pc, EnumPopClose)
    ensures var r := Do(Closed, io).0; var d := Tick(f, C(pc, frames + [IterFrame], io));
      if r.o.Normal? then d == C(pc + 1, frames, r.io) else Halted(f, d, frames, r)
  {
    Seen(f, pc, frames + [IterFrame], io, EnumPopClose, Closed);
    HandlePushed(frames, IterFrame);
    assert (frames + [IterFrame])[..|frames|] == frames;
  }

  lemma {:induction false} EachRuns(f: seq<Instr>, a: nat, e: nat, q: nat, s: Stmt, name: Option<string>, ctx: seq<Target>, frames: seq<Frame>, io: Io, fuel: nat)
    returns (n: nat)
    requires s.ForInOf? && LaidForInOf(f, a, e, q, s, name, ctx)
    ensures Gets(f, C(e + 1, frames + [IterFrame], io), n, q + 4, ctx, frames, ExecuteEach(AsMachine, s.into, s.body, name, io, fuel), fuel)
    decreases fuel, s, 3
  {
    hide Layout, Handle, Ticks, Tick, Execute;
    var inside := frames + [IterFrame];
    var c := C(e + 1, inside, io);
    var (t, over) := Do(Advanced, io);
    Seen(f, e + 1, inside, io, IterNext(q + 1 - (e + 1)), Advanced);
    NoTicks(f, c);
    Onward(f, c, 0, Tick(f, c));
    n := 1;
    if !t.o.Normal? {
      HandlePushed(frames, IterFrame);
    } else if over {
      IterationEnds(f, q, frames, t.io);
      TicksAdd(f, c, 1, 2);
      n := 3;
    } else {
      var k := ElementRuns(f, a, e, q, s, name, ctx, frames, t.io, fuel);
      var v := Evaluate(Some(s.into), t.io);
      TicksAdd(f, c, 1, k);
      n := 1 + k;
      if v.o.Normal? {
        n := ElementDone(f, a, e, q, s, name, ctx, frames, c, n, Execute(AsMachine, s.body, v.io, fuel), fuel);
      }
    }
  }

  /** Assigning an element, and the body. */
  lemma {:induction false} ElementRuns(f: seq<Instr>, a: nat, e: nat, q: nat, s: Stmt, name: Option<string>, ctx: seq<Target>, frames: seq<Frame>, io: Io, fuel: nat)
    returns (n: nat)
    requires s.ForInOf? && LaidForInOf(f, a, e, q, s, name, ctx)
    ensures var c, v := C(e + 2, frames + [IterFrame], io), Evaluate(Some(s.into), io);
      if v.o.Normal? then
        Gets(f, c, n, q, ctx + [Target(BlockLoopEnum, name, q + 3, e + 1)], frames + [IterFrame], Execute(AsMachine, s.body, v.io, fuel), fuel)
      else Halted(f, Ticks(f, c, n), frames, v)
    decreases fuel, s, 2
  {
    hide Layout, Handle, Ticks, Tick, Execute, ExitAt;
    var inside, inner := frames + [IterFrame], ctx + [Target(BlockLoopEnum, name, q + 3, e + 1)];
    var c, v := C(e + 2, inside, io), Evaluate(Some(s.into), io);
    HandlePushed(frames, IterFrame);
    if !s.declares {
      n := EvaluateRuns(f, e + 2, inside, Some(s.into), io);
      if v.o.Normal? {
        var k := StatementRuns(f, e + 3, q, s.body, inner, inside, v.io, fuel);
        After(f, c, n, C(e + 3, inside, v.io), k, q, inner, inside, Execute(AsMachine, s.body, v.io, fuel), fuel);
        n := n + k;
      }
    } else {
      n := ScopedElementRuns(f, e, q, s, inner, inside, io, fuel);
      if !v.o.Normal? {
        assert Halted(f, Ticks(f, c, n), inside, v);
      }
    }
  }

  lemma {:induction false} ScopedElementRuns(f: seq<Instr>, e: nat, q: nat, s: Stmt, inner: seq<Target>, inside: seq<Frame>, io: Io, fuel: nat) returns (n: nat)
    requires s.ForInOf? && q >= 1 && Is(f, e + 2, EnterBlock) && Is(f, e + 3, Op(s.into)) && Is(f, q - 1, LeaveBlock)
    requires Layout(f, e + 4, q - 1, s.body, inner + [IterScopeTarget]) && inner != [] && inner[|inner| - 1].typ.BlockLoopEnum?
    ensures var c, v := C(e + 2, inside, io), Evaluate(Some(s.into), io);
      if v.o.Normal? then Gets(f, c, n, q, inner, inside, Execute(AsMachine, s.body, v.io, fuel), fuel) else Halted(f, Ticks(f, c, n), inside, v)
    decreases fuel, s, 1
  {
    hide Layout, Handle, Ticks, Tick, Execute, ExitAt;
    var c, v, scoped := C(e + 2, inside, io), Evaluate(Some(s.into), io), inside + [ScopeFrame];
    Silent(f, e + 2, inside, io, EnterBlock);
    NoTicks(f, c);
    Onward(f, c, 0, C(e + 3, scoped, io));
    var m := EvaluateRuns(f, e + 3, scoped, Some(s.into), io);
    TicksAdd(f, c, 1, m);
    n := 1 + m;
    if v.o.Normal? {
      var r := Execute(AsMachine, s.body, v.io, fuel);
      var k := StatementRuns(f, e + 4, q - 1, s.body, inner + [IterScopeTarget], scoped, v.io, fuel);
      After(f, c, n, C(e + 4, scoped, v.io), k, q - 1, inner + [IterScopeTarget], scoped, r, fuel);
      n := Through(f, c, n + k, q - 1, inner, IterScopeTarget, LeaveBlock, inside, ScopeFrame, r, fuel);
    } else {
      HandlePushed(inside, ScopeFrame);
    }
  }

  /** After the body: the next element, or the way out, which closes the iteration. */
  lemma {:induction false} ElementDone(f: seq<Instr>, a: nat, e: nat, q: nat, s: Stmt, name: Option<string>, ctx: seq<Target>, frames: seq<Frame>,
                                       c: Config, m: nat, r: Result, fuel: nat) returns (n: nat)
    requires s.ForInOf? && LaidForInOf(f, a, e, q, s, name, ctx) && m > 0
    requires Gets(f, c, m, q, ctx + [Target(BlockLoopEnum, name, q + 3, e + 1)], frames + [IterFrame], r, fuel)
    ensures Gets(f, c, n, q + 4, ctx, frames,
      if Stops(r.o) then r
      else if GoesOn(r.o, name) then if fuel == 0 then r.(o := TimedOut) else ExecuteEach(AsMachine, s.into, s.body, name, r.io, fuel - 1)
      else var u := Do(Closed, r.io).0; if !u.o.Normal? then u else if Ends(r.o, name) then u else u.(o := r.o), fuel)
    decreases fuel, s, 0
  {
    hide Layout, LaidSource, Handle, Ticks, Tick, Execute, ExecuteEach, ExitAt, Do;
    var inside, t, d := frames + [IterFrame], Target(BlockLoopEnum, name, q + 3, e + 1), Ticks(f, c, m);
    n := m;
    if Stops(r.o) {
      HandlePushed(frames, IterFrame);
    } else if GoesOn(r.o, name) {
      if r.o.Continued? {
        ExitHere(f, d.s.pc, ctx, t, r.o.name, false);
      }
      JumpRuns(f, d.s.pc, e + 1, inside, r.io);
      Onward(f, c, n, C(e + 1, inside, r.io));
      n := n + 1;
      if fuel > 0 {
        var next := ExecuteEach(AsMachine, s.into, s.body, name, r.io, fuel - 1);
        var k := EachRuns(f, a, e, q, s, name, ctx, frames, r.io, fuel - 1);
        Weaker(f, C(e + 1, inside, r.io), k, q + 4, ctx, frames, next, fuel - 1, if fuel > n then fuel - n else 0);
        After(f, c, n, C(e + 1, inside, r.io), k, q + 4, ctx, frames, next, fuel);
        n := n + k;
      }
    } else if Catches(BlockLoopEnum, name, r.o.name, r.o.Broke?) {
      ExitHere(f, d.s.pc, ctx, t, r.o.name, r.o.Broke?);
      JumpRuns(f, d.s.pc, q + 3, inside, r.io);
      Onward(f, c, n, C(q + 3, inside, r.io));
      CloseRuns(f, q + 3, frames, r.io);
      Onward(f, c, n + 1, Tick(f, C(q + 3, inside, r.io)));
      n := n + 2;
    } else {
      ExitOut(f, d.s.pc, ctx, t, r.o.name, r.o.Broke?);
      CloseRuns(f, d.s.pc, frames, r.io);
      Onward(f, c, n, Tick(f, C(d.s.pc, inside, r.io)));
      n := n + 1;
    }
  }

  // ---------------------------------------------------------------- switch

  /** Past the tests: to the default, or to the end. */
  lemma NoMatchRuns(f: seq<Instr>, h: nat, marks: seq<nat>, s: Stmt, frames: seq<Frame>, io: Io) returns (n: nat)
    requires s.Switch? && |marks| == |s.cases| + 1 && -1 <= s.default_ < |s.cases| && LaidTests(f, h, marks, s)
    ensures Ticks(f, C(TestAt(h, s.lexical, s.default_, |s.cases|), frames, io), n)
         == C(marks[if s.default_ < 0 then |s.cases| else s.default_], frames, io)
  {
    hide Ticks, Tick, TestAt;
    var p := TestAt(h, s.lexical, s.default_, |s.cases|);
    var c, j := C(p, frames, io), if s.lexical then p else p + 1;
    NoTicks(f, c);
    n := 0;
    if !s.lexical {
      Silent(f, p, frames, io, Pop);
      Onward(f, c, 0, C(j, frames, io));
      n := 1;
    }
    if s.default_ != 0 {
      var to := marks[if s.default_ == -1 then |s.cases| else s.default_];
      JumpRuns(f, j, to, frames, io);
      Onward(f, c, n, C(to, frames, io));
      n := n + 1;
    }
  }

  lemma {:induction false} SelectRuns(f: seq<Instr>, h: nat, marks: seq<nat>, s: Stmt, i: nat, frames: seq<Frame>, io: Io) returns (n: nat)
    requires s.Switch? && |marks| == |s.cases| + 1 && -1 <= s.default_ < |s.cases| && LaidTests(f, h, marks, s) && i <= |s.cases|
    ensures var (r, k) := Select(s.cases, s.default_, i, io); var d := Ticks(f, C(TestAt(h, s.lexical, s.default_, i), frames, io), n);
      if r.o.Normal? then k <= |s.cases| && d == C(marks[k], frames, r.io) else Halted(f, d, frames, r)
    decreases |s.cases| - i
  {
    hide Ticks, Tick, Handle, Halted, LaidCaseTest, Test;
    var p := TestAt(h, s.lexical, s.default_, i);
    var c := C(p, frames, io);
    if i == |s.cases| {
      n := NoMatchRuns(f, h, marks, s, frames, io);
    } else if i == s.default_ {
      n := SelectRuns(f, h, marks, s, i + 1, frames, io);
    } else {
      assert LaidCaseTest(f, p, s.lexical, s.cases[i].test, marks[i]);
      var (t, yes) := Test(Some(s.cases[i].test), io);
      n := CaseTestRuns(f, p, s.lexical, s.cases[i].test, marks[i], frames, io);
      if t.o.Normal? && !yes {
        var k := SelectRuns(f, h, marks, s, i + 1, frames, t.io);
        TicksAdd(f, c, n, k);
        n := n + k;
      }
    }
  }

  lemma CaseTestRuns(f: seq<Instr>, p: nat, lexical: bool, test: nat, to: nat, frames: seq<Frame>, io: Io) returns (n: nat)
    requires LaidCaseTest(f, p, lexical, test, to)
    ensures var (r, yes) := Test(Some(test), io); var d := Ticks(f, C(p, frames, io), n);
      if r.o.Normal? then d == C(if yes then to else if lexical then p + 3 else p + 4, frames, r.io) else Halted(f, d, frames, r)
  {
    hide Ticks, Tick, Handle;
    var c, j := C(p, frames, io), if lexical then p + 2 else p + 3;
    var (t, yes) := Test(Some(test), io);
    n := TestRuns(f, p, frames, Some(test), j + 1, io);
    if t.o.Normal? && yes {
      if !lexical {
        Silent(f, p + 2, frames, t.io, Pop);
        Onward(f, c, n, C(j, frames, t.io));
        n := n + 1;
      }
      JumpRuns(f, j, to, frames, t.io);
      Onward(f, c, n, C(to, frames, t.io));
      n := n + 1;
    }
  }

  lemma {:induction false} CasesRun(f: seq<Instr>, marks: seq<nat>, s: Stmt, k: nat, inner: seq<Target>, frames: seq<Frame>, io: Io, fuel: nat) returns (n: nat)
    requires s.Switch? && |marks| == |s.cases| + 1 && k <= |s.cases|
    requires forall i :: 0 <= i < |s.cases| ==> LaidList(f, marks[i], marks[i + 1], s.cases[i].list, s, inner)
    ensures Gets(f, C(marks[k], frames, io), n, marks[|s.cases|], inner, frames, ExecuteCases(AsMachine, s, k, io, fuel), fuel)
    decreases fuel, s, 3, |s.cases| - k
  {
    hide Ticks, Tick, LaidList, Handle, ExecuteList;
    var c := C(marks[k], frames, io);
    if k == |s.cases| {
      n := 0;
      NoTicks(f, c);
    } else {
      n := LaidListRuns(f, marks[k], marks[k + 1], s.cases[k].list, s, inner, frames, io, fuel);
      var r := ExecuteList(AsMachine, s.cases[k].list, 0, s, io, fuel);
      if r.o.Normal? {
        var m := CasesRun(f, marks, s, k + 1, inner, frames, r.io, fuel);
        After(f, c, n, C(marks[k + 1], frames, r.io), m, marks[|s.cases|], inner, frames, ExecuteCases(AsMachine, s, k + 1, r.io, fuel), fuel);
        n := n + m;
      }
    }
  }

  /** What follows the discriminant, inside of the scope of the switch if it has one. */
  lemma {:induction false} SwitchedRuns(f: seq<Instr>, h: nat, marks: seq<nat>, s: Stmt, inner: seq<Target>, frames: seq<Frame>, io: Io, fuel: nat) returns (n: nat)
    requires s.Switch? && |marks| == |s.cases| + 1 && -1 <= s.default_ < |s.cases| && LaidTests(f, h, marks, s)
    requires forall i :: 0 <= i < |s.cases| ==> LaidList(f, marks[i], marks[i + 1], s.cases[i].list, s, inner)
    ensures var (u, k) := Select(s.cases, s.default_, 0, io);
      Gets(f, C(h, frames, io), n, marks[|s.cases|], inner, frames, if u.o.Normal? then ExecuteCases(AsMachine, s, k, u.io, fuel) else u, fuel)
    decreases fuel, s, 4
  {
    hide Ticks, Tick, LaidList, LaidTests, Handle, ExecuteCases;
    var (u, k) := Select(s.cases, s.default_, 0, io);
    assert TestAt(h, s.lexical, s.default_, 0) == h;
    n := SelectRuns(f, h, marks, s, 0, frames, io);
    if u.o.Normal? {
      var m := CasesRun(f, marks, s, k, inner, frames, u.io, fuel);
      After(f, C(h, frames, io), n, C(marks[k], frames, u.io), m, marks[|s.cases|], inner, frames, ExecuteCases(AsMachine, s, k, u.io, fuel), fuel);
      n := n + m;
    }
  }

  lemma {:induction false} SwitchRuns(f: seq<Instr>, a: nat, b: nat, marks: seq<nat>, s: Stmt, ctx: seq<Target>, frames: seq<Frame>, io: Io, fuel: nat)
    returns (n: nat)
    requires s.Switch? && LaidSwitch(f, a, b, marks, s, ctx)
    ensures Gets(f, C(a, frames, io), n, b, ctx, frames, Execute(AsMachine, s, io, fuel), fuel)
    decreases fuel, s, 5
  {
    hide Ticks, Tick, LaidList, LaidTests, Handle, ExecuteCases, Select, ExitAt;
    var c, t, loop := C(a, frames, io), Evaluate(Some(s.discriminant), io), Target(BlockSwitch, None, b, 0);
    var e := marks[|s.cases|];
    n := EvaluateRuns(f, a, frames, Some(s.discriminant), io);
    if t.o.Normal? {
      var (u, k) := Select(s.cases, s.default_, 0, t.io);
      var r := if u.o.Normal? then ExecuteCases(AsMachine, s, k, u.io, fuel) else u;
      if s.lexical {
        var inside := frames + [ScopeFrame];
        Silent(f, a + 1, frames, t.io, EnterBlock);
        Onward(f, c, n, C(a + 2, inside, t.io));
        var m := SwitchedRuns(f, a + 2, marks, s, ctx + [loop] + [ScopeTarget], inside, t.io, fuel);
        After(f, c, n + 1, C(a + 2, inside, t.io), m, e, ctx + [loop] + [ScopeTarget], inside, r, fuel);
        n := Through(f, c, n + 1 + m, e, ctx + [loop], ScopeTarget, LeaveBlock, frames, ScopeFrame, r, fuel);
      } else {
        assert ctx + [loop] + [] == ctx + [loop];
        var m := SwitchedRuns(f, a + 1, marks, s, ctx + [loop], frames, t.io, fuel);
        After(f, c, n, C(a + 1, frames, t.io), m, e, ctx + [loop], frames, r, fuel);
        n := n + m;
      }
      n := SwitchLeft(f, c, n, b, ctx, frames, r, fuel);
    }
  }

  /** A break leads to the end of a switch. */
  lemma SwitchLeft(f: seq<Instr>, c: Config, m: nat, b: nat, ctx: seq<Target>, frames: seq<Frame>, r: Result, fuel: nat) returns (n: nat)
    requires Gets(f, c, m, b, ctx + [Target(BlockSwitch, None, b, 0)], frames, r, fuel)
    ensures Gets(f, c, n, b, ctx, frames, if Ends(r.o, None) then r.(o := Normal) else r, fuel)
  {
    hide Ticks, Tick, Handle, ExitAt;
    var d, t := Ticks(f, c, m), Target(BlockSwitch, None, b, 0);
    n := m;
    if r.o.Broke? || r.o.Continued? {
      if Catches(BlockSwitch, None, r.o.name, r.o.Broke?) {
        ExitHere(f, d.s.pc, ctx, t, r.o.name, r.o.Broke?);
        JumpRuns(f, d.s.pc, b, frames, r.io);
        Onward(f, c, n, C(b, frames, r.io));
        n := n + 1;
      } else {
        ExitOut(f, d.s.pc, ctx, t, r.o.name, r.o.Broke?);
      }
    }
  }

  // ---------------------------------------------------------------- try

  /** The frame of a try statement whose catch clause and finally block have been taken, or there are none. */
  predicate Spent(x: Frame) { x.TryFrame? && x.catchPos == -1 && x.finallyPos == -1 }

  /** x remembers how the statement is to be left, at b unless a branch or an exception leaves it, when its finally block is done. */
  ghost predicate Remembers(f: seq<Instr>, x: Frame, ctx: seq<Target>, o: Outcome) {
    && Spent(x)
    && match o
       case Normal => x.finallyRet == -1 && !x.exception
       case Threw => x.exception
       case Broke(name) => !x.exception && x.finallyRet >= 0 && ExitAt(f, x.finallyRet, ctx, name, true)
       case Continued(name) => !x.exception && x.finallyRet >= 0 && ExitAt(f, x.finallyRet, ctx, name, false)
       case _ => false
  }

  lemma HandleSpent(frames: seq<Frame>, x: Frame)
    requires Spent(x)
    ensures Handle(frames + [x]) == Handle(frames)
  {
    assert (frames + [x])[..|frames|] == frames;
  }

  /** A way out of a try statement whose finally block is done with, or that has none, just drops the frame. */
  lemma SpentLeaves(f: seq<Instr>, c: Config, m: nat, p: nat, b: nat, brk: nat, ctx: seq<Target>, frames: seq<Frame>, x: Frame, r: Result, fuel: nat) returns (n: nat)
    requires x.TryFrame? && x.finallyPos == -1 && (r.o.Threw? ==> x.catchPos == -1) && !r.o.Normal?
    requires Gets(f, c, m, p, ctx + [Target(BlockTry, None, brk, 0)], frames + [x], r, fuel)
    ensures Gets(f, c, n, b, ctx, frames, r, fuel)
  {
    hide Ticks, Tick, Handle, ExitAt;
    var d := Ticks(f, c, m);
    n := m;
    if r.o.Threw? {
      HandleSpent(frames, x);
    }
    if r.o.Broke? || r.o.Continued? {
      ExitOut(f, d.s.pc, ctx, Target(BlockTry, None, brk, 0), r.o.name, r.o.Broke?);
      assert (frames + [x])[..|frames|] == frames;
      Silent(f, d.s.pc, frames + [x], r.io, LeaveTry);
      Onward(f, c, n, C(d.s.pc + 1, frames, r.io));
      n := n + 1;
    }
  }

  /** The finally block, after which the statement is left as its frame remembers. */
  lemma {:induction false} FinallyRuns(f: seq<Instr>, k: nat, b: nat, s: Stmt, ctx: seq<Target>, frames: seq<Frame>, x: Frame, r: Result, fuel: nat) returns (n: nat)
    requires s.TryStmt? && s.finally_.Some? && b > 0 && Is(f, b - 1, LeaveFinally) && Remembers(f, x, ctx, r.o)
    requires LaidBlock(f, k, b - 1, s.finally_.value.lexical, s.finally_.value.list, s, ctx + [Target(BlockTry, None, b, 0)])
    ensures Below(s.finally_.value.list, s)
    ensures var q := ExecuteList(AsMachine, s.finally_.value.list, 0, s, r.io, fuel);
      Gets(f, C(k, frames + [x], r.io), n, b, ctx, frames, if q.o.Normal? then r.(io := q.io) else q, fuel)
    decreases fuel, s, 5
  {
    hide Ticks, Tick, Handle, ExitAt, LaidBlock, ExecuteList;
    var c, inside := C(k, frames + [x], r.io), frames + [x];
    var inner := ctx + [Target(BlockTry, None, b, 0)];
    n := BlockRuns(f, k, b - 1, s.finally_.value.lexical, s.finally_.value.list, s, inner, inside, r.io, fuel);
    var q := ExecuteList(AsMachine, s.finally_.value.list, 0, s, r.io, fuel);
    if q.o.Normal? {
      assert inside[..|frames|] == frames;
      Silent(f, b - 1, inside, q.io, LeaveFinally);
      Onward(f, c, n, Config(Exec(LeaveFinally, b - 1, inside, false), q.io));
      n := n + 1;
    } else {
      n := SpentLeaves(f, c, n, b - 1, b, b, ctx, frames, x, q, fuel);
    }
  }

  lemma {:induction false} CatchRuns(f: seq<Instr>, a: nat, b: nat, s: Stmt, ctx: seq<Target>, frames: seq<Frame>, io: Io, fuel: nat) returns (n: nat)
    requires s.TryStmt? && s.catch_.Some? && LaidCatch(f, a, b, s.catch_.value, s, ctx)
    ensures Below(s.catch_.value.list, s)
    ensures Gets(f, C(a, frames, io), n, b, ctx, frames, ExecuteList(AsMachine, s.catch_.value.list, 0, s, io, fuel), fuel)
    decreases fuel, s, 5
  {
    hide Ticks, Tick, Handle, LaidBlock, LaidList, ExecuteList, Right;
    var c := s.catch_.value;
    if c.parameter {
      n := ScopedListRuns(f, a, b, c.list, s, ctx, frames, io, fuel);
    } else {
      Silent(f, a, frames, io, Pop);
      NoTicks(f, C(a, frames, io));
      Onward(f, C(a, frames, io), 0, C(a + 1, frames, io));
      var k := BlockRuns(f, a + 1, b, c.lexical, c.list, s, ctx, frames, io, fuel);
      After(f, C(a, frames, io), 1, C(a + 1, frames, io), k, b, ctx, frames, ExecuteList(AsMachine, c.list, 0, s, io, fuel), fuel);
      n := 1 + k;
    }
  }

  /** The end of a try statement that goes on at k with its finally block, or is left there. */
  ghost predicate LaidEnd(f: seq<Instr>, k: nat, b: nat, s: Stmt, ctx: seq<Target>)
    requires s.TryStmt?
  {
    && b > 0
    && if s.finally_.Some? then
         && Is(f, k, EnterFinally) && Is(f, b - 1, LeaveFinally)
         && LaidBlock(f, k + 1, b - 1, s.finally_.value.lexical, s.finally_.value.list, s, ctx + [Target(BlockTry, None, b, 0)])
       else Is(f, k, LeaveTry) && k + 1 == b
  }

  /** What is left of a result once the finally block was executed. */
  function Finished(s: Stmt, r: Result, fuel: nat): Result
    requires s.TryStmt?
  {
    if s.finally_.None? || r.o.Paused? || r.o.TimedOut? || r.o.Astray? then r
    else
      var q := ExecuteList(AsMachine, s.finally_.value.list, 0, s, r.io, fuel);
      if q.o.Normal? then r.(io := q.io) else q
  }

  /** After the try block, if it was not left by an exception or there is no catch clause, or after the catch clause. */
  lemma {:induction false} TryEnds(f: seq<Instr>, c: Config, m: nat, k: nat, b: nat, s: Stmt, ctx: seq<Target>, frames: seq<Frame>, x: Frame, r: Result, fuel: nat)
    returns (n: nat)
    requires s.TryStmt? && LaidEnd(f, k, b, s, ctx)
    requires Gets(f, c, m, k, ctx + [Target(BlockTry, None, b, 0)], frames + [x], r, fuel)
    requires x.TryFrame? && x.finallyPos == (if s.finally_.Some? then k + 1 else -1) && x.finallyRet == -1 && !x.exception
    requires r.o.Threw? || (r.o.Normal? && s.finally_.Some?) ==> x.catchPos == -1
    ensures Gets(f, c, n, b, ctx, frames, Finished(s, r, fuel), fuel)
    decreases fuel, s, 6
  {
    hide Ticks, Tick, Handle, LaidBlock, ExecuteList, ExitAt;
    var inside := frames + [x];
    assert inside[..|frames|] == frames;
    n := m;
    if r.o.Paused? || r.o.TimedOut? {
    } else if s.finally_.None? {
      if r.o.Normal? {
        Silent(f, k, inside, r.io, LeaveTry);
        Onward(f, c, n, C(b, frames, r.io));
        n := n + 1;
      } else {
        n := SpentLeaves(f, c, n, k, b, b, ctx, frames, x, r, fuel);
      }
    } else {
      var y;
      n, y := FinallyEntered(f, c, m, k, b, s, ctx, frames, x, r, fuel);
      var l := FinallyRuns(f, k + 1, b, s, ctx, frames, y, r, fuel);
      After(f, c, n, C(k + 1, frames + [y], r.io), l, b, ctx, frames, Finished(s, r, fuel), fuel);
      n := n + l;
    }
  }

  /** On every way to the finally block, its frame remembers the way. */
  lemma FinallyEntered(f: seq<Instr>, c: Config, m: nat, k: nat, b: nat, s: Stmt, ctx: seq<Target>, frames: seq<Frame>, x: Frame, r: Result, fuel: nat)
    returns (n: nat, y: Frame)
    requires s.TryStmt? && s.finally_.Some? && Is(f, k, EnterFinally) && !r.o.Paused? && !r.o.TimedOut?
    requires Gets(f, c, m, k, ctx + [Target(BlockTry, None, b, 0)], frames + [x], r, fuel)
    requires x.TryFrame? && x.finallyPos == k + 1 && x.finallyRet == -1 && !x.exception && (r.o.Threw? || r.o.Normal? ==> x.catchPos == -1)
    ensures Ticks(f, c, n) == C(k + 1, frames + [y], r.io) && Remembers(f, y, ctx, r.o)
  {
    hide Ticks, Tick, ExitAt;
    var inside, d := frames + [x], Ticks(f, c, m);
    assert inside[..|frames|] == frames;
    n := m;
    if r.o.Normal? {
      y := x.(finallyPos := -1);
      Silent(f, k, inside, r.io, EnterFinally);
      Onward(f, c, n, C(k + 1, frames + [y], r.io));
      n := n + 1;
    } else if r.o.Threw? {
      y := x.(finallyPos := -1, exception := true);
    } else {
      ExitOut(f, d.s.pc, ctx, Target(BlockTry, None, b, 0), r.o.name, r.o.Broke?);
      y := x.(catchPos := -1, finallyPos := -1, finallyRet := d.s.pc + 1);
      Silent(f, d.s.pc, inside, r.io, LeaveTry);
      Onward(f, c, n, C(k + 1, frames + [y], r.io));
      n := n + 1;
    }
  }

  /** The finally block after a try block that completed, while the catch clause is still in force. */
  lemma {:induction false} FinallyStillCaught(f: seq<Instr>, p: nat, k: nat, b: nat, s: Stmt, ctx: seq<Target>, frames: seq<Frame>, io: Io, fuel: nat) returns (n: nat)
    requires s.TryStmt? && s.catch_.Some? && s.finally_.Some? && LaidEnd(f, k, b, s, ctx)
    requires LaidCatch(f, p, k, s.catch_.value, s, ctx + [Target(BlockTry, None, b, 0)])
    ensures Below(s.catch_.value.list, s) && Below(s.finally_.value.list, s)
    ensures var q := ExecuteList(AsMachine, s.finally_.value.list, 0, s, io, fuel);
      Gets(f, C(k, frames + [TryFrame(p, k + 1, -1, false)], io), n, b, ctx, frames, if q.o.Threw? then CaughtAgain(s, q.io, fuel) else q, fuel)
    decreases fuel, s, 7
  {
    hide Ticks, Tick, LaidBlock, LaidCatch, ExecuteList, ExitAt;
    var x, y, z := TryFrame(p, k + 1, -1, false), TryFrame(p, -1, -1, false), TryFrame(-1, -1, -1, false);
    var c, inner := C(k, frames + [x], io), ctx + [Target(BlockTry, None, b, 0)];
    var body := s.finally_.value;
    assert (frames + [x])[..|frames|] == frames && (frames + [y])[..|frames|] == frames;
    Silent(f, k, frames + [x], io, EnterFinally);
    NoTicks(f, c);
    Onward(f, c, 0, C(k + 1, frames + [y], io));
    var l := BlockRuns(f, k + 1, b - 1, body.lexical, body.list, s, inner, frames + [y], io, fuel);
    var q := ExecuteList(AsMachine, body.list, 0, s, io, fuel);
    After(f, c, 1, C(k + 1, frames + [y], io), l, b - 1, inner, frames + [y], q, fuel);
    n := 1 + l;
    if q.o.Normal? {
      Silent(f, b - 1, frames + [y], q.io, LeaveFinally);
      Onward(f, c, n, C(b, frames, q.io));
      n := n + 1;
      var r := CatchRuns(f, p, k, s, inner, frames, io, fuel);
    } else if q.o.Threw? {
      assert Ticks(f, c, n) == C(p, frames + [z], q.io);
      var m := CaughtRuns(f, p, k, b, s, ctx, frames, q.io, fuel);
      After(f, c, n, C(p, frames + [z], q.io), m, b, ctx, frames, CaughtAgain(s, q.io, fuel), fuel);
      n := n + m;
    } else {
      var r := CatchRuns(f, p, k, s, inner, frames, io, fuel);
      n := SpentLeaves(f, c, n, b - 1, b, b, ctx, frames, y, q, fuel);
    }
  }

  lemma {:induction false} CaughtRuns(f: seq<Instr>, p: nat, k: nat, b: nat, s: Stmt, ctx: seq<Target>, frames: seq<Frame>, io: Io, fuel: nat) returns (n: nat)
    requires s.TryStmt? && s.catch_.Some? && s.finally_.Some? && LaidEnd(f, k, b, s, ctx)
    requires LaidCatch(f, p, k, s.catch_.value, s, ctx + [Target(BlockTry, None, b, 0)])
    ensures Below(s.catch_.value.list, s) && Below(s.finally_.value.list, s)
    ensures Gets(f, C(p, frames + [TryFrame(-1, -1, -1, false)], io), n, b, ctx, frames, CaughtAgain(s, io, fuel), fuel)
    decreases fuel, s, 6
  {
    hide Ticks, Tick, LaidBlock, LaidCatch, ExecuteList, ExitAt;
    var z := TryFrame(-1, -1, -1, false);
    var c, inside, inner := C(p, frames + [z], io), frames + [z], ctx + [Target(BlockTry, None, b, 0)];
    n := CatchRuns(f, p, k, s, inner, inside, io, fuel);
    var r := ExecuteList(AsMachine, s.catch_.value.list, 0, s, io, fuel);
    var end := s.finally_.value;
    if r.o.Normal? {
      assert inside[..|frames|] == frames;
      Silent(f, k, inside, r.io, EnterFinally);
      Onward(f, c, n, C(k + 1, inside, r.io));
      var l := FinallyRuns(f, k + 1, b, s, ctx, frames, z, r, fuel);
      After(f, c, n + 1, C(k + 1, inside, r.io), l, b, ctx, frames, ExecuteList(AsMachine, end.list, 0, s, r.io, fuel), fuel);
      n := n + 1 + l;
    } else {
      n := SpentLeaves(f, c, n, k, b, b, ctx, frames, z, r, fuel);
      var l := FinallyRuns(f, k + 1, b, s, ctx, frames, z, Result(Normal, io), fuel);
    }
  }

  lemma {:induction false} TryRuns(f: seq<Instr>, a: nat, m: nat, k: nat, b: nat, s: Stmt, ctx: seq<Target>, frames: seq<Frame>, io: Io, fuel: nat)
    returns (n: nat)
    requires s.TryStmt? && LaidTry(f, a, m, k, b, s, ctx)
    ensures Gets(f, C(a, frames, io), n, b, ctx, frames, Execute(AsMachine, s, io, fuel), fuel)
    decreases fuel, s, 8
  {
    hide Ticks, Tick, Layout, LaidBlock, LaidCatch, ExecuteList, ExitAt;
    var inner := ctx + [Target(BlockTry, None, b, 0)];
    var x := TryFrame(if s.catch_.Some? then m + 1 else -1, if s.finally_.Some? then k + 1 else -1, -1, false);
    var c, inside := C(a, frames, io), frames + [x];
    assert inside[..|frames|] == frames;
    Silent(f, a, frames, io, Try(if s.catch_.Some? then m + 1 - a else 0, if s.finally_.Some? then k + 1 - a else 0));
    NoTicks(f, c);
    Onward(f, c, 0, C(a + 1, inside, io));
    var r := Execute(AsMachine, s.block, io, fuel);
    var l := StatementRuns(f, a + 1, m, s.block, inner, inside, io, fuel);
    After(f, c, 1, C(a + 1, inside, io), l, m, inner, inside, r, fuel);
    n := 1 + l;
    if s.catch_.Some? && r.o.Threw? {
      n := ThrewRuns(f, c, n, m, k, b, s, ctx, frames, r, fuel);
    } else {
      if s.catch_.Some? && r.o.Normal? {
        JumpRuns(f, m, k, inside, r.io);
        Onward(f, c, n, C(k, inside, r.io));
        n := n + 1;
      }
      if s.catch_.Some? && s.finally_.Some? && r.o.Normal? {
        var j := FinallyStillCaught(f, m + 1, k, b, s, ctx, frames, r.io, fuel);
        var q := ExecuteList(AsMachine, s.finally_.value.list, 0, s, r.io, fuel);
        var last := if q.o.Threw? then CaughtAgain(s, q.io, fuel) else q;
        assert ExecuteTry(AsMachine, s, io, fuel) == last;
        After(f, c, n, C(k, inside, r.io), j, b, ctx, frames, last, fuel);
        n := n + j;
      } else {
        n := TryEnds(f, c, n, k, b, s, ctx, frames, x, r, fuel);
      }
    }
  }

  /** The try block threw, and there is a catch clause. */
  lemma {:induction false} ThrewRuns(f: seq<Instr>, c: Config, n0: nat, m: nat, k: nat, b: nat, s: Stmt, ctx: seq<Target>, frames: seq<Frame>, r: Result, fuel: nat)
    returns (n: nat)
    requires s.TryStmt? && s.catch_.Some? && LaidEnd(f, k, b, s, ctx) && r.o.Threw?
    requires LaidCatch(f, m + 1, k, s.catch_.value, s, ctx + [Target(BlockTry, None, b, 0)])
    requires Gets(f, c, n0, m, ctx + [Target(BlockTry, None, b, 0)],
                  frames + [TryFrame(m + 1, if s.finally_.Some? then k + 1 else -1, -1, false)], r, fuel)
    ensures Below(s.catch_.value.list, s)
    ensures Gets(f, c, n, b, ctx, frames, Finished(s, ExecuteList(AsMachine, s.catch_.value.list, 0, s, r.io, fuel), fuel), fuel)
    decreases fuel, s, 7
  {
    hide Ticks, Tick, Layout, LaidBlock, LaidCatch, ExecuteList, ExitAt;
    var x := TryFrame(m + 1, if s.finally_.Some? then k + 1 else -1, -1, false);
    var y := x.(catchPos := -1);
    assert (frames + [x])[..|frames|] == frames;
    assert Ticks(f, c, n0) == C(m + 1, frames + [y], r.io);
    var inner := ctx + [Target(BlockTry, None, b, 0)];
    var q := ExecuteList(AsMachine, s.catch_.value.list, 0, s, r.io, fuel);
    var l := CatchRuns(f, m + 1, k, s, inner, frames + [y], r.io, fuel);
    After(f, c, n0, C(m + 1, frames + [y], r.io), l, k, inner, frames + [y], q, fuel);
    n := TryEnds(f, c, n0 + l, k, b, s, ctx, frames, y, q, fuel);
  }

  // ---------------------------------------------------------------- whole programs

  /** Where the machine ends up with the code of a program. */
  ghost predicate Finishes(f: seq<Instr>, d: Config, r: Result) {
    && d.io == r.io
    && match r.o
       case Normal => d.s == Running(|f|, [])
       case Threw => d.s == Thrown
       case Paused => d.s.Running? && d.io.cs == [] && d.s.pc < |f| && ActOf(f[d.s.pc]).Some?
       case _ => false
  }

  lemma ProgramRuns(f: seq<Instr>, s: Stmt, io: Io, fuel: nat) returns (n: nat)
    requires Layout(f, 0, |f|, s, [])
    ensures var r := Execute(AsMachine, s, io, fuel); var d := Ticks(f, C(0, [], io), n);
      if r.o.TimedOut? then n >= fuel && d.io == r.io else Finishes(f, d, r)
  {
    hide Ticks, Layout, Execute;
    n := StatementRuns(f, 0, |f|, s, [], [], io, fuel);
  }

  lemma {:induction false} Stays(f: seq<Instr>, d: Config, n: nat)
    requires Tick(f, d) == d
    ensures Ticks(f, d, n) == d
    decreases n
  {
    if n > 0 {
      Stays(f, d, n - 1);
    }
  }

  lemma {:induction false} OutGrows(f: seq<Instr>, c: Config, n: nat)
    ensures c.io.out <= Ticks(f, c, n).io.out
    decreases n
  {
    if n > 0 {
      OutGrows(f, Tick(f, c), n - 1);
    }
  }

  ghost predicate FinishesAfter(f: seq<Instr>, c: Config, m: nat, r: Result) {
    forall k :: k >= m ==> Finishes(f, Ticks(f, c, k), r)
  }

  /** Whatever is chosen, the code of a program passes through what the program passes through: what was seen of n steps of the
      machine is a beginning of what direct execution shows. If direct execution, given n rounds of each loop, comes to an
      end, so does the machine, having shown the same, at the end of the code or with the exception that nothing caught. */
  lemma CodeFollowsProgram(f: seq<Instr>, s: Stmt, cs: seq<Choice>, n: nat)
    requires Layout(f, 0, |f|, s, [])
    ensures var r := Execute(AsMachine, s, Io(cs, []), n);
      && Ticks(f, C(0, [], Io(cs, [])), n).io.out <= r.io.out
      && (!r.o.TimedOut? ==> exists m :: FinishesAfter(f, C(0, [], Io(cs, [])), m, r))
  {
    hide Ticks, Layout, Execute, Tick;
    var c, r := C(0, [], Io(cs, [])), Execute(AsMachine, s, Io(cs, []), n);
    var m := ProgramRuns(f, s, Io(cs, []), n);
    var d := Ticks(f, c, m);
    if !r.o.TimedOut? {
      Ended(f, d, r);
      forall k | k >= m ensures Finishes(f, Ticks(f, c, k), r) {
        TicksAdd(f, c, m, k - m);
        Stays(f, d, k - m);
      }
      assert FinishesAfter(f, c, m, r);
    }
    if n <= m {
      TicksAdd(f, c, n, m - n);
      OutGrows(f, Ticks(f, c, n), m - n);
    } else {
      assert Finishes(f, Ticks(f, c, n), r);
    }
  }

  lemma Ended(f: seq<Instr>, d: Config, r: Result)
    requires Finishes(f, d, r)
    ensures Tick(f, d) == d
  {
  }

  /** These steps of the machine are a run in which the other instructions do not throw. */
  lemma {:induction false} TicksAreARun(f: seq<Instr>, c: Config, n: nat) returns (ds: seq<Choice>)
    ensures Ticks(f, c, n).s == BranchSpec.Run(f, c.s, ds)
    decreases n
  {
    ds := [];
    if n > 0 {
      var more := TicksAreARun(f, Tick(f, c), n - 1);
      if Tick(f, c).s == c.s {
        ds := more;
      } else {
        var x := if ActOf(f[c.s.pc]).Some? then c.io.cs[0] else Go(false);
        ds := [x] + more;
        assert ds[0] == x && ds[1..] == more;
      }
    }
  }

  // ---------------------------------------------------------------- where the machine does not follow the standard

  /** As long as no finally block throws after its try block has completed, with a catch clause in between, the machine does what
      the standard says. */
  lemma {:induction false} AgreeUnlessAstray(mode: Mode, s: Stmt, io: Io, fuel: nat)
    requires Execute(UntilAstray, s, io, fuel).o != Astray
    ensures Execute(mode, s, io, fuel) == Execute(UntilAstray, s, io, fuel)
    decreases fuel, s, 6
  {
    match s
    case Expression(_) =>
    case Sequence(_, list) => AgreeList(mode, list, 0, s, io, fuel);
    case If(condition, x, y) =>
      var (t, yes) := Test(Some(condition), io);
      if t.o.Normal? {
        if yes {
          AgreeUnlessAstray(mode, x, t.io, fuel);
        } else if y.Some? {
          AgreeUnlessAstray(mode, y.value, t.io, fuel);
        }
      }
    case With(subject, body) =>
      var t := Evaluate(Some(subject), io);
      if t.o.Normal? && Do(EnteredWith, t.io).0.o.Normal? {
        AgreeUnlessAstray(mode, body, Do(EnteredWith, t.io).0.io, fuel);
      }
    case TryStmt(_, _, _) => AgreeTry(mode, s, io, fuel);
    case Switch(_, discriminant, cases, default) =>
      var t := Evaluate(Some(discriminant), io);
      var (u, k) := Select(cases, default, 0, t.io);
      if t.o.Normal? && u.o.Normal? {
        AgreeCases(mode, s, k, u.io, fuel);
      }
    case Labelled(name, t) =>
      if Loop(t) {
        AgreeLoop(mode, t, Some(name), io, fuel);
      } else {
        AgreeUnlessAstray(mode, t, io, fuel);
      }
    case Branch(_, _) =>
    case _ => AgreeLoop(mode, s, None, io, fuel);
  }

  lemma {:induction false} AgreeList(mode: Mode, list: seq<Stmt>, i: nat, parent: Stmt, io: Io, fuel: nat)
    requires Below(list, parent) && ExecuteList(UntilAstray, list, i, parent, io, fuel).o != Astray
    ensures ExecuteList(mode, list, i, parent, io, fuel) == ExecuteList(UntilAstray, list, i, parent, io, fuel)
    decreases fuel, parent, 1, |list| - i
  {
    if i < |list| {
      AgreeUnlessAstray(mode, list[i], io, fuel);
      var r := Execute(UntilAstray, list[i], io, fuel);
      if r.o.Normal? {
        AgreeList(mode, list, i + 1, parent, r.io, fuel);
      }
    }
  }

  lemma {:induction false} AgreeCases(mode: Mode, s: Stmt, k: nat, io: Io, fuel: nat)
    requires s.Switch? && ExecuteCases(UntilAstray, s, k, io, fuel).o != Astray
    ensures ExecuteCases(mode, s, k, io, fuel) == ExecuteCases(UntilAstray, s, k, io, fuel)
    decreases fuel, s, 2, |s.cases| - k
  {
    hide ExecuteList;
    if k < |s.cases| {
      AgreeList(mode, s.cases[k].list, 0, s, io, fuel);
      var r := ExecuteList(UntilAstray, s.cases[k].list, 0, s, io, fuel);
      if r.o.Normal? {
        AgreeCases(mode, s, k + 1, r.io, fuel);
      }
    }
  }

  lemma {:induction false} AgreeLoop(mode: Mode, s: Stmt, name: Option<string>, io: Io, fuel: nat)
    requires Loop(s) && ExecuteLoop(UntilAstray, s, name, io, fuel).o != Astray
    ensures ExecuteLoop(mode, s, name, io, fuel) == ExecuteLoop(UntilAstray, s, name, io, fuel)
    decreases fuel, s, 5
  {
    match s
    case While(test, body) => AgreeRounds(mode, test, None, body, name, io, fuel);
    case DoWhile(body, until) => AgreeUntil(mode, body, until, name, io, fuel);
    case For(_, _, init, test, update, body) =>
      if Evaluate(init, io).o.Normal? {
        AgreeRounds(mode, test, update, body, name, Evaluate(init, io).io, fuel);
      }
    case ForInOf(_, _, source, into, body) =>
      var t := Evaluate(Some(source), io);
      if t.o.Normal? && Do(Iterated, t.io).0.o.Normal? {
        AgreeEach(mode, into, body, name, Do(Iterated, t.io).0.io, fuel);
      }
  }

  lemma {:induction false} AgreeRounds(mode: Mode, test: Option<nat>, update: Option<nat>, body: Stmt, name: Option<string>, io: Io, fuel: nat)
    requires ExecuteRounds(UntilAstray, test, update, body, name, io, fuel).o != Astray
    ensures ExecuteRounds(mode, test, update, body, name, io, fuel) == ExecuteRounds(UntilAstray, test, update, body, name, io, fuel)
    decreases fuel, body, 7
  {
    hide Execute, ExecuteRounds;
    var (t, yes) := Test(test, io);
    RoundIs(UntilAstray, test, update, body, name, io, fuel);
    RoundIs(mode, test, update, body, name, io, fuel);
    if t.o.Normal? && yes {
      AgreeUnlessAstray(mode, body, t.io, fuel);
      var r := Execute(UntilAstray, body, t.io, fuel);
      var u := Evaluate(update, r.io);
      if GoesOn(r.o, name) && u.o.Normal? && fuel > 0 {
        AgreeRounds(mode, test, update, body, name, u.io, fuel - 1);
      }
    }
  }

  lemma RoundIs(mode: Mode, test: Option<nat>, update: Option<nat>, body: Stmt, name: Option<string>, io: Io, fuel: nat)
    ensures var (t, yes) := Test(test, io); var r := Execute(mode, body, t.io, fuel); var u := Evaluate(update, r.io);
      ExecuteRounds(mode, test, update, body, name, io, fuel) ==
        if !t.o.Normal? || !yes then t else if Ends(r.o, name) then r.(o := Normal) else if !GoesOn(r.o, name) then r
        else if !u.o.Normal? then u else if fuel == 0 then u.(o := TimedOut) else ExecuteRounds(mode, test, update, body, name, u.io, fuel - 1)
  {
  }

  lemma {:induction false} AgreeUntil(mode: Mode, body: Stmt, until: nat, name: Option<string>, io: Io, fuel: nat)
    requires ExecuteUntil(UntilAstray, body, until, name, io, fuel).o != Astray
    ensures ExecuteUntil(mode, body, until, name, io, fuel) == ExecuteUntil(UntilAstray, body, until, name, io, fuel)
    decreases fuel, body, 7
  {
    hide Execute, ExecuteUntil, Test;
    UntilIs(UntilAstray, body, until, name, io, fuel);
    UntilIs(mode, body, until, name, io, fuel);
    var r := Execute(UntilAstray, body, io, fuel);
    var (t, yes) := Test(Some(until), r.io);
    AgreeUnlessAstray(mode, body, io, fuel);
    if GoesOn(r.o, name) && t.o.Normal? && yes && fuel > 0 {
      AgreeUntil(mode, body, until, name, t.io, fuel - 1);
    }
  }

  lemma UntilIs(mode: Mode, body: Stmt, until: nat, name: Option<string>, io: Io, fuel: nat)
    ensures var r := Execute(mode, body, io, fuel); var (t, yes) := Test(Some(until), r.io);
      ExecuteUntil(mode, body, until, name, io, fuel) ==
        if Ends(r.o, name) then r.(o := Normal) else if !GoesOn(r.o, name) then r
        else if !t.o.Normal? || !yes then t else if fuel == 0 then t.(o := TimedOut) else ExecuteUntil(mode, body, until, name, t.io, fuel - 1)
  {
  }

  lemma {:induction false} AgreeEach(mode: Mode, into: nat, body: Stmt, name: Option<string>, io: Io, fuel: nat)
    requires ExecuteEach(UntilAstray, into, body, name, io, fuel).o != Astray
    ensures ExecuteEach(mode, into, body, name, io, fuel) == ExecuteEach(UntilAstray, into, body, name, io, fuel)
    decreases fuel, body, 7
  {
    hide Execute, ExecuteEach, Do, Evaluate;
    EachIs(UntilAstray, into, body, name, io, fuel);
    EachIs(mode, into, body, name, io, fuel);
    var (t, over) := Do(Advanced, io);
    var v := Evaluate(Some(into), t.io);
    if t.o.Normal? && !over && v.o.Normal? {
      AgreeUnlessAstray(mode, body, v.io, fuel);
      var r := Execute(UntilAstray, body, v.io, fuel);
      if GoesOn(r.o, name) && fuel > 0 {
        AgreeEach(mode, into, body, name, r.io, fuel - 1);
      }
    }
  }

  lemma EachIs(mode: Mode, into: nat, body: Stmt, name: Option<string>, io: Io, fuel: nat)
    ensures var (t, over) := Do(Advanced, io); var v := Evaluate(Some(into), t.io);
      var r := Execute(mode, body, v.io, fuel); var u := Do(Closed, r.io).0;
      ExecuteEach(mode, into, body, name, io, fuel) ==
        if !t.o.Normal? || over then t else if !v.o.Normal? then v else if Stops(r.o) then r
        else if GoesOn(r.o, name) then (if fuel == 0 then r.(o := TimedOut) else ExecuteEach(mode, into, body, name, r.io, fuel - 1))
        else if !u.o.Normal? || Ends(r.o, name) then u else u.(o := r.o)
  {
  }

  lemma {:induction false} AgreeTry(mode: Mode, s: Stmt, io: Io, fuel: nat)
    requires s.TryStmt? && ExecuteTry(UntilAstray, s, io, fuel).o != Astray
    ensures ExecuteTry(mode, s, io, fuel) == ExecuteTry(UntilAstray, s, io, fuel)
    decreases fuel, s, 3
  {
    AgreeUnlessAstray(mode, s.block, io, fuel);
    var b := Execute(UntilAstray, s.block, io, fuel);
    if b.o.Threw? && s.catch_.Some? {
      AgreeList(mode, s.catch_.value.list, 0, s, b.io, fuel);
    }
    var r := if b.o.Threw? && s.catch_.Some? then ExecuteList(UntilAstray, s.catch_.value.list, 0, s, b.io, fuel) else b;
    if s.finally_.Some? && !r.o.Paused? && !r.o.TimedOut? {
      AgreeList(mode, s.finally_.value.list, 0, s, r.io, fuel);
    }
  }

  /** A try statement in whose parts nothing goes astray is executed as the standard says exactly if its finally block does not
      throw after its try block completed, or it has no catch clause. */
  lemma TryDiffersIff(s: Stmt, io: Io, fuel: nat)
    requires s.TryStmt?
    requires Execute(UntilAstray, s.block, io, fuel).o != Astray
    requires var b := Execute(UntilAstray, s.block, io, fuel);
      && (s.catch_.Some? ==> ExecuteList(UntilAstray, s.catch_.value.list, 0, s, b.io, fuel).o != Astray)
      && (s.finally_.Some? ==>
            var r := if b.o.Threw? && s.catch_.Some? then ExecuteList(UntilAstray, s.catch_.value.list, 0, s, b.io, fuel) else b;
            ExecuteList(UntilAstray, s.finally_.value.list, 0, s, r.io, fuel).o != Astray)
    ensures Execute(AsMachine, s, io, fuel) == Execute(AsStandard, s, io, fuel) <==>
      !(s.catch_.Some? && s.finally_.Some? && Execute(AsStandard, s.block, io, fuel).o.Normal?
        && ExecuteList(AsStandard, s.finally_.value.list, 0, s, Execute(AsStandard, s.block, io, fuel).io, fuel).o.Threw?)
  {
    hide Execute, ExecuteList;
    AgreeParts(AsStandard, s, io, fuel);
    AgreeParts(AsMachine, s, io, fuel);
    TryIs(AsMachine, s, io, fuel);
    TryIs(AsStandard, s, io, fuel);
  }

  lemma TryIs(mode: Mode, s: Stmt, io: Io, fuel: nat)
    requires s.TryStmt?
    ensures Execute(mode, s, io, fuel) == ExecuteTry(mode, s, io, fuel)
  {
  }

  lemma AgreeParts(mode: Mode, s: Stmt, io: Io, fuel: nat)
    requires s.TryStmt?
    requires Execute(UntilAstray, s.block, io, fuel).o != Astray
    requires var b := Execute(UntilAstray, s.block, io, fuel);
      && (s.catch_.Some? ==> ExecuteList(UntilAstray, s.catch_.value.list, 0, s, b.io, fuel).o != Astray)
      && (s.finally_.Some? ==>
            var r := if b.o.Threw? && s.catch_.Some? then ExecuteList(UntilAstray, s.catch_.value.list, 0, s, b.io, fuel) else b;
            ExecuteList(UntilAstray, s.finally_.value.list, 0, s, r.io, fuel).o != Astray)
    ensures var b := Execute(UntilAstray, s.block, io, fuel);
      && Execute(mode, s.block, io, fuel) == b
      && (s.catch_.Some? ==> ExecuteList(mode, s.catch_.value.list, 0, s, b.io, fuel) == ExecuteList(UntilAstray, s.catch_.value.list, 0, s, b.io, fuel))
      && (s.finally_.Some? ==>
            var r := if b.o.Threw? && s.catch_.Some? then ExecuteList(UntilAstray, s.catch_.value.list, 0, s, b.io, fuel) else b;
            ExecuteList(mode, s.finally_.value.list, 0, s, r.io, fuel) == ExecuteList(UntilAstray, s.finally_.value.list, 0, s, r.io, fuel))
  {
    var b := Execute(UntilAstray, s.block, io, fuel);
    AgreeUnlessAstray(mode, s.block, io, fuel);
    if s.catch_.Some? {
      AgreeList(mode, s.catch_.value.list, 0, s, b.io, fuel);
    }
    if s.finally_.Some? {
      var r := if b.o.Threw? && s.catch_.Some? then ExecuteList(UntilAstray, s.catch_.value.list, 0, s, b.io, fuel) else b;
      AgreeList(mode, s.finally_.value.list, 0, s, r.io, fuel);
    }
  }

  /** try { 1 } catch (e) { 2 } finally { 3 }, where 3 throws the first time: the machine executes 2, and 3 again. */
  lemma OwnCatchExample()
    ensures var s := TryStmt(Expression(1), Some(Catch(true, false, [Expression(2)])), Some(Body(false, [Expression(3)])));
      var io := Io([Go(false), Throw, Go(false), Go(false)], []);
      var seen := [Event(Evaluated(1), Go(false)), Event(Evaluated(3), Throw)];
      && Execute(AsStandard, s, io, 0) == Result(Threw, Io([Go(false), Go(false)], seen))
      && Execute(AsMachine, s, io, 0) == Result(Normal, Io([], seen + [Event(Evaluated(2), Go(false)), Event(Evaluated(3), Go(false))]))
  {
  }
}
