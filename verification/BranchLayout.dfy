/** Statements, and what the code of each looks like once all placeholders are filled. */
module BranchLayout {
  import opened Options
  import opened BranchSpec
  import opened BranchBlocks

  /** Expressions go by their ids. A test that is None is constantly true. */
  datatype Stmt =
    | Expression(id: nat)
    | Sequence(lexical: bool, list: seq<Stmt>)
    | If(condition: nat, consequent: Stmt, alternate: Option<Stmt>)
    | While(test: Option<nat>, body: Stmt)
    | DoWhile(body: Stmt, until: nat)
    | For(lexical: bool, needStash: bool, init: Option<nat>, test: Option<nat>, update: Option<nat>, body: Stmt)
    | ForInOf(declares: bool, headUsed: bool, source: nat, into: nat, body: Stmt)
    | With(subject: nat, body: Stmt)
    | TryStmt(block: Stmt, catch_: Option<Catch>, finally_: Option<Body>)
    | Switch(lexical: bool, discriminant: nat, cases: seq<Case>, default_: int)
    | Labelled(name: string, stmt: Stmt)
    | Branch(isBreak: bool, name_: Option<string>)

  datatype Catch = Catch(parameter: bool, lexical: bool, list: seq<Stmt>)

  datatype Body = Body(lexical: bool, list: seq<Stmt>)

  /** The test of the default is not used. */
  datatype Case = Case(test: nat, list: seq<Stmt>)

  /** No statement of a finally block is itself a branch, and the default of a switch is -1 or one of its cases. */
  ghost predicate Plain(s: Stmt) {
    match s
    case Expression(_) => true
    case Sequence(_, list) => forall i :: 0 <= i < |list| ==> Plain(list[i])
    case If(_, c, a) => Plain(c) && (a.Some? ==> Plain(a.value))
    case While(_, b) => Plain(b)
    case DoWhile(b, _) => Plain(b)
    case For(_, _, _, _, _, b) => Plain(b)
    case ForInOf(_, _, _, _, b) => Plain(b)
    case With(_, b) => Plain(b)
    case TryStmt(b, c, f) =>
      && Plain(b)
      && (c.Some? ==> forall i :: 0 <= i < |c.value.list| ==> Plain(c.value.list[i]))
      && (f.Some? ==> forall i :: 0 <= i < |f.value.list| ==> Plain(f.value.list[i]) && !f.value.list[i].Branch?)
    case Switch(_, _, cases, d) =>
      -1 <= d < |cases| && forall i, j :: 0 <= i < |cases| && 0 <= j < |cases[i].list| ==> Plain(cases[i].list[j])
    case Labelled(_, t) => Plain(t)
    case Branch(_, _) => true
  }

  ghost predicate AllPlain(list: seq<Stmt>, parent: Stmt) {
    forall i :: 0 <= i < |list| ==> list[i] < parent && Plain(list[i])
  }

  predicate Loop(s: Stmt) { s.While? || s.DoWhile? || s.For? || s.ForInOf? }


  // ---------------------------------------------------------------- what the code of a statement looks like

  /** A block around a statement, and where its breaks and continues go. */
  datatype Target = Target(typ: BlockType, name: Option<string>, brk: nat, cont: nat)

  /** Whether a block is the one that a break or continue with this label, or none, is about. */
  predicate Catches(typ: BlockType, label_: Option<string>, name: Option<string>, isBreak: bool) {
    if name.Some? then label_ == name else IsLoop(typ) || (isBreak && typ.BlockSwitch?)
  }

  predicate Is(f: seq<Instr>, pc: int, i: Instr) {
    0 <= pc < |f| && f[pc] == i
  }

  /** The last block is the scope shared by the iterations of the for loop that a continue is about. */
  predicate SharedScope(ctx: seq<Target>, name: Option<string>, isBreak: bool) {
    && !isBreak && |ctx| >= 2 && ctx[|ctx| - 1].typ.BlockIterScope?
    && ctx[|ctx| - 2].typ.BlockLoop? && Catches(BlockLoop, ctx[|ctx| - 2].name, name, false)
  }

  /** At pc is the way out of the blocks to the one that a break or continue is about: each block in between is undone,
      and a jump leads to where the breaks or the continues of that block go. */
  predicate ExitAt(f: seq<Instr>, pc: nat, ctx: seq<Target>, name: Option<string>, isBreak: bool)
    decreases |ctx|
  {
    if ctx == [] then false
    else
      var t, outer := ctx[|ctx| - 1], ctx[..|ctx| - 1];
      if Catches(t.typ, t.name, name, isBreak) then (isBreak || IsLoop(t.typ)) && Is(f, pc, Jump((if isBreak then t.brk else t.cont) - pc))
      else if SharedScope(ctx, name, isBreak) then Is(f, pc, Jump(ctx[|ctx| - 2].cont - pc))
      else if IsScope(t.typ) then Is(f, pc, LeaveBlock) && ExitAt(f, pc + 1, outer, name, isBreak)
      else if t.typ.BlockTry? then Is(f, pc, LeaveTry) && ExitAt(f, pc + 1, outer, name, isBreak)
      else if t.typ.BlockWith? then Is(f, pc, LeaveWith) && ExitAt(f, pc + 1, outer, name, isBreak)
      else if t.typ.BlockLoopEnum? then Is(f, pc, EnumPopClose) && ExitAt(f, pc + 1, outer, name, isBreak)
      else ExitAt(f, pc, outer, name, isBreak)
  }

  const ScopeTarget: Target := Target(BlockScope, None, 0, 0)
  const IterScopeTarget: Target := Target(BlockIterScope, None, 0, 0)

  function OpSize(e: Option<nat>): nat { if e.Some? then 1 else 0 }

  function TestSize(test: Option<nat>): nat { if test.Some? then 2 else 0 }

  predicate LaidOp(f: seq<Instr>, pc: int, e: Option<nat>) {
    e.Some? ==> Is(f, pc, Op(e.value))
  }

  /** A test at pc, which leads to out unless it holds. */
  predicate LaidTest(f: seq<Instr>, pc: int, test: Option<nat>, out: int) {
    test.Some? ==> Is(f, pc, Op(test.value)) && Is(f, pc + 1, JumpUnless(out - (pc + 1)))
  }

  function Copy(needStash: bool): Instr { if needStash then CopyStash else Jump(1) }

  /** f has the code of s from a to b, where ctx are the blocks around s. */
  ghost predicate Layout(f: seq<Instr>, a: nat, b: nat, s: Stmt, ctx: seq<Target>)
    decreases s, 5
  {
    match s
    case Expression(id) => Is(f, a, Op(id)) && b == a + 1
    case Sequence(lexical, list) => LaidBlock(f, a, b, lexical, list, s, ctx)
    case If(_, _, _) => exists m :: LaidIf(f, a, m, b, s, ctx)
    case With(subject, body) =>
      && a + 3 <= b && Is(f, a, Op(subject)) && Is(f, a + 1, EnterWith) && Is(f, b - 1, LeaveWith)
      && Layout(f, a + 2, b - 1, body, ctx + [Target(BlockWith, None, b, 0)])
    case TryStmt(_, _, _) => exists m, n :: LaidTry(f, a, m, n, b, s, ctx)
    case Switch(_, _, _, _) => exists marks :: LaidSwitch(f, a, b, marks, s, ctx)
    case Labelled(name, t) =>
      if Loop(t) then LaidLoop(f, a, b, t, Some(name), ctx) else Layout(f, a, b, t, ctx + [Target(BlockLabel, Some(name), b, 0)])
    case Branch(isBreak, name) => ExitAt(f, a, ctx, name, isBreak)
    case _ => LaidLoop(f, a, b, s, None, ctx)
  }

  /** Statements one after the other, which begin at the marks. */
  ghost predicate LaidAt(f: seq<Instr>, marks: seq<nat>, list: seq<Stmt>, parent: Stmt, ctx: seq<Target>)
    decreases parent, 0
  {
    |marks| == |list| + 1 && forall i :: 0 <= i < |list| ==> list[i] < parent && Layout(f, marks[i], marks[i + 1], list[i], ctx)
  }

  ghost predicate LaidList(f: seq<Instr>, a: nat, b: nat, list: seq<Stmt>, parent: Stmt, ctx: seq<Target>)
    decreases parent, 1
  {
    exists marks :: LaidAt(f, marks, list, parent, ctx) && marks[0] == a && marks[|list|] == b
  }

  ghost predicate LaidBlock(f: seq<Instr>, a: nat, b: nat, lexical: bool, list: seq<Stmt>, parent: Stmt, ctx: seq<Target>)
    decreases parent, 2
  {
    if lexical then
      && a + 2 <= b && Is(f, a, EnterBlock) && Is(f, b - 1, LeaveBlock)
      && LaidList(f, a + 1, b - 1, list, parent, ctx + [ScopeTarget])
    else LaidList(f, a, b, list, parent, ctx)
  }

  /** The alternate, if there is one, begins after the jump at m. */
  ghost predicate LaidIf(f: seq<Instr>, a: nat, m: nat, b: nat, s: Stmt, ctx: seq<Target>)
    requires s.If?
    decreases s, 1
  {
    && Is(f, a, Op(s.condition)) && Layout(f, a + 2, m, s.consequent, ctx)
    && if s.alternate.None? then m == b && Is(f, a + 1, JumpUnless(b - (a + 1)))
       else
         && Is(f, a + 1, JumpUnless(m + 1 - (a + 1))) && Is(f, m, Jump(b - m))
         && Layout(f, m + 1, b, s.alternate.value, ctx)
  }

  /** A loop that tests at h; its body goes on to p, its update is at q, and the jump back is the last before e. */
  ghost predicate LaidRound(f: seq<Instr>, h: nat, p: nat, q: nat, e: nat, test: Option<nat>, update: Option<nat>, body: Stmt, ctx: seq<Target>)
    decreases body, 6
  {
    && q + OpSize(update) + 1 == e && LaidTest(f, h, test, e) && LaidOp(f, q, update) && Is(f, e - 1, Jump(h - (e - 1)))
    && Layout(f, h + TestSize(test), p, body, ctx)
  }

  ghost predicate LaidLoop(f: seq<Instr>, a: nat, b: nat, s: Stmt, name: Option<string>, ctx: seq<Target>)
    requires Loop(s)
    decreases s, 4
  {
    match s
    case While(test, body) => b > 0 && LaidRound(f, a, b - 1, b - 1, b, test, None, body, ctx + [Target(BlockLoop, name, b, a)])
    case DoWhile(body, until) =>
      && b >= 2 && Layout(f, a, b - 2, body, ctx + [Target(BlockLoop, name, b, b - 2)])
      && Is(f, b - 2, Op(until)) && Is(f, b - 1, JumpIf(a - (b - 1)))
    case For(lexical, _, _, _, _, _) => if lexical then LaidForLexical(f, a, b, s, name, ctx) else LaidFor(f, a, b, s, name, ctx)
    case ForInOf(_, _, _, _, _) => exists e: nat, q: nat :: LaidForInOf(f, a, e, q, s, name, ctx) && q + 4 == b
  }

  ghost predicate LaidFor(f: seq<Instr>, a: nat, b: nat, s: Stmt, name: Option<string>, ctx: seq<Target>)
    requires s.For?
    decreases s, 3
  {
    var q := b - 1 - OpSize(s.update);
    && q >= 0 && LaidOp(f, a, s.init)
    && LaidRound(f, a + OpSize(s.init), q, q, b, s.test, s.update, s.body, ctx + [Target(BlockLoop, name, b, q)])
  }

  /** The scope of such a loop is entered once, and copied before the first test and before each update if a stash holds it. */
  ghost predicate LaidForLexical(f: seq<Instr>, a: nat, b: nat, s: Stmt, name: Option<string>, ctx: seq<Target>)
    requires s.For?
    decreases s, 3
  {
    var c0, q := a + 1 + OpSize(s.init), b - 2 - OpSize(s.update);
    && q >= 1 && Is(f, a, EnterBlock) && LaidOp(f, a + 1, s.init) && Is(f, c0, Copy(s.needStash)) && Is(f, q - 1, Copy(s.needStash))
    && Is(f, b - 1, LeaveBlock)
    && LaidRound(f, c0 + 1, q - 1, q, b - 1, s.test, s.update, s.body,
                 ctx + [Target(BlockLoop, name, b, if s.needStash then q - 1 else q), IterScopeTarget])
  }

  /** The source of the iteration, up to e; names the loop declares are in scope if it uses them. */
  predicate LaidSource(f: seq<Instr>, a: nat, e: nat, s: Stmt)
    requires s.ForInOf?
  {
    if !s.declares then e == a + 1 && Is(f, a, Op(s.source))
    else if s.headUsed then e == a + 3 && Is(f, a, EnterBlock) && Is(f, a + 1, Op(s.source)) && Is(f, a + 2, LeaveBlock)
    else e == a + 2 && Is(f, a, Jump(1)) && Is(f, a + 1, Op(s.source))
  }

  /** The iteration begins at e, and the jump back to its next element is at q. */
  ghost predicate LaidForInOf(f: seq<Instr>, a: nat, e: nat, q: nat, s: Stmt, name: Option<string>, ctx: seq<Target>)
    requires s.ForInOf?
    decreases s, 3
  {
    var inner := ctx + [Target(BlockLoopEnum, name, q + 3, e + 1)];
    && LaidSource(f, a, e, s) && Is(f, e, Iterate) && Is(f, e + 1, IterNext(q + 1 - (e + 1))) && Is(f, q, Jump(e + 1 - q))
    && Is(f, q + 1, EnumPop) && Is(f, q + 2, Jump(2)) && Is(f, q + 3, EnumPopClose)
    && if s.declares then
         && q >= 1 && Is(f, e + 2, EnterBlock) && Is(f, e + 3, Op(s.into)) && Is(f, q - 1, LeaveBlock)
         && Layout(f, e + 4, q - 1, s.body, inner + [IterScopeTarget])
       else Is(f, e + 2, Op(s.into)) && Layout(f, e + 3, q, s.body, inner)
  }

  ghost predicate LaidCatch(f: seq<Instr>, a: nat, b: nat, c: Catch, parent: Stmt, ctx: seq<Target>)
    decreases parent, 3
  {
    if c.parameter then
      && a + 2 <= b && Is(f, a, EnterBlock) && Is(f, b - 1, LeaveBlock)
      && LaidList(f, a + 1, b - 1, c.list, parent, ctx + [ScopeTarget])
    else Is(f, a, Pop) && LaidBlock(f, a + 1, b, c.lexical, c.list, parent, ctx)
  }

  /** The block goes on to m, and the catch clause, if there is one, from after the jump at m to n. */
  ghost predicate LaidTry(f: seq<Instr>, a: nat, m: nat, n: nat, b: nat, s: Stmt, ctx: seq<Target>)
    requires s.TryStmt?
    decreases s, 4
  {
    var inner := ctx + [Target(BlockTry, None, b, 0)];
    && a < m <= n < b
    && Is(f, a, Try(if s.catch_.Some? then m + 1 - a else 0, if s.finally_.Some? then n + 1 - a else 0))
    && Layout(f, a + 1, m, s.block, inner)
    && (if s.catch_.Some? then Is(f, m, Jump(n - m)) && LaidCatch(f, m + 1, n, s.catch_.value, s, inner) else m == n)
    && if s.finally_.Some? then
         && Is(f, n, EnterFinally) && Is(f, b - 1, LeaveFinally)
         && LaidBlock(f, n + 1, b - 1, s.finally_.value.lexical, s.finally_.value.list, s, inner)
       else Is(f, n, LeaveTry) && n + 1 == b
  }

  /** Where the test of case i is, if the first is at h. */
  function TestAt(h: nat, lexical: bool, default: int, i: nat): (p: nat)
    ensures h <= p
  {
    var n := if 0 <= default < i then i - 1 else i;
    if lexical then h + 3 * n else h + 4 * n
  }

  /** A test of a switch at p, which leads to the case at to. */
  predicate LaidCaseTest(f: seq<Instr>, p: nat, lexical: bool, test: nat, to: nat) {
    var j := if lexical then p + 2 else p + 3;
    Is(f, p, Op(test)) && Is(f, p + 1, JumpUnless(j + 1 - (p + 1))) && (!lexical ==> Is(f, p + 2, Pop)) && Is(f, j, Jump(to - j))
  }

  /** The tests, from h; and where control goes if none succeeds. Case i begins at marks[i]. */
  ghost predicate LaidTests(f: seq<Instr>, h: nat, marks: seq<nat>, s: Stmt)
    requires s.Switch? && |marks| == |s.cases| + 1 && -1 <= s.default_ < |s.cases|
  {
    var n := |s.cases|;
    var p := TestAt(h, s.lexical, s.default_, n);
    var j := if s.lexical then p else p + 1;
    && (forall i :: 0 <= i < n && i != s.default_ ==> LaidCaseTest(f, TestAt(h, s.lexical, s.default_, i), s.lexical, s.cases[i].test, marks[i]))
    && (!s.lexical ==> Is(f, p, Pop))
    && if s.default_ == 0 then marks[0] == j
       else marks[0] == j + 1 && Is(f, j, Jump(marks[if s.default_ == -1 then n else s.default_] - j))
  }

  ghost predicate LaidSwitch(f: seq<Instr>, a: nat, b: nat, marks: seq<nat>, s: Stmt, ctx: seq<Target>)
    requires s.Switch?
    decreases s, 4
  {
    var n, lex := |s.cases|, if s.lexical then 1 else 0;
    var inner := ctx + [Target(BlockSwitch, None, b, 0)] + if s.lexical then [ScopeTarget] else [];
    && |marks| == n + 1 && -1 <= s.default_ < n && Is(f, a, Op(s.discriminant)) && marks[n] + lex == b
    && (s.lexical ==> Is(f, a + 1, EnterBlock) && Is(f, b - 1, LeaveBlock))
    && LaidTests(f, a + 1 + lex, marks, s)
    && forall i :: 0 <= i < n ==> LaidList(f, marks[i], marks[i + 1], s.cases[i].list, s, inner)
  }

  // ---------------------------------------------------------------- filling the placeholders

  /** f goes on from the code of v, with all placeholders filled but those in v.open: ctx says where the breaks and continues of
      the blocks go. */
  ghost predicate Fills(v: View, f: seq<Instr>, ctx: seq<Target>) {
    && |ctx| == |v.blocks| && |v.code| <= |f|
    && (forall k :: 0 <= k < |ctx| ==> ctx[k].typ == v.blocks[k].typ && ctx[k].name == v.blocks[k].name)
    && (forall pc :: 0 <= pc < |v.code| && pc !in v.open && !v.code[pc].Hole? ==> f[pc] == v.code[pc])
    && (forall k, pc :: 0 <= k < |ctx| && pc in v.blocks[k].breaks ==> Is(f, pc, if IsScope(ctx[k].typ) then LeaveBlock else Jump(ctx[k].brk - pc)))
    && (forall k, pc :: 0 <= k < |ctx| && pc in v.blocks[k].conts ==> Is(f, pc, Jump(ctx[k].cont - pc)))
  }

  /** What fills v fills u. */
  ghost predicate Keeps(u: View, v: View) {
    forall f, ctx :: Fills(v, f, ctx) ==> Fills(u, f, ctx)
  }

  /** From u to v, i was emitted. */
  ghost predicate Emits(u: View, v: View, i: Instr) {
    |v.code| == |u.code| + 1 && forall f, ctx :: Fills(v, f, ctx) ==> Fills(u, f, ctx) && Is(f, |u.code|, i)
  }

  /** An instruction was emitted that will be rewritten. */
  ghost predicate Opens(u: View, v: View) {
    |v.code| == |u.code| + 1 && Keeps(u, v)
  }

  ghost predicate Writes(u: View, v: View, pc: nat, i: Instr) {
    |v.code| == |u.code| && forall f, ctx :: Fills(v, f, ctx) ==> Fills(u, f, ctx) && Is(f, pc, i)
  }

  /** A block was entered. */
  ghost predicate Enters(u: View, v: View) {
    |v.code| == |u.code| && forall f, ctx, t :: Fills(v, f, ctx + [t]) ==> Fills(u, f, ctx)
  }

  /** The last block was left, and t is what it was. */
  ghost predicate Leaves(u: View, v: View, t: Target) {
    |v.code| == |u.code| && forall f, ctx :: Fills(v, f, ctx) ==> Fills(u, f, ctx + [t])
  }

  function LastTarget(v: View): Target
    requires v.blocks != []
  {
    var b := v.blocks[|v.blocks| - 1];
    Target(b.typ, b.name, if IsScope(b.typ) then 0 else |v.code|, if IsLoop(b.typ) then b.cont else 0)
  }

  lemma AppendEmits(v: View, i: Instr, next: Shape)
    requires |v.code| !in v.open && !i.Hole?
    ensures Emits(v, Appended(v, i, next), i)
  {
    var w := Appended(v, i, next);
    forall f, ctx | Fills(w, f, ctx) ensures Fills(v, f, ctx) && Is(f, |v.code|, i) {
      assert w.code[|v.code|] == i;
      forall pc | 0 <= pc < |v.code| && pc !in v.open && !v.code[pc].Hole? ensures f[pc] == v.code[pc] {
        assert w.code[pc] == v.code[pc];
      }
    }
  }

  lemma AppendOpens(v: View, i: Instr, next: Shape)
    ensures Opens(v, AppendedOpen(v, i, next))
  {
    var w := AppendedOpen(v, i, next);
    forall f, ctx | Fills(w, f, ctx) ensures Fills(v, f, ctx) {
      forall pc | 0 <= pc < |v.code| && pc !in v.open && !v.code[pc].Hole? ensures f[pc] == v.code[pc] {
        assert w.code[pc] == v.code[pc];
      }
    }
  }

  lemma RewriteWrites(v: View, pc: nat, i: Instr)
    requires pc < |v.code| && pc in v.open && !i.Hole?
    ensures Writes(v, Rewritten(v, pc, i), pc, i)
  {
    var w := Rewritten(v, pc, i);
    forall f, ctx | Fills(w, f, ctx) ensures Fills(v, f, ctx) && Is(f, pc, i) {
      assert w.code[pc] == i;
      forall p | 0 <= p < |v.code| && p !in v.open && !v.code[p].Hole? ensures f[p] == v.code[p] {
        assert w.code[p] == v.code[p];
      }
    }
  }

  lemma PushEnters(v: View, b: Block, cont: Shape)
    ensures Enters(v, Pushed(v, b, cont))
  {
    var w := Pushed(v, b, cont);
    forall f, ctx, t | Fills(w, f, ctx + [t]) ensures Fills(v, f, ctx) {
      forall k | 0 <= k < |ctx| ensures (ctx + [t])[k] == ctx[k] && w.blocks[k] == v.blocks[k] {
      }
    }
  }

  lemma SetContKeeps(v: View, k: nat, pos: nat)
    requires k < |v.blocks|
    ensures Keeps(v, WithContAt(v, k, pos))
  {
    var w := WithContAt(v, k, pos);
    assert forall j :: 0 <= j < |v.blocks| ==> SameLists(v.blocks[j], w.blocks[j]);
  }

  predicate SameLists(b: Block, c: Block) { b.typ == c.typ && b.name == c.name && b.breaks == c.breaks && b.conts == c.conts }

  lemma PopLeaves(v: View, code: seq<Instr>)
    requires Inv(v) && Left(v, code)
    ensures v.conts != [] && Leaves(v, Popped(v, code), LastTarget(v))
  {
    var k, t := |v.blocks| - 1, LastTarget(v);
    var w := Popped(v, code);
    assert BlockOk(v, k);
    forall f, ctx | Fills(w, f, ctx) ensures Fills(v, f, ctx + [t]) {
      PopFills(v, code, f, ctx);
    }
  }

  lemma PopFills(v: View, code: seq<Instr>, f: seq<Instr>, ctx: seq<Target>)
    requires Inv(v) && Left(v, code) && v.conts != [] && Fills(Popped(v, code), f, ctx)
    ensures Fills(v, f, ctx + [LastTarget(v)])
  {
    hide InstrOk, BreakShape;
    var n, t, w := |v.blocks| - 1, LastTarget(v), Popped(v, code);
    var b, more := v.blocks[n], ctx + [t];
    assert BlockOk(v, n);
    forall pc | pc in b.breaks ensures Is(f, pc, if IsScope(t.typ) then LeaveBlock else Jump(t.brk - pc)) {
      assert Waits(v, n, pc) && BreakOk(v, n, pc);
      assert w.code[pc] == f[pc];
    }
    forall pc | pc in b.conts ensures Is(f, pc, Jump(t.cont - pc)) {
      assert Waits(v, n, pc) && ContOk(v, n, pc);
      assert w.code[pc] == f[pc];
    }
    forall pc | 0 <= pc < |v.code| && pc !in v.open && !v.code[pc].Hole? ensures f[pc] == v.code[pc] {
      assert InLists(b, pc) ==> Waits(v, n, pc);
      assert w.code[pc] == f[pc];
    }
    forall k | 0 <= k < |more| ensures more[k].typ == v.blocks[k].typ && more[k].name == v.blocks[k].name {
      assert k < n ==> w.blocks[k] == v.blocks[k] && more[k] == ctx[k];
    }
    forall k, pc: nat | 0 <= k < |more| && InLists(v.blocks[k], pc)
      ensures (pc in v.blocks[k].breaks ==> Is(f, pc, if IsScope(more[k].typ) then LeaveBlock else Jump(more[k].brk - pc)))
        && (pc in v.blocks[k].conts ==> Is(f, pc, Jump(more[k].cont - pc)))
    {
      if k < n {
        assert w.blocks[k] == v.blocks[k] && more[k] == ctx[k];
      }
    }
  }
}
