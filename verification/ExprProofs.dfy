/** The emitted code computes what direct evaluation yields, folding included, exactly when no discarded
    && with a constant falsy left operand is reached. */
module ExprProofs {
  import opened Options
  import opened ExprSpec

  /** `frag` is the part of the code that starts at pc. */
  ghost predicate At(code: seq<Instr>, pc: nat, frag: seq<Instr>) {
    pc + |frag| <= |code| && code[pc..pc + |frag|] == frag
  }

  lemma AtSplit(code: seq<Instr>, pc: nat, a: seq<Instr>, b: seq<Instr>)
    requires At(code, pc, a + b)
    ensures At(code, pc, a) && At(code, pc + |a|, b)
  {
    assert code[pc..pc + |a|] == (a + b)[..|a|];
    assert code[pc + |a|..pc + |a + b|] == (a + b)[|a|..];
  }

  function Push(s: seq<Value>, put: bool, v: Value): seq<Value> {
    if put then s + [v] else s
  }

  /** The n instructions at pc have the effect of a direct evaluation with outcome r. */
  ghost predicate Runs<W>(sem: Semantics<W>, code: seq<Instr>, pc: nat, n: nat, s: seq<Value>, w: W, r: (W, Result), put: bool) {
    match r.1
    case Ok(v) => Run(sem, code, pc, s, w) == Run(sem, code, pc + n, Push(s, put, v), r.0)
    case Raise(x) => Run(sem, code, pc, s, w) == Raised(x, r.0)
  }

  // ---------------------------------------------------------------- where a value is left behind

  /** Getter code for e, run in world w, reaches a discarded && whose left operand is constant and
      falsy, which leaves that operand on the stack. */
  ghost predicate Leaks<W>(sem: Semantics<W>, e: Expr, put: bool, w: W)
    decreases e, 0
  {
    match e
    case Literal(_) | Other(_) => false
    case Unary(op, o) => if ByGetter(op) then Leaks(sem, o, true, w) else LeaksX(sem, o, true, w)
    case Void(o) => LeaksX(sem, o, false, w)
    case Binary(_, l, r) =>
      LeaksX(sem, l, true, w) || (Eval(sem, l, w).1.Ok? && LeaksX(sem, r, true, Eval(sem, l, w).0))
    case Conditional(t, c, a) =>
      Leaks(sem, t, true, w) ||
      (match Eval(sem, t, w)
       case (w1, Ok(v)) => if Truthy(v) then Leaks(sem, c, put, w1) else Leaks(sem, a, put, w1)
       case (_, Raise(_)) => false)
    case Sequence(es) => LeaksItems(sem, es, put, w)
    case _ =>
      if IsConst(sem, e.left) then
        match EvalConst(sem, e.left)
        case Ok(v) => if Decides(e, v) then e.LogicalAnd? && !put else LeaksX(sem, e.right, put, w)
        case Raise(_) => false
      else
        LeaksLeft(sem, e, w) ||
        (match Eval(sem, e.left, w)
         case (w1, Ok(v)) => !Decides(e, v) && LeaksX(sem, e.right, true, w1)
         case (_, Raise(_)) => false)
  }

  ghost predicate LeaksLeft<W>(sem: Semantics<W>, e: Expr, w: W)
    requires IsLogical(e)
    decreases e.left, 2
  {
    if e.LogicalAnd? then Leaks(sem, e.left, true, w) else LeaksX(sem, e.left, true, w)
  }

  ghost predicate LeaksX<W>(sem: Semantics<W>, e: Expr, put: bool, w: W)
    decreases e, 1
  {
    !IsConst(sem, e) && Leaks(sem, e, put, w)
  }

  ghost predicate LeaksItems<W>(sem: Semantics<W>, es: seq<Expr>, put: bool, w: W)
    decreases es, 0
  {
    if es == [] then false
    else if |es| == 1 then Leaks(sem, es[0], put, w)
    else Leaks(sem, es[0], false, w) || (Eval(sem, es[0], w).1.Ok? && LeaksItems(sem, es[1..], put, Eval(sem, es[0], w).0))
  }

  // ---------------------------------------------------------------- where an error was found while folding

  /** Evaluation of e by its getter code ends with an error that was found while folding, and which the
      code therefore creates anew. */
  ghost predicate Folds<W>(sem: Semantics<W>, e: Expr, w: W)
    decreases e, 0
  {
    Eval(sem, e, w).1.Raise? &&
    match e
    case Literal(_) | Other(_) => false
    case Unary(op, o) => if ByGetter(op) then Folds(sem, o, w) else FoldsX(sem, o, w)
    case Void(o) => FoldsX(sem, o, w)
    case Binary(_, l, r) =>
      var (w1, a) := Eval(sem, l, w);
      if a.Raise? then FoldsX(sem, l, w) else FoldsX(sem, r, w1)
    case Conditional(t, c, a) =>
      (match Eval(sem, t, w)
       case (w1, Ok(v)) => if Truthy(v) then Folds(sem, c, w1) else Folds(sem, a, w1)
       case _ => Folds(sem, t, w))
    case Sequence(es) => FoldsItems(sem, es, w)
    case _ =>
      if IsConst(sem, e.left) then
        match EvalConst(sem, e.left)
        case Ok(v) => !Decides(e, v) && FoldsX(sem, e.right, w)
        case Raise(_) => true
      else
        match Eval(sem, e.left, w)
        case (w1, Ok(v)) => !Decides(e, v) && FoldsX(sem, e.right, w1)
        case _ => FoldsLeft(sem, e, w)
  }

  ghost predicate FoldsLeft<W>(sem: Semantics<W>, e: Expr, w: W)
    requires IsLogical(e)
    decreases e.left, 2
  {
    if e.LogicalAnd? then Folds(sem, e.left, w) else FoldsX(sem, e.left, w)
  }

  ghost predicate FoldsX<W>(sem: Semantics<W>, e: Expr, w: W)
    decreases e, 1
  {
    Eval(sem, e, w).1.Raise? && (IsConst(sem, e) || Folds(sem, e, w))
  }

  ghost predicate FoldsItems<W>(sem: Semantics<W>, es: seq<Expr>, w: W)
    decreases es, 0
  {
    if es == [] then false
    else if |es| == 1 then Folds(sem, es[0], w)
    else
      match Eval(sem, es[0], w)
      case (w1, Ok(_)) => FoldsItems(sem, es[1..], w1)
      case _ => Folds(sem, es[0], w)
  }

  /** What the code does where evaluation gives r: an error found while folding is looked up by name. */
  function Emitted<W>(sem: Semantics<W>, r: (W, Result), folded: bool): (W, Result) {
    if folded && r.1.Raise? && r.1.error.ErrorObject? then
      var (w1, y) := Rethrown(sem, r.1.error, r.0);
      (w1, Raise(y))
    else r
  }

  lemma FoldsRaise<W>(sem: Semantics<W>, e: Expr, w: W)
    ensures Folds(sem, e, w) || FoldsX(sem, e, w) ==> Eval(sem, e, w).1.Raise?
  {
  }

  ghost function Gets<W>(sem: Semantics<W>, e: Expr, w: W): (W, Result) {
    Emitted(sem, Eval(sem, e, w), Folds(sem, e, w))
  }

  ghost function GetsX<W>(sem: Semantics<W>, e: Expr, w: W): (W, Result) {
    Emitted(sem, Eval(sem, e, w), FoldsX(sem, e, w))
  }

  // ---------------------------------------------------------------- single instructions

  /** One instruction of the code is executed. */
  lemma OneRuns<W>(sem: Semantics<W>, code: seq<Instr>, pc: nat, s: seq<Value>, w: W, i: Instr)
    requires At(code, pc, [i])
    ensures pc < |code| && code[pc] == i
    ensures i.LoadVal? ==> Run(sem, code, pc, s, w) == Run(sem, code, pc + 1, s + [i.v], w)
    ensures i.LoadDynamic? ==>
      var r := sem.denotes(i.name, w);
      Run(sem, code, pc, s, w) == if r.1.Ok? then Run(sem, code, pc + 1, s + [r.1.value], r.0) else Raised(r.1.error, r.0)
    ensures i.Pop? && s != [] ==> Run(sem, code, pc, s, w) == Run(sem, code, pc + 1, Drop(s), w)
    ensures i.Throw? && s != [] ==> Run(sem, code, pc, s, w) == Raised(Top(s), w)
    ensures i.Jump? && i.n > 0 ==> Run(sem, code, pc, s, w) == Run(sem, code, pc + i.n, s, w)
  {
    assert code[pc..pc + 1][0] == i;
  }

  lemma NewRuns<W>(sem: Semantics<W>, code: seq<Instr>, pc: nat, s: seq<Value>, w: W, c: Value, message: Option<string>)
    requires At(code, pc, [New(if message.Some? then 1 else 0)])
    ensures var t, r := s + [c] + (if message.Some? then [Str(message.value)] else []), Construct(sem, c, message, w);
      Run(sem, code, pc, t, w) == if r.1.Ok? then Run(sem, code, pc + 1, s + [r.1.value], r.0) else Raised(r.1.error, r.0)
  {
    var n := if message.Some? then 1 else 0;
    OneRuns(sem, code, pc, s, w, New(n));
    var t := s + [c] + (if message.Some? then [Str(message.value)] else []);
    assert t[..|t| - 1 - n] == s && t[|t| - 1 - n] == c;
  }

  /** With the constructor on the stack, the rest of the code that throws an error throws what it builds. */
  lemma BuildRuns<W>(sem: Semantics<W>, code: seq<Instr>, pc: nat, s: seq<Value>, w: W, c: Value, message: Option<string>)
    requires At(code, pc, BuildCode(message))
    ensures var (w1, r) := Construct(sem, c, message, w);
      Run(sem, code, pc, s + [c], w) == Raised(if r.Ok? then r.value else r.error, w1)
  {
    hide Run, At, Construct;
    var (w1, r) := Construct(sem, c, message, w);
    var t := s + [if r.Ok? then r.value else Undefined];
    if message.Some? {
      var m := Str(message.value);
      assert BuildCode(message) == [LoadVal(m)] + ([New(1)] + [Throw]);
      AtSplit(code, pc, [LoadVal(m)], [New(1)] + [Throw]);
      AtSplit(code, pc + 1, [New(1)], [Throw]);
      OneRuns(sem, code, pc, s + [c], w, LoadVal(m));
      NewRuns(sem, code, pc + 1, s, w, c, message);
      OneRuns(sem, code, pc + 2, t, w1, Throw);
    } else {
      assert BuildCode(message) == [New(0)] + [Throw];
      AtSplit(code, pc, [New(0)], [Throw]);
      NewRuns(sem, code, pc, s, w, c, message);
      assert s + [c] + [] == s + [c];
      OneRuns(sem, code, pc + 1, t, w1, Throw);
    }
  }

  function BuildCode(message: Option<string>): seq<Instr> {
    match message case Some(m) => [LoadVal(Str(m)), New(1), Throw] case None => [New(0), Throw]
  }

  /** The code that throws an error found while folding throws what its name and message give at run time. */
  lemma ThrowRuns<W>(sem: Semantics<W>, code: seq<Instr>, pc: nat, s: seq<Value>, w: W, x: Value)
    requires x.ErrorObject? && At(code, pc, ThrowCode(x))
    ensures var (w1, y) := Rethrown(sem, x, w); Run(sem, code, pc, s, w) == Raised(y, w1)
  {
    hide Run, At, Construct;
    assert ThrowCode(x) == [LoadDynamic(x.name)] + BuildCode(x.message);
    AtSplit(code, pc, [LoadDynamic(x.name)], BuildCode(x.message));
    hide BuildCode, ThrowCode;
    OneRuns(sem, code, pc, s, w, LoadDynamic(x.name));
    var (w1, r) := sem.denotes(x.name, w);
    if r.Ok? {
      BuildRuns(sem, code, pc + 1, s, w1, r.value, x.message);
    }
  }

  /** Code that pushes, followed by a pop if the value is not wanted. */
  lemma ThenPop<W>(sem: Semantics<W>, code: seq<Instr>, pc: nat, n: nat, s: seq<Value>, w: W, r: (W, Result), put: bool)
    requires Runs(sem, code, pc, n, s, w, r, true) && At(code, pc + n, PopUnless(put))
    ensures Runs(sem, code, pc, n + |PopUnless(put)|, s, w, r, put)
  {
    if !put && r.1.Ok? {
      OneRuns(sem, code, pc + n, s + [r.1.value], r.0, Pop);
      assert Drop(s + [r.1.value]) == s;
    }
  }

  /** Two values and a binary operator. */
  lemma OperatorRuns<W>(sem: Semantics<W>, code: seq<Instr>, pc: nat, s: seq<Value>, w: W, op: Op, a: Value, b: Value)
    requires At(code, pc, [BinaryOp(op)])
    ensures var r := Apply(sem, op, a, b, w);
            && (r.1.Ok? ==> Run(sem, code, pc, s + [a] + [b], w) == Run(sem, code, pc + 1, s + [r.1.value], r.0))
            && (r.1.Raise? ==> Run(sem, code, pc, s + [a] + [b], w) == Raised(r.1.error, r.0))
  {
    OneRuns(sem, code, pc, s, w, BinaryOp(op));
    var t := s + [a] + [b];
    hide Apply;
    assert Drop(t) == s + [a] && Drop(Drop(t)) == s && Top(t) == b && Top(Drop(t)) == a;
  }

  /** The conditional jump of a conditional expression. */
  lemma JneRuns<W>(sem: Semantics<W>, code: seq<Instr>, pc: nat, s: seq<Value>, w: W, v: Value, n: int)
    requires At(code, pc, [JneP(n)]) && n > 0
    ensures Run(sem, code, pc, s + [v], w) == Run(sem, code, pc + (if Truthy(v) then 1 else n), s, w)
  {
    OneRuns(sem, code, pc, s, w, JneP(n));
    assert Drop(s + [v]) == s;
  }

  /** The jump of a logical expression keeps a deciding value, and drops any other. */
  lemma LogicalJumpRuns<W>(sem: Semantics<W>, code: seq<Instr>, pc: nat, s: seq<Value>, w: W, e: Expr, v: Value, n: int)
    requires IsLogical(e) && At(code, pc, [LogicalJump(e, n)]) && n > 0
    ensures Run(sem, code, pc, s + [v], w) == if Decides(e, v) then Run(sem, code, pc + n, s + [v], w) else Run(sem, code, pc + 1, s, w)
  {
    OneRuns(sem, code, pc, s, w, LogicalJump(e, n));
    assert Drop(s + [v]) == s && Top(s + [v]) == v;
  }

  // ---------------------------------------------------------------- the simulation

  /** What EvalConst says of a constant expression is what evaluating it yields, in every world. */
  ghost predicate ConstRight<W(!new)>(sem: Semantics<W>, e: Expr) {
    var r := EvalConst(sem, e);
    && (forall w :: Eval(sem, e, w) == (w, r))
    && (r.Ok? ==> IsPrimitive(r.value))
    && (r.Raise? ==> IsStandardError(r.error))
  }

  /** Constant expressions do not depend on the world, and leave it alone. */
  lemma {:induction false} ConstPure<W(!new)>(sem: Semantics<W>, e: Expr, w: W, w': W)
    requires Lawful(sem) && WellFormed(e) && IsConst(sem, e)
    ensures Eval(sem, e, w).0 == w && Eval(sem, e, w).1 == Eval(sem, e, w').1
    ensures var r := Eval(sem, e, w).1; if r.Ok? then IsPrimitive(r.value) else IsStandardError(r.error)
    decreases e, 0
  {
    if e.Unary? || e.Void? {
      ConstPure(sem, e.operand, w, w');
      ConstPure(sem, e.operand, w', w);
      var a := Eval(sem, e.operand, w).1;
      assert Eval(sem, e.operand, w) == (w, a) && Eval(sem, e.operand, w') == (w', a);
      if e.Unary? && a.Ok? {
        assert PrimitiveOrError(sem.onPrimitive(e.uop, a.value));
      }
    } else if e.Binary? {
      ConstPure(sem, e.left, w, w');
      ConstPure(sem, e.left, w', w);
      ConstPure(sem, e.right, w, w');
      ConstPure(sem, e.right, w', w);
      var a, b := Eval(sem, e.left, w).1, Eval(sem, e.right, w).1;
      assert Eval(sem, e.left, w) == (w, a) && Eval(sem, e.left, w') == (w', a);
      assert Eval(sem, e.right, w) == (w, b) && Eval(sem, e.right, w') == (w', b);
      if a.Ok? && b.Ok? {
        assert PrimitiveOrError(sem.onPrimitives(e.op, a.value, b.value));
        assert Apply(sem, e.op, a.value, b.value, w) == (w, sem.onPrimitives(e.op, a.value, b.value));
        assert Apply(sem, e.op, a.value, b.value, w') == (w', sem.onPrimitives(e.op, a.value, b.value));
      }
    } else if IsLogical(e) {
      EvalConstRight(sem, e.left);
      var c := EvalConst(sem, e.left);
      if c.Ok? && !Decides(e, c.value) {
        ConstPure(sem, e.right, w, w');
      }
    }
  }

  /** Getter code for a constant whose value is wanted reaches no leak. */
  lemma {:induction false} ConstNeverLeaks<W(!new)>(sem: Semantics<W>, e: Expr, w: W)
    requires Lawful(sem) && WellFormed(e) && IsConst(sem, e)
    ensures !Leaks(sem, e, true, w)
    decreases e
  {
    if e.Unary? {
      ConstNeverLeaks(sem, e.operand, w);
    }
  }

  /** On the compiler's own machine errors are built by the names they have. */
  lemma OwnMachine<W(!new)>(sem: Semantics<W>, e: Expr)
    requires Lawful(sem) && (Eval(sem, e, sem.evalWorld).1.Raise? ==> IsStandardError(Eval(sem, e, sem.evalWorld).1.error))
    requires Eval(sem, e, sem.evalWorld).0 == sem.evalWorld
    ensures Gets(sem, e, sem.evalWorld) == Eval(sem, e, sem.evalWorld)
  {
  }

  lemma {:induction false} EvalConstRight<W(!new)>(sem: Semantics<W>, e: Expr)
    requires Lawful(sem) && WellFormed(e) && IsConst(sem, e)
    ensures ConstRight(sem, e)
    decreases e, 3
  {
    if e.Literal? { return; }
    var code := Getter(sem, e, true);
    var r := Eval(sem, e, sem.evalWorld);
    forall w ensures Eval(sem, e, w) == (w, r.1) {
      ConstPure(sem, e, w, sem.evalWorld);
    }
    ConstPure(sem, e, sem.evalWorld, sem.evalWorld);
    assert code[0..|code|] == code;
    ConstNeverLeaks(sem, e, sem.evalWorld);
    hide Leaks, Getter, Eval, IsConst;
    OwnMachine(sem, e);
    GetterRuns(sem, e, true, code, 0, [], sem.evalWorld);
  }

  lemma {:induction false} GetterRuns<W(!new)>(sem: Semantics<W>, e: Expr, put: bool, code: seq<Instr>, pc: nat, s: seq<Value>, w: W)
    requires Lawful(sem) && WellFormed(e) && At(code, pc, Getter(sem, e, put)) && !Leaks(sem, e, put, w)
    ensures Runs(sem, code, pc, |Getter(sem, e, put)|, s, w, Gets(sem, e, w), put)
    decreases e, 2
  {
    match e
    case Literal(v) =>
      if put { OneRuns(sem, code, pc, s, w, LoadVal(v)); }
    case Other(id) => OtherRuns(sem, id, put, code, pc, s, w);
    case Unary(_, _) => UnaryRuns(sem, e, put, code, pc, s, w);
    case Void(_) => VoidRuns(sem, e, put, code, pc, s, w);
    case Binary(op, l, r) => BinaryRuns(sem, e, put, code, pc, s, w);
    case Conditional(t, c, a) => ConditionalRuns(sem, e, put, code, pc, s, w);
    case Sequence(es) => ItemsRun(sem, es, put, code, pc, s, w);
    case _ => LogicalRuns(sem, e, put, code, pc, s, w);
  }

  lemma OtherRuns<W>(sem: Semantics<W>, id: nat, put: bool, code: seq<Instr>, pc: nat, s: seq<Value>, w: W)
    requires At(code, pc, [Ext(id)] + PopUnless(put))
    ensures Runs(sem, code, pc, 1 + |PopUnless(put)|, s, w, sem.other(id, w), put)
  {
    AtSplit(code, pc, [Ext(id)], PopUnless(put));
    OneRuns(sem, code, pc, s, w, Ext(id));
    assert Runs(sem, code, pc, 1, s, w, sem.other(id, w), true);
    hide Run;
    ThenPop(sem, code, pc, 1, s, w, sem.other(id, w), put);
  }

  /** EmitExpr folds or compiles. */
  lemma {:induction false} ExprRuns<W(!new)>(sem: Semantics<W>, e: Expr, put: bool, code: seq<Instr>, pc: nat, s: seq<Value>, w: W)
    requires Lawful(sem) && WellFormed(e) && At(code, pc, EmitExpr(sem, e, put)) && !LeaksX(sem, e, put, w)
    ensures Runs(sem, code, pc, |EmitExpr(sem, e, put)|, s, w, GetsX(sem, e, w), put)
    decreases e, 4
  {
    hide Run, Getter, Eval, EvalConst, IsConst, Folds, Rethrown;
    if IsConst(sem, e) {
      EvalConstRight(sem, e);
      match EvalConst(sem, e)
      case Ok(v) =>
        if put { OneRuns(sem, code, pc, s, w, LoadVal(v)); }
      case Raise(x) => ThrowRuns(sem, code, pc, s, w, x);
    } else {
      GetterRuns(sem, e, put, code, pc, s, w);
    }
  }

  lemma {:induction false} BinaryRuns<W(!new)>(sem: Semantics<W>, e: Expr, put: bool, code: seq<Instr>, pc: nat, s: seq<Value>, w: W)
    requires Lawful(sem) && WellFormed(e) && e.Binary? && At(code, pc, Getter(sem, e, put)) && !Leaks(sem, e, put, w)
    ensures Runs(sem, code, pc, |Getter(sem, e, put)|, s, w, Gets(sem, e, w), put)
    decreases e, 0
  {
    hide Run, Getter, GetterItems, LeftCode, EmitExpr, EmitConst, EvalConst, IsConst, Eval, EvalItems, Leaks, LeaksX, LeaksItems, LeaksLeft, At, Runs;
    hide Folds, FoldsX, Rethrown, Apply;
    var lc, rc := EmitExpr(sem, e.left, true), EmitExpr(sem, e.right, true);
    BinaryParts(sem, e, put, code, pc);
    BinaryFacts(sem, e, put, w);
    var (w1, a) := Eval(sem, e.left, w);
    var (w2, b) := Eval(sem, e.right, w1);
    ExprRuns(sem, e.left, true, code, pc, s, w);
    if a.Ok? {
      ExprRuns(sem, e.right, true, code, pc + |lc|, s + [a.value], w1);
    }
    ThenOperator(sem, code, pc, |lc|, |rc|, s, w, GetsX(sem, e.left, w), GetsX(sem, e.right, w1), e.op, Gets(sem, e, w));
    ThenPop(sem, code, pc, |lc| + |rc| + 1, s, w, Gets(sem, e, w), put);
  }

  lemma {:induction false} UnaryRuns<W(!new)>(sem: Semantics<W>, e: Expr, put: bool, code: seq<Instr>, pc: nat, s: seq<Value>, w: W)
    requires Lawful(sem) && WellFormed(e) && e.Unary? && At(code, pc, Getter(sem, e, put)) && !Leaks(sem, e, put, w)
    ensures Runs(sem, code, pc, |Getter(sem, e, put)|, s, w, Gets(sem, e, w), put)
    decreases e, 0
  {
    hide Run, Getter, GetterItems, LeftCode, EmitExpr, EmitConst, EvalConst, IsConst, Eval, EvalItems, Leaks, LeaksX, LeaksItems, LeaksLeft, At, Runs;
    hide Folds, FoldsX, Rethrown, ApplyUnary;
    var c := OperandCode(sem, e);
    UnaryParts(sem, e, put, code, pc);
    UnaryFacts(sem, e, put, w);
    if ByGetter(e.uop) {
      GetterRuns(sem, e.operand, true, code, pc, s, w);
    } else {
      ExprRuns(sem, e.operand, true, code, pc, s, w);
    }
    ThenUnary(sem, code, pc, |c|, s, w, GetsOperand(sem, e, w), e.uop, Gets(sem, e, w));
    ThenPop(sem, code, pc, |c| + 1, s, w, Gets(sem, e, w), put);
  }

  /** Operand, operator. */
  lemma ThenUnary<W>(sem: Semantics<W>, code: seq<Instr>, pc: nat, n: nat, s: seq<Value>, w: W, x: (W, Result), op: UnaryOp, z: (W, Result))
    requires Runs(sem, code, pc, n, s, w, x, true) && At(code, pc + n, [UnaryInstr(op)])
    requires z == if x.1.Raise? then x else ApplyUnary(sem, op, x.1.value, x.0)
    ensures Runs(sem, code, pc, n + 1, s, w, z, true)
  {
    if x.1.Ok? {
      hide ApplyUnary;
      UnaryInstrRuns(sem, code, pc + n, s, x.0, op, x.1.value);
    }
  }

  lemma UnaryInstrRuns<W>(sem: Semantics<W>, code: seq<Instr>, pc: nat, s: seq<Value>, w: W, op: UnaryOp, a: Value)
    requires At(code, pc, [UnaryInstr(op)])
    ensures var r := ApplyUnary(sem, op, a, w);
      Run(sem, code, pc, s + [a], w) == if r.1.Ok? then Run(sem, code, pc + 1, s + [r.1.value], r.0) else Raised(r.1.error, r.0)
  {
    OneRuns(sem, code, pc, s, w, UnaryInstr(op));
    assert Drop(s + [a]) == s && Top(s + [a]) == a;
  }

  ghost function GetsOperand<W>(sem: Semantics<W>, e: Expr, w: W): (W, Result)
    requires e.Unary?
  {
    if ByGetter(e.uop) then Gets(sem, e.operand, w) else GetsX(sem, e.operand, w)
  }

  lemma UnaryParts<W>(sem: Semantics<W>, e: Expr, put: bool, code: seq<Instr>, pc: nat)
    requires e.Unary? && At(code, pc, Getter(sem, e, put))
    ensures var c := OperandCode(sem, e);
      && At(code, pc, c) && At(code, pc + |c|, [UnaryInstr(e.uop)]) && At(code, pc + |c| + 1, PopUnless(put))
      && |Getter(sem, e, put)| == |c| + 1 + |PopUnless(put)|
  {
    hide OperandCode, At;
    var c := OperandCode(sem, e);
    AtSplit(code, pc, c + [UnaryInstr(e.uop)], PopUnless(put));
    AtSplit(code, pc, c, [UnaryInstr(e.uop)]);
  }

  lemma UnaryFacts<W>(sem: Semantics<W>, e: Expr, put: bool, w: W)
    requires e.Unary?
    ensures var (w1, a) := Eval(sem, e.operand, w);
      && (Leaks(sem, e, put, w) <==> if ByGetter(e.uop) then Leaks(sem, e.operand, true, w) else LeaksX(sem, e.operand, true, w))
      && Eval(sem, e, w) == (if a.Raise? then (w1, a) else ApplyUnary(sem, e.uop, a.value, w1))
      && Gets(sem, e, w) == if a.Raise? then GetsOperand(sem, e, w) else ApplyUnary(sem, e.uop, a.value, w1)
  {
    FoldsRaise(sem, e.operand, w);
    hide Rethrown;
  }

  lemma {:induction false} VoidRuns<W(!new)>(sem: Semantics<W>, e: Expr, put: bool, code: seq<Instr>, pc: nat, s: seq<Value>, w: W)
    requires Lawful(sem) && WellFormed(e) && e.Void? && At(code, pc, Getter(sem, e, put)) && !Leaks(sem, e, put, w)
    ensures Runs(sem, code, pc, |Getter(sem, e, put)|, s, w, Gets(sem, e, w), put)
    decreases e, 0
  {
    var c := EmitExpr(sem, e.operand, false);
    VoidFacts(sem, e, put, w);
    hide Run, Getter, EmitExpr, Eval, Leaks, Folds, FoldsX, Rethrown, At, Runs;
    AtSplit(code, pc, c, if put then [LoadVal(Undefined)] else []);
    ExprRuns(sem, e.operand, false, code, pc, s, w);
    ThenUndefined(sem, code, pc, |c|, s, w, GetsX(sem, e.operand, w), put);
  }

  lemma VoidFacts<W>(sem: Semantics<W>, e: Expr, put: bool, w: W)
    requires e.Void?
    ensures Getter(sem, e, put) == EmitExpr(sem, e.operand, false) + (if put then [LoadVal(Undefined)] else [])
    ensures Leaks(sem, e, put, w) == LeaksX(sem, e.operand, false, w)
    ensures var x := GetsX(sem, e.operand, w); Gets(sem, e, w) == if x.1.Raise? then x else (x.0, Ok(Undefined))
  {
    hide Rethrown;
  }

  lemma ThenUndefined<W>(sem: Semantics<W>, code: seq<Instr>, pc: nat, n: nat, s: seq<Value>, w: W, x: (W, Result), put: bool)
    requires Runs(sem, code, pc, n, s, w, x, false) && At(code, pc + n, if put then [LoadVal(Undefined)] else [])
    ensures Runs(sem, code, pc, n + Tally(put), s, w, if x.1.Raise? then x else (x.0, Ok(Undefined)), put)
  {
    hide Run, At;
    if put && x.1.Ok? {
      OneRuns(sem, code, pc + n, s, x.0, LoadVal(Undefined));
    }
  }

  function Tally(put: bool): nat { if put then 1 else 0 }

  /** Left operand, right operand, operator. */
  lemma ThenOperator<W>(sem: Semantics<W>, code: seq<Instr>, pc: nat, l: nat, r: nat, s: seq<Value>, w: W, x: (W, Result), y: (W, Result), op: Op, z: (W, Result))
    requires Runs(sem, code, pc, l, s, w, x, true)
    requires x.1.Ok? ==> Runs(sem, code, pc + l, r, s + [x.1.value], x.0, y, true)
    requires At(code, pc + l + r, [BinaryOp(op)])
    requires z == if x.1.Raise? then x else if y.1.Raise? then y else Apply(sem, op, x.1.value, y.1.value, y.0)
    ensures Runs(sem, code, pc, l + r + 1, s, w, z, true)
  {
    hide Run, At, Apply;
    if x.1.Ok? && y.1.Ok? {
      OperatorRuns(sem, code, pc + l + r, s, y.0, op, x.1.value, y.1.value);
    }
  }

  lemma BinaryParts<W>(sem: Semantics<W>, e: Expr, put: bool, code: seq<Instr>, pc: nat)
    requires e.Binary? && At(code, pc, Getter(sem, e, put))
    ensures var lc, rc := EmitExpr(sem, e.left, true), EmitExpr(sem, e.right, true);
            && At(code, pc, lc) && At(code, pc + |lc|, rc) && At(code, pc + |lc| + |rc|, [BinaryOp(e.op)])
            && At(code, pc + |lc| + |rc| + 1, PopUnless(put))
            && |Getter(sem, e, put)| == |lc| + |rc| + 1 + |PopUnless(put)|
  {
    hide EmitExpr, At;
    var lc, rc := EmitExpr(sem, e.left, true), EmitExpr(sem, e.right, true);
    AtSplit(code, pc, lc + rc + [BinaryOp(e.op)], PopUnless(put));
    AtSplit(code, pc, lc + rc, [BinaryOp(e.op)]);
    AtSplit(code, pc, lc, rc);
  }

  lemma ConditionalParts<W>(sem: Semantics<W>, e: Expr, put: bool, code: seq<Instr>, pc: nat)
    requires e.Conditional? && At(code, pc, Getter(sem, e, put))
    ensures var tc, cc, ac := Getter(sem, e.test, true), Getter(sem, e.consequent, put), Getter(sem, e.alternate, put);
            && At(code, pc, tc) && At(code, pc + |tc|, [JneP(|cc| + 2)]) && At(code, pc + |tc| + 1, cc)
            && At(code, pc + |tc| + 1 + |cc|, [Jump(|ac| + 1)]) && At(code, pc + |tc| + |cc| + 2, ac)
            && |Getter(sem, e, put)| == |tc| + |cc| + 2 + |ac|
  {
    hide At;
    var tc, cc, ac := Getter(sem, e.test, true), Getter(sem, e.consequent, put), Getter(sem, e.alternate, put);
    var j, k := [JneP(|cc| + 2)], [Jump(|ac| + 1)];
    assert Getter(sem, e, put) == tc + j + cc + k + ac;
    hide Getter;
    AtSplit(code, pc, tc + j + cc + k, ac);
    AtSplit(code, pc, tc + j + cc, k);
    AtSplit(code, pc, tc + j, cc);
    AtSplit(code, pc, tc, j);
  }

  lemma LogicalParts<W>(sem: Semantics<W>, e: Expr, put: bool, code: seq<Instr>, pc: nat)
    requires IsLogical(e) && !IsConst(sem, e.left) && At(code, pc, Getter(sem, e, put))
    ensures var lc, rc := LeftCode(sem, e), EmitExpr(sem, e.right, true);
            && At(code, pc, lc) && At(code, pc + |lc|, [LogicalJump(e, |rc| + 1)]) && At(code, pc + |lc| + 1, rc)
            && At(code, pc + |lc| + 1 + |rc|, PopUnless(put))
            && |Getter(sem, e, put)| == |lc| + 1 + |rc| + |PopUnless(put)|
  {
    hide EmitExpr, At, LeftCode;
    var lc, rc := LeftCode(sem, e), EmitExpr(sem, e.right, true);
    var j := [LogicalJump(e, |rc| + 1)];
    assert Getter(sem, e, put) == lc + j + rc + PopUnless(put);
    AtSplit(code, pc, lc + j + rc, PopUnless(put));
    AtSplit(code, pc, lc + j, rc);
    AtSplit(code, pc, lc, j);
  }

  lemma {:induction false} ConditionalRuns<W(!new)>(sem: Semantics<W>, e: Expr, put: bool, code: seq<Instr>, pc: nat, s: seq<Value>, w: W)
    requires Lawful(sem) && WellFormed(e) && e.Conditional? && At(code, pc, Getter(sem, e, put)) && !Leaks(sem, e, put, w)
    ensures Runs(sem, code, pc, |Getter(sem, e, put)|, s, w, Gets(sem, e, w), put)
    decreases e, 0
  {
    hide Run, Getter, GetterItems, LeftCode, EmitExpr, EmitConst, EvalConst, IsConst, Eval, EvalItems, Leaks, LeaksX, LeaksItems, LeaksLeft, At, Runs;
    hide Folds, FoldsX, Rethrown;
    var tc, cc, ac := Getter(sem, e.test, true), Getter(sem, e.consequent, put), Getter(sem, e.alternate, put);
    ConditionalParts(sem, e, put, code, pc);
    ConditionalFacts(sem, e, put, w);
    var (w1, v) := Eval(sem, e.test, w);
    GetterRuns(sem, e.test, true, code, pc, s, w);
    if v.Ok? {
      if Truthy(v.value) {
        GetterRuns(sem, e.consequent, put, code, pc + |tc| + 1, s, w1);
      } else {
        GetterRuns(sem, e.alternate, put, code, pc + |tc| + |cc| + 2, s, w1);
      }
      ThenBranch(sem, code, pc, |tc|, |cc|, |ac|, s, w, w1, v.value, Gets(sem, e, w), put);
    } else {
      RaisedEarly(sem, code, pc, |tc|, |tc| + |cc| + 2 + |ac|, s, w, Gets(sem, e.test, w), put);
    }
  }

  lemma ConditionalFacts<W>(sem: Semantics<W>, e: Expr, put: bool, w: W)
    requires e.Conditional?
    ensures var (w1, v) := Eval(sem, e.test, w);
            && (Leaks(sem, e, put, w) <==>
                  (Leaks(sem, e.test, true, w) || (v.Ok? && Leaks(sem, if Truthy(v.value) then e.consequent else e.alternate, put, w1))))
            && Eval(sem, e, w) == (if v.Raise? then (w1, v) else Eval(sem, if Truthy(v.value) then e.consequent else e.alternate, w1))
            && Gets(sem, e, w)
               == if v.Raise? then Gets(sem, e.test, w) else Gets(sem, if Truthy(v.value) then e.consequent else e.alternate, w1)
  {
  }

  lemma BinaryFacts<W>(sem: Semantics<W>, e: Expr, put: bool, w: W)
    requires e.Binary?
    ensures var (w1, a) := Eval(sem, e.left, w);
            var (w2, b) := Eval(sem, e.right, w1);
            && (Leaks(sem, e, put, w) <==> LeaksX(sem, e.left, true, w) || (a.Ok? && LeaksX(sem, e.right, true, w1)))
            && Eval(sem, e, w) == (if a.Raise? then (w1, a) else if b.Raise? then (w2, b) else Apply(sem, e.op, a.value, b.value, w2))
            && Gets(sem, e, w)
               == if a.Raise? then GetsX(sem, e.left, w) else if b.Raise? then GetsX(sem, e.right, w1) else Apply(sem, e.op, a.value, b.value, w2)
  {
    FoldsRaise(sem, e.left, w);
    FoldsRaise(sem, e.right, Eval(sem, e.left, w).0);
    hide Rethrown;
  }

  ghost function GetsLeft<W>(sem: Semantics<W>, e: Expr, w: W): (W, Result)
    requires IsLogical(e)
  {
    if e.LogicalAnd? then Gets(sem, e.left, w) else GetsX(sem, e.left, w)
  }

  lemma LogicalFacts<W>(sem: Semantics<W>, e: Expr, put: bool, w: W)
    requires IsLogical(e)
    ensures var (w1, v) := Eval(sem, e.left, w);
            && (!IsConst(sem, e.left) ==>
                  (Leaks(sem, e, put, w) <==> LeaksLeft(sem, e, w) || (v.Ok? && !Decides(e, v.value) && LeaksX(sem, e.right, true, w1))))
            && Eval(sem, e, w) == (if v.Raise? || Decides(e, v.value) then (w1, v) else Eval(sem, e.right, w1))
            && (!IsConst(sem, e.left) ==>
                  Gets(sem, e, w) == if v.Raise? then GetsLeft(sem, e, w) else if Decides(e, v.value) then (w1, v) else GetsX(sem, e.right, w1))
  {
    FoldsRaise(sem, e.left, w);
    FoldsRaise(sem, e.right, Eval(sem, e.left, w).0);
    hide LeaksX, LeaksLeft, FoldsX, Rethrown;
    if !IsConst(sem, e.left) {
      var (w1, v) := Eval(sem, e.left, w);
      if v.Raise? {
        assert Folds(sem, e, w) == FoldsLeft(sem, e, w);
      } else {
        assert Folds(sem, e, w) == (Eval(sem, e, w).1.Raise? && !Decides(e, v.value) && FoldsX(sem, e.right, w1));
      }
    }
  }

  /** A part that throws decides for the whole. */
  lemma RaisedEarly<W>(sem: Semantics<W>, code: seq<Instr>, pc: nat, n: nat, m: nat, s: seq<Value>, w: W, r: (W, Result), put: bool)
    requires Runs(sem, code, pc, n, s, w, r, true) && r.1.Raise?
    ensures Runs(sem, code, pc, m, s, w, r, put)
  {
  }

  /** Test, conditional jump, one branch, and the jump over the other. */
  lemma ThenBranch<W>(sem: Semantics<W>, code: seq<Instr>, pc: nat, t: nat, c: nat, a: nat, s: seq<Value>, w: W, w1: W, v: Value, r: (W, Result), put: bool)
    requires Runs(sem, code, pc, t, s, w, (w1, Ok(v)), true)
    requires At(code, pc + t, [JneP(c + 2)]) && At(code, pc + t + 1 + c, [Jump(a + 1)])
    requires Truthy(v) ==> Runs(sem, code, pc + t + 1, c, s, w1, r, put)
    requires !Truthy(v) ==> Runs(sem, code, pc + t + c + 2, a, s, w1, r, put)
    ensures Runs(sem, code, pc, t + c + 2 + a, s, w, r, put)
  {
    hide Run, At;
    JneRuns(sem, code, pc + t, s, w1, v, c + 2);
    if Truthy(v) && r.1.Ok? {
      OneRuns(sem, code, pc + t + 1 + c, Push(s, put, r.1.value), r.0, Jump(a + 1));
    }
  }

  ghost function GetsItems<W>(sem: Semantics<W>, es: seq<Expr>, w: W): (W, Result) {
    Emitted(sem, EvalItems(sem, es, w), FoldsItems(sem, es, w))
  }

  lemma {:induction false} ItemsRun<W(!new)>(sem: Semantics<W>, es: seq<Expr>, put: bool, code: seq<Instr>, pc: nat, s: seq<Value>, w: W)
    requires Lawful(sem) && es != [] && (forall i :: 0 <= i < |es| ==> WellFormed(es[i]))
    requires At(code, pc, GetterItems(sem, es, put)) && !LeaksItems(sem, es, put, w)
    ensures Runs(sem, code, pc, |GetterItems(sem, es, put)|, s, w, GetsItems(sem, es, w), put)
    decreases es, 0
  {
    hide Run, Getter, Eval, Leaks, Folds, Rethrown;
    if |es| == 1 {
      GetterRuns(sem, es[0], put, code, pc, s, w);
    } else {
      var c := Getter(sem, es[0], false);
      AtSplit(code, pc, c, GetterItems(sem, es[1..], put));
      GetterRuns(sem, es[0], false, code, pc, s, w);
      var (w1, v) := Eval(sem, es[0], w);
      if v.Ok? {
        ItemsRun(sem, es[1..], put, code, pc + |c|, s, w1);
      }
    }
  }

  lemma {:induction false} LogicalRuns<W(!new)>(sem: Semantics<W>, e: Expr, put: bool, code: seq<Instr>, pc: nat, s: seq<Value>, w: W)
    requires Lawful(sem) && WellFormed(e) && IsLogical(e) && At(code, pc, Getter(sem, e, put)) && !Leaks(sem, e, put, w)
    ensures Runs(sem, code, pc, |Getter(sem, e, put)|, s, w, Gets(sem, e, w), put)
    decreases e, 1
  {
    hide Run, Getter, GetterItems, LeftCode, EmitExpr, EmitConst, EvalConst, IsConst, Eval, EvalItems, Leaks, LeaksX, LeaksItems, LeaksLeft, At, Runs;
    hide Folds, FoldsX, FoldsLeft, Rethrown;
    if IsConst(sem, e.left) {
      ConstLeftRuns(sem, e, put, code, pc, s, w);
    } else {
      var lc, rc := LeftCode(sem, e), EmitExpr(sem, e.right, true);
      LogicalParts(sem, e, put, code, pc);
      LogicalFacts(sem, e, put, w);
      var (w1, v) := Eval(sem, e.left, w);
      LeftRuns(sem, e, code, pc, s, w);
      if v.Ok? {
        if !Decides(e, v.value) {
          ExprRuns(sem, e.right, true, code, pc + |lc| + 1, s, w1);
        }
        ThenRight(sem, e, code, pc, |lc|, |rc|, s, w, w1, v.value, Gets(sem, e, w));
      } else {
        RaisedEarly(sem, code, pc, |lc|, |lc| + 1 + |rc|, s, w, GetsLeft(sem, e, w), true);
      }
      ThenPop(sem, code, pc, |lc| + 1 + |rc|, s, w, Gets(sem, e, w), put);
    }
  }

  /** Left operand, conditional jump, right operand. */
  lemma ThenRight<W>(sem: Semantics<W>, e: Expr, code: seq<Instr>, pc: nat, l: nat, r: nat, s: seq<Value>, w: W, w1: W, v: Value, x: (W, Result))
    requires IsLogical(e) && Runs(sem, code, pc, l, s, w, (w1, Ok(v)), true)
    requires At(code, pc + l, [LogicalJump(e, r + 1)])
    requires if Decides(e, v) then x == (w1, Ok(v)) else Runs(sem, code, pc + l + 1, r, s, w1, x, true)
    ensures Runs(sem, code, pc, l + 1 + r, s, w, x, true)
  {
    hide Run, At;
    LogicalJumpRuns(sem, code, pc + l, s, w1, e, v, r + 1);
  }

  lemma {:induction false} LeftRuns<W(!new)>(sem: Semantics<W>, e: Expr, code: seq<Instr>, pc: nat, s: seq<Value>, w: W)
    requires Lawful(sem) && WellFormed(e) && IsLogical(e) && At(code, pc, LeftCode(sem, e)) && !LeaksLeft(sem, e, w)
    ensures Runs(sem, code, pc, |LeftCode(sem, e)|, s, w, GetsLeft(sem, e, w), true)
    decreases e.left, 5
  {
    hide Run, Getter, EmitExpr, Eval, Leaks, LeaksX, Folds, FoldsX, Rethrown;
    if e.LogicalAnd? {
      GetterRuns(sem, e.left, true, code, pc, s, w);
    } else {
      ExprRuns(sem, e.left, true, code, pc, s, w);
    }
  }

  lemma {:induction false} ConstLeftRuns<W(!new)>(sem: Semantics<W>, e: Expr, put: bool, code: seq<Instr>, pc: nat, s: seq<Value>, w: W)
    requires Lawful(sem) && WellFormed(e) && IsLogical(e) && IsConst(sem, e.left)
    requires At(code, pc, Getter(sem, e, put)) && !Leaks(sem, e, put, w)
    ensures Runs(sem, code, pc, |Getter(sem, e, put)|, s, w, Gets(sem, e, w), put)
    decreases e, 0
  {
    EvalConstRight(sem, e.left);
    var c := EvalConst(sem, e.left);
    assert Eval(sem, e.left, w) == (w, c);
    match c
    case Ok(v) =>
      if !Decides(e, v) {
        assert Eval(sem, e, w) == Eval(sem, e.right, w);
        ExprRuns(sem, e.right, put, code, pc, s, w);
      } else if put {
        OneRuns(sem, code, pc, s, w, LoadVal(v));
      }
    case Raise(x) => ThrowRuns(sem, code, pc, s, w, x);
  }
}
