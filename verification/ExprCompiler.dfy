/** The expression compiler as the repository has it: code is appended to the current program, jumps
    are emitted as holes and patched, and folding emits into the program of the compiler's own machine,
    runs it, and cuts it back. */
module ExprCompiler {
  import opened Options
  import opened ExprSpec
  import opened ExprProofs

  /** Code does not depend on what precedes it. */
  lemma {:induction false} RunShift<W>(sem: Semantics<W>, pre: seq<Instr>, c: seq<Instr>, pc: nat, s: seq<Value>, w: W)
    ensures Run(sem, pre + c, |pre| + pc, s, w) == Run(sem, c, pc, s, w)
    decreases |c| - pc
  {
    if pc < |c| {
      assert (pre + c)[|pre| + pc] == c[pc];
      hide Exec;
      var x := Exec(sem, c[pc], s, w);
      if x.Go? && x.n > 0 {
        RunShift(sem, pre, c, pc + x.n, x.stack, x.w);
      }
    }
  }

  lemma Patched(a: seq<Instr>, x: Instr, b: seq<Instr>, i: Instr)
    ensures (a + [x] + b)[|a| := i] == a + [i] + b
  {
  }

  lemma ConditionalCode<W>(sem: Semantics<W>, e: Expr, put: bool)
    requires e.Conditional?
    ensures var tc, cc, ac := Getter(sem, e.test, true), Getter(sem, e.consequent, put), Getter(sem, e.alternate, put);
            Getter(sem, e, put) == tc + [JneP(|cc| + 2)] + cc + [Jump(|ac| + 1)] + ac
  {
  }

  lemma LogicalCode<W>(sem: Semantics<W>, e: Expr, put: bool)
    requires IsLogical(e) && !IsConst(sem, e.left)
    ensures var rc := EmitExpr(sem, e.right, true);
            Getter(sem, e, put) == LeftCode(sem, e) + [LogicalJump(e, |rc| + 1)] + rc + PopUnless(put)
  {
  }

  class Compiler<W(!new)> {
    const sem: Semantics<W>
    var code: seq<Instr>   // of the current program
    var evaluating: bool   // the current program is that of the compiler's own machine

    constructor (semantics: Semantics<W>)
      ensures sem == semantics && code == [] && !evaluating
    {
      sem, code, evaluating := semantics, [], false;
    }

    method Emit(i: Instr)
      modifies this
      ensures code == old(code) + [i] && evaluating == old(evaluating)
    {
      code := code + [i];
    }

    method Patch(at: nat, i: Instr)
      requires at < |code|
      modifies this
      ensures code == old(code)[at := i] && evaluating == old(evaluating)
    {
      code := code[at := i];
    }

    method EmitThrow(x: Value)
      requires x.ErrorObject?
      modifies this
      ensures code == old(code) + ThrowCode(x) && evaluating == old(evaluating)
    {
      Emit(LoadDynamic(x.name));
      if x.message.Some? {
        Emit(LoadVal(Str(x.message.value)));
        Emit(New(1));
      } else {
        Emit(New(0));
      }
      Emit(Throw);
    }

    method Constant(e: Expr) returns (b: bool)
      requires Lawful(sem) && WellFormed(e)
      modifies this
      ensures b == IsConst(sem, e) && code == old(code) && evaluating == old(evaluating)
      decreases e, 0
    {
      if e.Literal? {
        return true;
      }
      if e.Unary? || e.Void? {
        b := Constant(e.operand);
        return;
      }
      if e.Binary? {
        b := Constant(e.left);
        if b {
          b := Constant(e.right);
        }
        return;
      }
      if IsLogical(e) {
        b := Constant(e.left);
        if b {
          var r := EvaluateConst(e.left);
          if r.Ok? && !Decides(e, r.value) {
            b := Constant(e.right);
          }
        }
        return;
      }
      return false;
    }

    method EvaluateConst(e: Expr) returns (r: Result)
      requires Lawful(sem) && WellFormed(e)
      modifies this
      ensures r == EvalConst(sem, e) && code == old(code) && evaluating == old(evaluating)
      decreases e, 3
    {
      if e.Literal? {
        return Ok(e.v);
      }
      var saved, created := code, !evaluating;
      if created {
        code, evaluating := [], true;
      }
      var savedPc := |code|;
      ghost var pre := code;
      EmitGetter(e, true);
      var outcome := Run(sem, code, savedPc, [], sem.evalWorld);
      RunShift(sem, pre, Getter(sem, e, true), 0, [], sem.evalWorld);
      if created {
        code, evaluating := saved, false;
      } else {
        code := code[..savedPc];
      }
      match outcome {
        case Halted(stack, _) => r := if stack == [] then Ok(Undefined) else Ok(Top(stack));
        case Raised(x, _) => r := Raise(x);
        case Stuck => r := Ok(Undefined);
      }
    }

    method EmitConstant(e: Expr, putOnStack: bool)
      requires Lawful(sem) && WellFormed(e) && IsConst(sem, e)
      modifies this
      ensures code == old(code) + EmitConst(sem, e, putOnStack) && evaluating == old(evaluating)
      decreases e, 4
    {
      EvalConstRight(sem, e);
      var r := EvaluateConst(e);
      match r {
        case Ok(v) =>
          if putOnStack {
            Emit(LoadVal(v));
          }
        case Raise(x) => EmitThrow(x);
      }
    }

    method EmitExpression(e: Expr, putOnStack: bool)
      requires Lawful(sem) && WellFormed(e)
      modifies this
      ensures code == old(code) + EmitExpr(sem, e, putOnStack) && evaluating == old(evaluating)
      decreases e, 5
    {
      var c := Constant(e);
      if c {
        EmitConstant(e, putOnStack);
      } else {
        EmitGetter(e, putOnStack);
      }
    }

    method EmitGetter(e: Expr, putOnStack: bool)
      requires Lawful(sem) && WellFormed(e)
      modifies this
      ensures code == old(code) + Getter(sem, e, putOnStack) && evaluating == old(evaluating)
      decreases e, 2
    {
      match e {
        case Literal(v) =>
          if putOnStack {
            Emit(LoadVal(v));
          }
        case Other(id) =>
          Emit(Ext(id));
          if !putOnStack {
            Emit(Pop);
          }
        case Unary(_, _) => EmitUnary(e, putOnStack);
        case Void(o) =>
          EmitExpression(o, false);
          if putOnStack {
            Emit(LoadVal(Undefined));
          }
        case Binary(_, _, _) => EmitBinary(e, putOnStack);
        case Conditional(t, c, a) => EmitConditional(e, putOnStack);
        case Sequence(_) => EmitSequence(e, putOnStack);
        case _ => EmitLogical(e, putOnStack);
      }
    }

    method EmitUnary(e: Expr, putOnStack: bool)
      requires Lawful(sem) && WellFormed(e) && e.Unary?
      modifies this
      ensures code == old(code) + Getter(sem, e, putOnStack) && evaluating == old(evaluating)
      decreases e, 0
    {
      hide Run, EvalConst, IsConst, EmitExpr;
      if ByGetter(e.uop) {
        EmitGetter(e.operand, true);
      } else {
        EmitExpression(e.operand, true);
      }
      Emit(UnaryInstr(e.uop));
      if !putOnStack {
        Emit(Pop);
      }
    }

    method EmitBinary(e: Expr, putOnStack: bool)
      requires Lawful(sem) && WellFormed(e) && e.Binary?
      modifies this
      ensures code == old(code) + Getter(sem, e, putOnStack) && evaluating == old(evaluating)
      decreases e, 0
    {
      hide Run, EvalConst, IsConst, EmitExpr;
      EmitExpression(e.left, true);
      EmitExpression(e.right, true);
      Emit(BinaryOp(e.op));
      if !putOnStack {
        Emit(Pop);
      }
    }

    method EmitSequence(e: Expr, putOnStack: bool)
      requires Lawful(sem) && WellFormed(e) && e.Sequence?
      modifies this
      ensures code == old(code) + Getter(sem, e, putOnStack) && evaluating == old(evaluating)
      decreases e, 0
    {
      ghost var start := code;
      var es := e.items;
      assert Getter(sem, e, putOnStack) == GetterItems(sem, es, putOnStack);
      hide Run, EvalConst, IsConst, EmitExpr, Getter;
      for i := 0 to |es| - 1
        invariant evaluating == old(evaluating)
        invariant code + GetterItems(sem, es[i..], putOnStack) == start + GetterItems(sem, es, putOnStack)
      {
        assert es[i..][0] == es[i] && es[i..][1..] == es[i + 1..];
        EmitGetter(es[i], false);
      }
      assert es[|es| - 1..] == [es[|es| - 1]];
      EmitGetter(es[|es| - 1], putOnStack);
    }

    method EmitConditional(e: Expr, putOnStack: bool)
      requires Lawful(sem) && WellFormed(e) && e.Conditional?
      modifies this
      ensures code == old(code) + Getter(sem, e, putOnStack) && evaluating == old(evaluating)
      decreases e, 0
    {
      hide Run, Getter, GetterItems, LeftCode, EmitExpr, EmitConst, EvalConst, IsConst;
      ghost var o, tc, cc, ac := code, Getter(sem, e.test, true), Getter(sem, e.consequent, putOnStack), Getter(sem, e.alternate, putOnStack);
      ConditionalCode(sem, e, putOnStack);
      EmitGetter(e.test, true);
      var j := |code|;
      Emit(Hole);
      EmitGetter(e.consequent, putOnStack);
      var j1 := |code|;
      Emit(Hole);
      assert code == (o + tc) + [Hole] + (cc + [Hole]);
      Patched(o + tc, Hole, cc + [Hole], JneP(|code| - j));
      Patch(j, JneP(|code| - j));
      EmitGetter(e.alternate, putOnStack);
      assert code == (o + tc + [JneP(|cc| + 2)] + cc) + [Hole] + ac;
      Patched(o + tc + [JneP(|cc| + 2)] + cc, Hole, ac, Jump(|code| - j1));
      Patch(j1, Jump(|code| - j1));
      assert code == o + (tc + [JneP(|cc| + 2)] + cc + [Jump(|ac| + 1)] + ac);
    }

    method EmitLogical(e: Expr, putOnStack: bool)
      requires Lawful(sem) && WellFormed(e) && IsLogical(e)
      modifies this
      ensures code == old(code) + Getter(sem, e, putOnStack) && evaluating == old(evaluating)
      decreases e, 1
    {
      var c := Constant(e.left);
      if c {
        EmitConstantLeft(e, putOnStack);
      } else {
        EmitJumping(e, putOnStack);
      }
    }

    method EmitConstantLeft(e: Expr, putOnStack: bool)
      requires Lawful(sem) && WellFormed(e) && IsLogical(e) && IsConst(sem, e.left)
      modifies this
      ensures code == old(code) + Getter(sem, e, putOnStack) && evaluating == old(evaluating)
      decreases e, 0
    {
      EvalConstRight(sem, e.left);
      var r := EvaluateConst(e.left);
      match r {
        case Ok(v) =>
          if !Decides(e, v) {
            EmitExpression(e.right, putOnStack);
          } else if putOnStack || e.LogicalAnd? {
            Emit(LoadVal(v));
          }
        case Raise(x) => EmitThrow(x);
      }
    }

    method EmitJumping(e: Expr, putOnStack: bool)
      requires Lawful(sem) && WellFormed(e) && IsLogical(e) && !IsConst(sem, e.left)
      modifies this
      ensures code == old(code) + Getter(sem, e, putOnStack) && evaluating == old(evaluating)
      decreases e, 0
    {
      hide Run, Getter, GetterItems, EmitExpr, EmitConst, EvalConst, IsConst;
      ghost var o, lc, rc := code, LeftCode(sem, e), EmitExpr(sem, e.right, true);
      LogicalCode(sem, e, putOnStack);
      if e.LogicalAnd? {
        EmitGetter(e.left, true);
      } else {
        EmitExpression(e.left, true);
      }
      var j := |code|;
      Emit(Hole);
      EmitExpression(e.right, true);
      assert code == (o + lc) + [Hole] + rc;
      Patched(o + lc, Hole, rc, LogicalJump(e, |code| - j));
      Patch(j, LogicalJump(e, |code| - j));
      if !putOnStack {
        Emit(Pop);
      }
      assert code == o + (lc + [LogicalJump(e, |rc| + 1)] + rc + PopUnless(putOnStack));
    }
  }
}
