/** The other half: once a discarded && has left its operand behind, the stack stays too deep, so the
    emitted code is right exactly when that does not happen. */
module ExprLeaks {
  import opened Options
  import opened ExprSpec
  import opened ExprProofs

  /** Where running a piece of code to its end leads: to an exception, or to a stack and a world. */
  datatype Reach<W> = Threw | Reached(stack: seq<Value>, w: W)

  /** The n instructions at pc lead to `to`, at least `need` values deeper than the stack s. */
  ghost predicate Leads<W>(sem: Semantics<W>, code: seq<Instr>, pc: nat, n: nat, s: seq<Value>, w: W, to: Reach<W>, need: nat) {
    match to
    case Threw => Run(sem, code, pc, s, w).Raised?
    case Reached(s', w') => Run(sem, code, pc, s, w) == Run(sem, code, pc + n, s', w') && s <= s' && |s'| >= |s| + need
  }

  function Need(put: bool): nat {
    if put then 1 else 0
  }

  lemma ThenPopLeads<W>(sem: Semantics<W>, code: seq<Instr>, pc: nat, n: nat, s: seq<Value>, w: W, to: Reach<W>, put: bool, extra: nat)
    returns (r: Reach<W>)
    requires Leads(sem, code, pc, n, s, w, to, 1 + extra) && At(code, pc + n, PopUnless(put))
    ensures Leads(sem, code, pc, n + |PopUnless(put)|, s, w, r, Need(put) + extra)
  {
    hide Run, At;
    r := to;
    if !put && to.Reached? {
      OneRuns(sem, code, pc + n, to.stack, to.w, Pop);
      r := Reached(Drop(to.stack), to.w);
    }
  }

  lemma OperatorLeads<W>(sem: Semantics<W>, code: seq<Instr>, pc: nat, l: nat, r: nat, s: seq<Value>, w: W, a: Reach<W>, b: Reach<W>, op: Op,
                         x: nat, y: nat) returns (z: Reach<W>)
    requires Leads(sem, code, pc, l, s, w, a, 1 + x)
    requires a.Reached? ==> Leads(sem, code, pc + l, r, a.stack, a.w, b, 1 + y)
    requires At(code, pc + l + r, [BinaryOp(op)])
    ensures Leads(sem, code, pc, l + r + 1, s, w, z, 1 + x + y)
  {
    hide Run, At;
    if a.Threw? || b.Threw? {
      return Threw;
    }
    var t := b.stack;
    var u := Drop(Drop(t));
    assert t == u + [Top(Drop(t))] + [Top(t)];
    OperatorRuns(sem, code, pc + l + r, u, b.w, op, Top(Drop(t)), Top(t));
    var (w1, v) := Apply(sem, op, Top(Drop(t)), Top(t), b.w);
    z := if v.Ok? then Reached(u + [v.value], w1) else Threw;
    assert s <= u && (v.Ok? ==> s <= u + [v.value]);
  }

  lemma BranchLeads<W>(sem: Semantics<W>, code: seq<Instr>, pc: nat, t: nat, c: nat, a: nat, s: seq<Value>, w: W,
                       test: Reach<W>, branch: Reach<W>, need: nat, x: nat, y: nat)
    requires Leads(sem, code, pc, t, s, w, test, 1 + x)
    requires At(code, pc + t, [JneP(c + 2)]) && At(code, pc + t + 1 + c, [Jump(a + 1)])
    requires test.Threw? ==> branch.Threw?
    requires test.Reached? ==>
               if Truthy(Top(test.stack)) then Leads(sem, code, pc + t + 1, c, Drop(test.stack), test.w, branch, need + y)
               else Leads(sem, code, pc + t + c + 2, a, Drop(test.stack), test.w, branch, need + y)
    ensures Leads(sem, code, pc, t + c + 2 + a, s, w, branch, need + x + y)
  {
    hide Run, At;
    if test.Reached? {
      var u := Drop(test.stack);
      assert test.stack == u + [Top(test.stack)];
      JneRuns(sem, code, pc + t, u, test.w, Top(test.stack), c + 2);
      if Truthy(Top(test.stack)) && branch.Reached? {
        OneRuns(sem, code, pc + t + 1 + c, branch.stack, branch.w, Jump(a + 1));
      }
    }
  }

  lemma LogicalLeads<W>(sem: Semantics<W>, e: Expr, code: seq<Instr>, pc: nat, l: nat, r: nat, s: seq<Value>, w: W,
                        left: Reach<W>, right: Reach<W>, x: nat, y: nat)
    requires IsLogical(e) && Leads(sem, code, pc, l, s, w, left, 1 + x)
    requires At(code, pc + l, [LogicalJump(e, r + 1)])
    requires left.Threw? ==> right.Threw?
    requires left.Reached? ==>
               if Decides(e, Top(left.stack)) then right == left && y == 0
               else Leads(sem, code, pc + l + 1, r, Drop(left.stack), left.w, right, 1 + y)
    ensures Leads(sem, code, pc, l + 1 + r, s, w, right, 1 + x + y)
  {
    hide Run, At;
    if left.Reached? {
      var u := Drop(left.stack);
      assert left.stack == u + [Top(left.stack)];
      LogicalJumpRuns(sem, code, pc + l, u, left.w, e, Top(left.stack), r + 1);
    }
  }

  // ---------------------------------------------------------------- the stack never gets too shallow

  /** Code that runs as direct evaluation says leads where that says. */
  function Exact<W>(s: seq<Value>, put: bool, r: (W, Result)): Reach<W> {
    if r.1.Ok? then Reached(Push(s, put, r.1.value), r.0) else Threw
  }

  lemma RunsLeads<W>(sem: Semantics<W>, code: seq<Instr>, pc: nat, n: nat, s: seq<Value>, w: W, r: (W, Result), put: bool)
    requires Runs(sem, code, pc, n, s, w, r, put)
    ensures Leads(sem, code, pc, n, s, w, Exact(s, put, r), Need(put))
  {
    hide Run;
  }

  /** Getter code leads at least as deep as it should, and deeper if it reaches a leak. */
  lemma {:induction false} GetterLeads<W(!new)>(sem: Semantics<W>, e: Expr, put: bool, code: seq<Instr>, pc: nat, s: seq<Value>, w: W) returns (to: Reach<W>)
    requires Lawful(sem) && WellFormed(e) && At(code, pc, Getter(sem, e, put))
    ensures Leads(sem, code, pc, |Getter(sem, e, put)|, s, w, to, Need(put) + Need(Leaks(sem, e, put, w)))
    ensures !Leaks(sem, e, put, w) ==> to == Exact(s, put, Eval(sem, e, w))
    decreases e, 2
  {
    if !Leaks(sem, e, put, w) {
      to := Exact(s, put, Eval(sem, e, w));
      GetterRuns(sem, e, put, code, pc, s, w);
      hide Getter, Leaks, Eval, Runs, Leads, Folds, Rethrown;
      RunsLeads(sem, code, pc, |Getter(sem, e, put)|, s, w, Gets(sem, e, w), put);
    } else if e.Unary? {
      to := UnaryLeads(sem, e, put, code, pc, s, w);
    } else if e.Void? {
      to := VoidLeads(sem, e, put, code, pc, s, w);
    } else if e.Binary? {
      to := BinaryLeads(sem, e, put, code, pc, s, w);
    } else if e.Conditional? {
      to := ConditionalLeads(sem, e, put, code, pc, s, w);
    } else if e.Sequence? {
      to := ItemsLead(sem, e.items, put, code, pc, s, w);
    } else {
      to := LogicalExprLeads(sem, e, put, code, pc, s, w);
    }
  }

  lemma {:induction false} EmitExprLeads<W(!new)>(sem: Semantics<W>, e: Expr, put: bool, code: seq<Instr>, pc: nat, s: seq<Value>, w: W) returns (to: Reach<W>)
    requires Lawful(sem) && WellFormed(e) && At(code, pc, EmitExpr(sem, e, put))
    ensures Leads(sem, code, pc, |EmitExpr(sem, e, put)|, s, w, to, Need(put) + Need(LeaksX(sem, e, put, w)))
    ensures !LeaksX(sem, e, put, w) ==> to == Exact(s, put, Eval(sem, e, w))
    decreases e, 3
  {
    hide Run, Getter, Eval, Leaks, Leads, Runs, Folds, FoldsX, Rethrown;
    if IsConst(sem, e) {
      to := Exact(s, put, Eval(sem, e, w));
      ExprRuns(sem, e, put, code, pc, s, w);
      RunsLeads(sem, code, pc, |EmitExpr(sem, e, put)|, s, w, GetsX(sem, e, w), put);
    } else {
      to := GetterLeads(sem, e, put, code, pc, s, w);
    }
  }

  lemma {:induction false} BinaryLeads<W(!new)>(sem: Semantics<W>, e: Expr, put: bool, code: seq<Instr>, pc: nat, s: seq<Value>, w: W) returns (to: Reach<W>)
    requires Lawful(sem) && WellFormed(e) && e.Binary? && At(code, pc, Getter(sem, e, put)) && Leaks(sem, e, put, w)
    ensures Leads(sem, code, pc, |Getter(sem, e, put)|, s, w, to, Need(put) + 1)
    decreases e, 0
  {
    hide Run, Getter, GetterItems, LeftCode, EmitExpr, EmitConst, EvalConst, IsConst, Eval, EvalItems, Leaks, LeaksX, LeaksItems, LeaksLeft, At, Leads;
    var lc, rc := EmitExpr(sem, e.left, true), EmitExpr(sem, e.right, true);
    BinaryParts(sem, e, put, code, pc);
    BinaryFacts(sem, e, put, w);
    var a := EmitExprLeads(sem, e.left, true, code, pc, s, w);
    var b := Threw;
    var x, y := Need(LeaksX(sem, e.left, true, w)), 0;
    if a.Reached? {
      b := EmitExprLeads(sem, e.right, true, code, pc + |lc|, a.stack, a.w);
      y := Need(LeaksX(sem, e.right, true, a.w));
    }
    to := OperatorLeads(sem, code, pc, |lc|, |rc|, s, w, a, b, e.op, x, y);
    to := ThenPopLeads(sem, code, pc, |lc| + |rc| + 1, s, w, to, put, x + y);
    LeadsLess(sem, code, pc, |Getter(sem, e, put)|, s, w, to, Need(put) + x + y, Need(put) + 1);
  }

  lemma {:induction false} UnaryLeads<W(!new)>(sem: Semantics<W>, e: Expr, put: bool, code: seq<Instr>, pc: nat, s: seq<Value>, w: W) returns (to: Reach<W>)
    requires Lawful(sem) && WellFormed(e) && e.Unary? && At(code, pc, Getter(sem, e, put)) && Leaks(sem, e, put, w)
    ensures Leads(sem, code, pc, |Getter(sem, e, put)|, s, w, to, Need(put) + 1)
    decreases e, 0
  {
    hide Run, Getter, GetterItems, LeftCode, EmitExpr, EmitConst, EvalConst, IsConst, Eval, EvalItems, Leaks, LeaksX, LeaksItems, LeaksLeft, At, Leads;
    var c := OperandCode(sem, e);
    UnaryParts(sem, e, put, code, pc);
    UnaryFacts(sem, e, put, w);
    if ByGetter(e.uop) {
      to := GetterLeads(sem, e.operand, true, code, pc, s, w);
    } else {
      to := EmitExprLeads(sem, e.operand, true, code, pc, s, w);
    }
    to := UnaryInstrLeads(sem, code, pc, |c|, s, w, to, e.uop);
    to := ThenPopLeads(sem, code, pc, |c| + 1, s, w, to, put, 1);
  }

  lemma UnaryInstrLeads<W>(sem: Semantics<W>, code: seq<Instr>, pc: nat, n: nat, s: seq<Value>, w: W, a: Reach<W>, op: UnaryOp) returns (z: Reach<W>)
    requires Leads(sem, code, pc, n, s, w, a, 2) && At(code, pc + n, [UnaryInstr(op)])
    ensures Leads(sem, code, pc, n + 1, s, w, z, 2)
  {
    hide Run, At;
    if a.Threw? {
      return Threw;
    }
    var u := Drop(a.stack);
    assert a.stack == u + [Top(a.stack)];
    UnaryInstrRuns(sem, code, pc + n, u, a.w, op, Top(a.stack));
    var (w1, v) := ApplyUnary(sem, op, Top(a.stack), a.w);
    z := if v.Ok? then Reached(u + [v.value], w1) else Threw;
    assert s <= u && (v.Ok? ==> s <= u + [v.value]);
  }

  lemma {:induction false} VoidLeads<W(!new)>(sem: Semantics<W>, e: Expr, put: bool, code: seq<Instr>, pc: nat, s: seq<Value>, w: W) returns (to: Reach<W>)
    requires Lawful(sem) && WellFormed(e) && e.Void? && At(code, pc, Getter(sem, e, put)) && Leaks(sem, e, put, w)
    ensures Leads(sem, code, pc, |Getter(sem, e, put)|, s, w, to, Need(put) + 1)
    decreases e, 0
  {
    var c := EmitExpr(sem, e.operand, false);
    assert Getter(sem, e, put) == c + (if put then [LoadVal(Undefined)] else []);
    assert LeaksX(sem, e.operand, false, w);
    hide Run, Getter, EmitExpr, Eval, Leaks, LeaksX, At;
    AtSplit(code, pc, c, if put then [LoadVal(Undefined)] else []);
    to := EmitExprLeads(sem, e.operand, false, code, pc, s, w);
    if put && to.Reached? {
      OneRuns(sem, code, pc + |c|, to.stack, to.w, LoadVal(Undefined));
      to := Reached(to.stack + [Undefined], to.w);
    }
  }

  lemma LeadsLess<W>(sem: Semantics<W>, code: seq<Instr>, pc: nat, n: nat, s: seq<Value>, w: W, to: Reach<W>, need: nat, less: nat)
    requires Leads(sem, code, pc, n, s, w, to, need) && (to.Reached? ==> less <= need)
    ensures Leads(sem, code, pc, n, s, w, to, less)
    ensures to.Reached? ==> |to.stack| >= |s| + need
  {
  }

  lemma {:induction false} ConditionalLeads<W(!new)>(sem: Semantics<W>, e: Expr, put: bool, code: seq<Instr>, pc: nat, s: seq<Value>, w: W) returns (to: Reach<W>)
    requires Lawful(sem) && WellFormed(e) && e.Conditional? && At(code, pc, Getter(sem, e, put)) && Leaks(sem, e, put, w)
    ensures Leads(sem, code, pc, |Getter(sem, e, put)|, s, w, to, Need(put) + 1)
    decreases e, 0
  {
    hide Run, Getter, GetterItems, LeftCode, EmitExpr, EmitConst, EvalConst, IsConst, Eval, EvalItems, Leaks, LeaksX, LeaksItems, LeaksLeft, At, Leads;
    var tc, cc, ac := Getter(sem, e.test, true), Getter(sem, e.consequent, put), Getter(sem, e.alternate, put);
    ConditionalParts(sem, e, put, code, pc);
    ConditionalFacts(sem, e, put, w);
    var t := GetterLeads(sem, e.test, true, code, pc, s, w);
    to := Threw;
    var x, y := Need(Leaks(sem, e.test, true, w)), 0;
    LeadsLess(sem, code, pc, |tc|, s, w, t, 1 + x, 1);
    if t.Reached? {
      var u := Drop(t.stack);
      assert x == 0 ==> u == s;
      if Truthy(Top(t.stack)) {
        to := GetterLeads(sem, e.consequent, put, code, pc + |tc| + 1, u, t.w);
        y := Need(Leaks(sem, e.consequent, put, t.w));
      } else {
        to := GetterLeads(sem, e.alternate, put, code, pc + |tc| + |cc| + 2, u, t.w);
        y := Need(Leaks(sem, e.alternate, put, t.w));
      }
    }
    BranchLeads(sem, code, pc, |tc|, |cc|, |ac|, s, w, t, to, Need(put), x, y);
    LeadsLess(sem, code, pc, |Getter(sem, e, put)|, s, w, to, Need(put) + x + y, Need(put) + 1);
  }

  lemma {:induction false} ItemsLead<W(!new)>(sem: Semantics<W>, es: seq<Expr>, put: bool, code: seq<Instr>, pc: nat, s: seq<Value>, w: W) returns (to: Reach<W>)
    requires Lawful(sem) && es != [] && (forall i :: 0 <= i < |es| ==> WellFormed(es[i]))
    requires At(code, pc, GetterItems(sem, es, put))
    ensures Leads(sem, code, pc, |GetterItems(sem, es, put)|, s, w, to, Need(put) + Need(LeaksItems(sem, es, put, w)))
    decreases es, 0
  {
    hide Run, Getter, EmitExpr, EmitConst, EvalConst, IsConst, Eval, EvalItems, Leaks;
    if |es| == 1 {
      to := GetterLeads(sem, es[0], put, code, pc, s, w);
    } else {
      var c := Getter(sem, es[0], false);
      AtSplit(code, pc, c, GetterItems(sem, es[1..], put));
      to := GetterLeads(sem, es[0], false, code, pc, s, w);
      if to.Reached? {
        var first := to;
        to := ItemsLead(sem, es[1..], put, code, pc + |c|, first.stack, first.w);
      }
    }
  }

  lemma {:induction false} LogicalExprLeads<W(!new)>(sem: Semantics<W>, e: Expr, put: bool, code: seq<Instr>, pc: nat, s: seq<Value>, w: W) returns (to: Reach<W>)
    requires Lawful(sem) && WellFormed(e) && IsLogical(e) && At(code, pc, Getter(sem, e, put)) && Leaks(sem, e, put, w)
    ensures Leads(sem, code, pc, |Getter(sem, e, put)|, s, w, to, Need(put) + 1)
    decreases e, 1
  {
    if IsConst(sem, e.left) {
      var v := EvalConst(sem, e.left).value;
      if !Decides(e, v) {
        to := EmitExprLeads(sem, e.right, put, code, pc, s, w);
      } else {
        OneRuns(sem, code, pc, s, w, LoadVal(v));
        to := Reached(s + [v], w);
      }
    } else {
      to := LogicalRestLeads(sem, e, put, code, pc, s, w);
    }
  }

  lemma {:induction false} LeftLeads<W(!new)>(sem: Semantics<W>, e: Expr, code: seq<Instr>, pc: nat, s: seq<Value>, w: W) returns (to: Reach<W>)
    requires Lawful(sem) && WellFormed(e) && IsLogical(e) && At(code, pc, LeftCode(sem, e))
    ensures Leads(sem, code, pc, |LeftCode(sem, e)|, s, w, to, 1 + Need(LeaksLeft(sem, e, w)))
    ensures !LeaksLeft(sem, e, w) ==> to == Exact(s, true, Eval(sem, e.left, w))
    decreases e.left, 5
  {
    hide Run, Getter, EmitExpr, Eval, Leaks, LeaksX, Leads;
    if e.LogicalAnd? {
      to := GetterLeads(sem, e.left, true, code, pc, s, w);
    } else {
      to := EmitExprLeads(sem, e.left, true, code, pc, s, w);
    }
  }

  lemma {:induction false} LogicalRestLeads<W(!new)>(sem: Semantics<W>, e: Expr, put: bool, code: seq<Instr>, pc: nat, s: seq<Value>, w: W) returns (to: Reach<W>)
    requires Lawful(sem) && WellFormed(e) && IsLogical(e) && At(code, pc, Getter(sem, e, put)) && !IsConst(sem, e.left) && Leaks(sem, e, put, w)
    ensures Leads(sem, code, pc, |Getter(sem, e, put)|, s, w, to, Need(put) + 1)
    decreases e, 0
  {
    hide Run, Getter, GetterItems, LeftCode, EmitExpr, EmitConst, EvalConst, IsConst, Eval, EvalItems, Leaks, LeaksX, LeaksItems, LeaksLeft, At, Leads;
    var lc, rc := LeftCode(sem, e), EmitExpr(sem, e.right, true);
    LogicalParts(sem, e, put, code, pc);
    LogicalFacts(sem, e, put, w);
    var a := LeftLeads(sem, e, code, pc, s, w);
    var x := Need(LeaksLeft(sem, e, w));
    LeadsLess(sem, code, pc, |lc|, s, w, a, 1 + x, 1);
    var y;
    to, y := RightLeads(sem, e, code, pc + |lc| + 1, a);
    LogicalLeads(sem, e, code, pc, |lc|, |rc|, s, w, a, to, x, y);
    assert to.Reached? ==> x + y >= 1;
    to := ThenPopLeads(sem, code, pc, |lc| + 1 + |rc|, s, w, to, put, x + y);
    LeadsLess(sem, code, pc, |Getter(sem, e, put)|, s, w, to, Need(put) + x + y, Need(put) + 1);
  }

  lemma {:induction false} RightLeads<W(!new)>(sem: Semantics<W>, e: Expr, code: seq<Instr>, pc: nat, left: Reach<W>) returns (to: Reach<W>, y: nat)
    requires Lawful(sem) && WellFormed(e) && IsLogical(e) && At(code, pc, EmitExpr(sem, e.right, true))
    requires left.Reached? ==> left.stack != []
    ensures left.Threw? ==> to.Threw? && y == 0
    ensures left.Reached? && Decides(e, Top(left.stack)) ==> to == left && y == 0
    ensures left.Reached? && !Decides(e, Top(left.stack)) ==>
              && y == Need(LeaksX(sem, e.right, true, left.w))
              && Leads(sem, code, pc, |EmitExpr(sem, e.right, true)|, Drop(left.stack), left.w, to, 1 + y)
    decreases e.right, 5
  {
    hide Run, Getter, EmitExpr, Eval, Leaks, LeaksX, Leads;
    to, y := left, 0;
    if left.Reached? && !Decides(e, Top(left.stack)) {
      to := EmitExprLeads(sem, e.right, true, code, pc, Drop(left.stack), left.w);
      y := Need(LeaksX(sem, e.right, true, left.w));
    }
  }

  // ---------------------------------------------------------------- main results

  /** For an expression that completes, the code emitted by emitGetter halts with its value pushed (or
      nothing, if it is not wanted) on every stack exactly when it reaches no leak. */
  lemma GetterIsRightIff<W(!new)>(sem: Semantics<W>, e: Expr, put: bool, s: seq<Value>, w: W)
    requires Lawful(sem) && WellFormed(e) && Eval(sem, e, w).1.Ok?
    ensures var (w1, r) := Eval(sem, e, w);
            Run(sem, Getter(sem, e, put), 0, s, w) == Halted(Push(s, put, r.value), w1) <==> !Leaks(sem, e, put, w)
  {
    var code := Getter(sem, e, put);
    assert code[0..|code|] == code;
    hide Getter, Leaks, Eval;
    var to := GetterLeads(sem, e, put, code, 0, s, w);
  }

  /** The same for emitExpr, which folds constants first and so never leaks from a constant. */
  lemma EmitExprIsRightIff<W(!new)>(sem: Semantics<W>, e: Expr, put: bool, s: seq<Value>, w: W)
    requires Lawful(sem) && WellFormed(e) && Eval(sem, e, w).1.Ok?
    ensures var (w1, r) := Eval(sem, e, w);
            Run(sem, EmitExpr(sem, e, put), 0, s, w) == Halted(Push(s, put, r.value), w1) <==> !LeaksX(sem, e, put, w)
  {
    var code := EmitExpr(sem, e, put);
    assert code[0..|code|] == code;
    hide Getter, EmitExpr, Leaks, LeaksX, Eval;
    var to := EmitExprLeads(sem, e, put, code, 0, s, w);
  }

  /** An expression that throws before any leak makes the code throw the same error in the same world if and
      only if the error was not found while folding, or its name and message still give that error. */
  lemma EmitExprThrowsIff<W(!new)>(sem: Semantics<W>, e: Expr, put: bool, s: seq<Value>, w: W)
    requires Lawful(sem) && WellFormed(e) && Eval(sem, e, w).1.Raise? && !LeaksX(sem, e, put, w)
    ensures var (w1, r) := Eval(sem, e, w);
      Run(sem, EmitExpr(sem, e, put), 0, s, w) == Raised(r.error, w1)
      <==> (FoldsX(sem, e, w) && r.error.ErrorObject? ==> Rebuilds(sem, r.error, w1))
  {
    var code := EmitExpr(sem, e, put);
    assert code[0..|code|] == code;
    hide Getter, EmitExpr, Leaks, LeaksX, Eval, Folds, FoldsX, Rethrown;
    ExprRuns(sem, e, put, code, 0, s, w);
  }

  /** They do if the name still denotes the constructor of such errors. */
  lemma BuiltInRebuilds<W>(sem: Semantics<W>, x: Value, w: W)
    requires x.ErrorObject? && sem.denotes(x.name, w) == (w, Ok(ErrorConstructor(x.name)))
    ensures Rebuilds(sem, x, w)
  {
  }

  /** They need not if it has been assigned to: then a constant expression that throws a TypeError when evaluated
      makes its code throw something else. */
  lemma ShadowedExample<W(!new)>(sem: Semantics<W>, w: W, op: Op, m: Option<string>, c: nat, o: nat)
    requires Lawful(sem) && sem.onPrimitives(op, Num(1), Num(2)) == Raise(ErrorObject("TypeError", m))
    requires sem.denotes("TypeError", w) == (w, Ok(Object(c)))
    requires sem.construct(Object(c), if m.Some? then [Str(m.value)] else [], w) == (w, Ok(Object(o)))
    ensures var e := Binary(op, Literal(Num(1)), Literal(Num(2)));
      && Eval(sem, e, w) == (w, Raise(ErrorObject("TypeError", m)))
      && Run(sem, EmitExpr(sem, e, true), 0, [], w) == Raised(Object(o), w)
  {
    var e := Binary(op, Literal(Num(1)), Literal(Num(2)));
    assert Eval(sem, Literal(Num(1)), w) == (w, Ok(Num(1))) && Eval(sem, Literal(Num(2)), w) == (w, Ok(Num(2)));
    assert Eval(sem, e, w) == Apply(sem, op, Num(1), Num(2), w);
    assert IsConst(sem, e.left) && IsConst(sem, e.right);
    assert IsConst(sem, e);
    assert Apply(sem, op, Num(1), Num(2), w) == (w, Raise(ErrorObject("TypeError", m)));
    assert FoldsX(sem, e, w);
    var x := ErrorObject("TypeError", m);
    assert Construct(sem, Object(c), m, w) == (w, Ok(Object(o)));
    assert Rethrown(sem, x, w) == (w, Object(o));
    var code := EmitExpr(sem, e, true);
    assert code[0..|code|] == code;
    hide Getter, EmitExpr, Leaks, Eval, Folds, FoldsX, Rethrown, IsConst;
    ExprRuns(sem, e, true, code, 0, [], w);
  }

  /** Folding a constant does not change the program: it yields what evaluation at run time would. */
  lemma FoldingIsRight<W(!new)>(sem: Semantics<W>, e: Expr, w: W)
    requires Lawful(sem) && WellFormed(e) && IsConst(sem, e)
    ensures Eval(sem, e, w) == (w, EvalConst(sem, e))
  {
    EvalConstRight(sem, e);
  }

  /** No && with a constant falsy left operand stands where its value is discarded. */
  predicate Clean<W>(sem: Semantics<W>, e: Expr, put: bool)
    decreases e, 0
  {
    match e
    case Literal(_) | Other(_) => true
    case Unary(op, o) => if ByGetter(op) then Clean(sem, o, true) else CleanX(sem, o, true)
    case Void(o) => CleanX(sem, o, false)
    case Binary(_, l, r) => CleanX(sem, l, true) && CleanX(sem, r, true)
    case Conditional(t, c, a) => Clean(sem, t, true) && Clean(sem, c, put) && Clean(sem, a, put)
    case Sequence(es) =>
      forall i :: 0 <= i < |es| ==> Clean(sem, es[i], i == |es| - 1 && put)
    case _ =>
      if IsConst(sem, e.left) then
        match EvalConst(sem, e.left)
        case Ok(v) => if Decides(e, v) then !e.LogicalAnd? || put else CleanX(sem, e.right, put)
        case Raise(_) => true
      else CleanX(sem, e.left, true) && CleanX(sem, e.right, true)
  }

  predicate CleanX<W>(sem: Semantics<W>, e: Expr, put: bool)
    decreases e, 1
  {
    IsConst(sem, e) || Clean(sem, e, put)
  }

  /** That is enough, in every world. */
  lemma {:induction false} CleanNeverLeaks<W>(sem: Semantics<W>, e: Expr, put: bool, w: W)
    requires Clean(sem, e, put)
    ensures !Leaks(sem, e, put, w)
    decreases e, 0
  {
    if e.Unary? {
      if ByGetter(e.uop) {
        CleanNeverLeaks(sem, e.operand, true, w);
      } else {
        CleanXNeverLeaks(sem, e.operand, true, w);
      }
    } else if e.Void? {
      CleanXNeverLeaks(sem, e.operand, false, w);
    } else if e.Binary? {
      CleanXNeverLeaks(sem, e.left, true, w);
      CleanXNeverLeaks(sem, e.right, true, Eval(sem, e.left, w).0);
    } else if e.Conditional? {
      CleanNeverLeaks(sem, e.test, true, w);
      CleanNeverLeaks(sem, e.consequent, put, Eval(sem, e.test, w).0);
      CleanNeverLeaks(sem, e.alternate, put, Eval(sem, e.test, w).0);
    } else if e.Sequence? {
      CleanItems(sem, e.items, put, w);
    } else if IsLogical(e) {
      if IsConst(sem, e.left) {
        CleanRight(sem, e, put, w);
      } else {
        CleanXNeverLeaks(sem, e.left, true, w);
        CleanConstLeft(sem, e.left, w);
        CleanXNeverLeaks(sem, e.right, true, Eval(sem, e.left, w).0);
      }
    }
  }

  lemma {:induction false} CleanRight<W>(sem: Semantics<W>, e: Expr, put: bool, w: W)
    requires IsLogical(e) && IsConst(sem, e.left) && Clean(sem, e, put)
    ensures !Leaks(sem, e, put, w)
    decreases e.right, 2
  {
    var c := EvalConst(sem, e.left);
    if c.Ok? && !Decides(e, c.value) {
      CleanXNeverLeaks(sem, e.right, put, w);
    }
  }

  lemma {:induction false} CleanConstLeft<W>(sem: Semantics<W>, e: Expr, w: W)
    requires CleanX(sem, e, true) && !IsConst(sem, e)
    ensures !Leaks(sem, e, true, w)
    decreases e, 1
  {
    CleanNeverLeaks(sem, e, true, w);
  }

  lemma {:induction false} CleanXNeverLeaks<W>(sem: Semantics<W>, e: Expr, put: bool, w: W)
    requires CleanX(sem, e, put)
    ensures !LeaksX(sem, e, put, w)
    decreases e, 1
  {
    if !IsConst(sem, e) {
      CleanNeverLeaks(sem, e, put, w);
    }
  }

  lemma {:induction false} CleanItems<W>(sem: Semantics<W>, es: seq<Expr>, put: bool, w: W)
    requires forall i :: 0 <= i < |es| ==> Clean(sem, es[i], i == |es| - 1 && put)
    ensures !LeaksItems(sem, es, put, w)
    decreases es, 0
  {
    if |es| == 1 {
      CleanNeverLeaks(sem, es[0], put, w);
    } else if |es| > 1 {
      CleanNeverLeaks(sem, es[0], false, w);
      forall i | 0 <= i < |es[1..]| ensures Clean(sem, es[1..][i], i == |es[1..]| - 1 && put) {
        assert es[1..][i] == es[i + 1];
      }
      CleanItems(sem, es[1..], put, Eval(sem, es[0], w).0);
    }
  }

  /** An input on which the code is wrong: 1 + (false && f(), 5) ends with two values on the stack. */
  lemma LeakExample<W(!new)>(sem: Semantics<W>, w: W, op: Op)
    requires Lawful(sem)
    requires sem.onPrimitives(op, Num(1), Num(5)).Ok?
    ensures var e := Binary(op, Literal(Num(1)), Sequence([LogicalAnd(Literal(Bool(false)), Other(0)), Literal(Num(5))]));
            && Eval(sem, e, w) == (w, sem.onPrimitives(op, Num(1), Num(5)))
            && Run(sem, EmitExpr(sem, e, true), 0, [], w) != Halted([sem.onPrimitives(op, Num(1), Num(5)).value], w)
  {
    var x := LogicalAnd(Literal(Bool(false)), Other(0));
    var q := Sequence([x, Literal(Num(5))]);
    var e := Binary(op, Literal(Num(1)), q);
    assert Eval(sem, x, w) == (w, Ok(Bool(false)));
    assert [x, Literal(Num(5))][1..] == [Literal(Num(5))];
    assert Eval(sem, Literal(Num(5)), w) == (w, Ok(Num(5)));
    assert EvalItems(sem, [Literal(Num(5))], w) == (w, Ok(Num(5)));
    assert EvalItems(sem, [x, Literal(Num(5))], w) == (w, Ok(Num(5)));
    assert Eval(sem, q, w) == (w, Ok(Num(5)));
    assert Eval(sem, Literal(Num(1)), w) == (w, Ok(Num(1)));
    assert Eval(sem, e, w) == Apply(sem, op, Num(1), Num(5), w);
    assert WellFormed(x) && WellFormed(q);
    assert Leaks(sem, x, false, w);
    assert LeaksItems(sem, [x, Literal(Num(5))], true, w);
    assert Leaks(sem, q, true, w) && !IsConst(sem, q);
    assert LeaksX(sem, q, true, w) && !IsConst(sem, e);
    BinaryFacts(sem, e, true, w);
    assert LeaksX(sem, e, true, w);
    EmitExprIsRightIff(sem, e, true, [], w);
  }
}
