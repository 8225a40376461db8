/** What the compiler makes of a statement: the code that it has emitted, once its placeholders are filled, is laid out as it
    should be. Each predicate compares the state of the compiler before and after. */
module BranchMaking {
  import opened Options
  import opened BranchSpec
  import opened BranchBlocks
  import opened BranchLayout

  ghost predicate Makes(u: View, v: View, s: Stmt) {
    |u.code| <= |v.code| && forall f, ctx: seq<Target> :: Fills(v, f, ctx) ==> Fills(u, f, ctx) && Layout(f, |u.code|, |v.code|, s, ctx)
  }

  ghost predicate MakesLoop(u: View, v: View, s: Stmt, name: Option<string>)
    requires Loop(s)
  {
    |u.code| <= |v.code| && forall f, ctx: seq<Target> :: Fills(v, f, ctx) ==> Fills(u, f, ctx) && LaidLoop(f, |u.code|, |v.code|, s, name, ctx)
  }

  ghost predicate MakesList(u: View, v: View, list: seq<Stmt>, parent: Stmt) {
    |u.code| <= |v.code| && forall f, ctx: seq<Target> :: Fills(v, f, ctx) ==> Fills(u, f, ctx) && LaidList(f, |u.code|, |v.code|, list, parent, ctx)
  }

  ghost predicate MakesBlock(u: View, v: View, lexical: bool, list: seq<Stmt>, parent: Stmt) {
    |u.code| <= |v.code| && forall f, ctx: seq<Target> :: Fills(v, f, ctx) ==> Fills(u, f, ctx) && LaidBlock(f, |u.code|, |v.code|, lexical, list, parent, ctx)
  }

  /** The first n statements, which begin at the marks. */
  ghost predicate MakesMarked(u: View, v: View, marks: seq<nat>, list: seq<Stmt>, n: nat, parent: Stmt) {
    && n <= |list| && |marks| == n + 1 && marks[0] == |u.code| <= |v.code| == marks[n]
    && forall f, ctx: seq<Target> :: Fills(v, f, ctx) ==>
         Fills(u, f, ctx) && forall i :: 0 <= i < n ==> list[i] < parent && Layout(f, marks[i], marks[i + 1], list[i], ctx)
  }

  // ---- statements in sequence

  lemma ExpressionMade(u: View, v: View, id: nat)
    requires Emits(u, v, Op(id))
    ensures Makes(u, v, Expression(id))
  {
  }

  lemma MarkedNone(u: View, list: seq<Stmt>, parent: Stmt)
    ensures MakesMarked(u, u, [|u.code|], list, 0, parent)
  {
  }

  lemma MarkedOneMore(u: View, v: View, w: View, marks: seq<nat>, list: seq<Stmt>, n: nat, parent: Stmt)
    requires MakesMarked(u, v, marks, list, n, parent) && n < |list| && list[n] < parent && Makes(v, w, list[n])
    ensures MakesMarked(u, w, marks + [|w.code|], list, n + 1, parent)
  {
    hide Fills, Layout;
    var more := marks + [|w.code|];
    forall f, ctx: seq<Target> | Fills(w, f, ctx)
      ensures Fills(u, f, ctx) && forall i :: 0 <= i < n + 1 ==> list[i] < parent && Layout(f, more[i], more[i + 1], list[i], ctx)
    {
      assert Fills(v, f, ctx) && Layout(f, more[n], more[n + 1], list[n], ctx);
      forall i | 0 <= i < n ensures Layout(f, more[i], more[i + 1], list[i], ctx) {
        assert more[i] == marks[i] && more[i + 1] == marks[i + 1];
      }
    }
  }

  lemma MarkedAll(u: View, v: View, marks: seq<nat>, list: seq<Stmt>, parent: Stmt)
    requires MakesMarked(u, v, marks, list, |list|, parent)
    ensures MakesList(u, v, list, parent)
  {
    hide Fills, Layout;
    forall f, ctx: seq<Target> | Fills(v, f, ctx) ensures Fills(u, f, ctx) && LaidList(f, |u.code|, |v.code|, list, parent, ctx) {
      assert LaidAt(f, marks, list, parent, ctx);
    }
  }

  /** The scope that compilation was in was left by the last instruction. */
  ghost predicate LeavesScope(u: View, v: View, t: Target) {
    |v.code| == |u.code| + 1 && forall f, ctx: seq<Target> :: Fills(v, f, ctx) ==> Fills(u, f, ctx + [t]) && Is(f, |u.code|, LeaveBlock)
  }

  lemma ListIsBlock(u: View, v: View, list: seq<Stmt>, parent: Stmt)
    requires MakesList(u, v, list, parent)
    ensures MakesBlock(u, v, false, list, parent)
  {
    hide Fills, LaidList;
  }

  lemma ScopeMade(u: View, v1: View, v2: View, v3: View, v4: View, list: seq<Stmt>, parent: Stmt)
    requires Enters(u, v1) && Emits(v1, v2, EnterBlock) && MakesList(v2, v3, list, parent) && LeavesScope(v3, v4, ScopeTarget)
    ensures MakesBlock(u, v4, true, list, parent)
  {
    hide Fills, LaidList;
    forall f, ctx: seq<Target> | Fills(v4, f, ctx) ensures Fills(u, f, ctx) && LaidBlock(f, |u.code|, |v4.code|, true, list, parent, ctx) {
      assert Fills(v3, f, ctx + [ScopeTarget]) && Fills(v2, f, ctx + [ScopeTarget]) && Fills(v1, f, ctx + [ScopeTarget]);
    }
  }

  lemma SequenceMade(u: View, v: View, s: Stmt)
    requires s.Sequence? && MakesBlock(u, v, s.lexical, s.list, s)
    ensures Makes(u, v, s)
  {
    hide Fills, LaidBlock;
  }

  // ---- if and with

  lemma IfMade(u: View, v1: View, v2: View, v3: View, v4: View, s: Stmt)
    requires s.If? && s.alternate.None? && Emits(u, v1, Op(s.condition)) && Opens(v1, v2) && Makes(v2, v3, s.consequent)
    requires Writes(v3, v4, |v1.code|, JumpUnless(|v3.code| - |v1.code|))
    ensures Makes(u, v4, s)
  {
    hide Fills, Layout, Keeps;
    forall f, ctx: seq<Target> | Fills(v4, f, ctx) ensures Fills(u, f, ctx) && Layout(f, |u.code|, |v4.code|, s, ctx) {
      assert Fills(v3, f, ctx) && Fills(v2, f, ctx);
      KeepsFills(v1, v2, f, ctx);
      IfIs(f, |u.code|, |v3.code|, |v4.code|, s, ctx);
    }
  }

  lemma KeepsFills(u: View, v: View, f: seq<Instr>, ctx: seq<Target>)
    requires Keeps(u, v) && Fills(v, f, ctx)
    ensures Fills(u, f, ctx)
  {
  }

  lemma IfIs(f: seq<Instr>, a: nat, m: nat, b: nat, s: Stmt, ctx: seq<Target>)
    requires s.If? && LaidIf(f, a, m, b, s, ctx)
    ensures Layout(f, a, b, s, ctx)
  {
  }

  /** The alternate of an if, whose test jumps from jmp. */
  ghost predicate MakesElse(u: View, v: View, jmp: nat, s: Stmt) {
    |u.code| < |v.code| && forall f, ctx: seq<Target> :: Fills(v, f, ctx) ==>
      && Fills(u, f, ctx) && Is(f, jmp, JumpUnless(|u.code| + 1 - jmp)) && Is(f, |u.code|, Jump(|v.code| - |u.code|))
      && Layout(f, |u.code| + 1, |v.code|, s, ctx)
  }

  lemma ElseMade(u: View, v1: View, v2: View, v3: View, v4: View, jmp: nat, s: Stmt)
    requires Opens(u, v1) && Writes(v1, v2, jmp, JumpUnless(|v1.code| - jmp)) && Makes(v2, v3, s)
    requires Writes(v3, v4, |u.code|, Jump(|v3.code| - |u.code|))
    ensures MakesElse(u, v4, jmp, s)
  {
    hide Fills, Layout, Keeps;
    forall f, ctx: seq<Target> | Fills(v4, f, ctx)
      ensures Fills(u, f, ctx) && Is(f, jmp, JumpUnless(|u.code| + 1 - jmp)) && Layout(f, |u.code| + 1, |v4.code|, s, ctx)
    {
      assert Fills(v3, f, ctx) && Fills(v2, f, ctx) && Fills(v1, f, ctx);
      KeepsFills(u, v1, f, ctx);
    }
  }

  lemma IfElseMade(u: View, v1: View, v2: View, v3: View, v4: View, s: Stmt)
    requires s.If? && s.alternate.Some? && Emits(u, v1, Op(s.condition)) && Opens(v1, v2) && Makes(v2, v3, s.consequent)
    requires MakesElse(v3, v4, |v1.code|, s.alternate.value)
    ensures Makes(u, v4, s)
  {
    hide Fills, Layout, Keeps;
    forall f, ctx: seq<Target> | Fills(v4, f, ctx) ensures Fills(u, f, ctx) && Layout(f, |u.code|, |v4.code|, s, ctx) {
      assert Fills(v3, f, ctx) && Fills(v2, f, ctx);
      KeepsFills(v1, v2, f, ctx);
      IfIs(f, |u.code|, |v3.code|, |v4.code|, s, ctx);
    }
  }

  lemma WithMade(u: View, v1: View, v2: View, v3: View, v4: View, v5: View, v6: View, s: Stmt)
    requires s.With? && Emits(u, v1, Op(s.subject)) && Emits(v1, v2, EnterWith) && Enters(v2, v3) && Makes(v3, v4, s.body)
    requires Emits(v4, v5, LeaveWith) && Leaves(v5, v6, Target(BlockWith, None, |v6.code|, 0))
    ensures Makes(u, v6, s)
  {
    hide Fills;
    var t := Target(BlockWith, None, |v6.code|, 0);
    forall f, ctx: seq<Target> | Fills(v6, f, ctx) ensures Fills(u, f, ctx) && Layout(f, |u.code|, |v6.code|, s, ctx) {
      assert Fills(v5, f, ctx + [t]) && Fills(v4, f, ctx + [t]) && Fills(v3, f, ctx + [t]) && Fills(v2, f, ctx);
    }
  }

  // ---- labels and loops

  lemma LabelMade(u: View, v1: View, v2: View, v3: View, name: string, t: Stmt)
    requires !Loop(t) && Enters(u, v1) && Makes(v1, v2, t) && Leaves(v2, v3, Target(BlockLabel, Some(name), |v3.code|, 0))
    ensures Makes(u, v3, Labelled(name, t))
  {
    hide Fills;
    var x := Target(BlockLabel, Some(name), |v3.code|, 0);
    forall f, ctx: seq<Target> | Fills(v3, f, ctx) ensures Fills(u, f, ctx) && Layout(f, |u.code|, |v3.code|, Labelled(name, t), ctx) {
      assert Fills(v2, f, ctx + [x]) && Fills(v1, f, ctx + [x]);
    }
  }

  lemma LoopIsStatement(u: View, v: View, s: Stmt)
    requires Loop(s) && MakesLoop(u, v, s, None)
    ensures Makes(u, v, s)
  {
    hide Fills, LaidLoop;
  }

  lemma LabelledLoopMade(u: View, v: View, name: string, t: Stmt)
    requires Loop(t) && MakesLoop(u, v, t, Some(name))
    ensures Makes(u, v, Labelled(name, t))
  {
    hide Fills, LaidLoop;
  }

  /** A test, unless it is constantly true; j is where its jump out will be. */
  ghost predicate OpensTest(u: View, v: View, test: Option<nat>, j: nat) {
    && |v.code| == |u.code| + TestSize(test) && (test.Some? ==> j == |u.code| + 1)
    && forall f, ctx: seq<Target> :: Fills(v, f, ctx) ==> Fills(u, f, ctx) && LaidOp(f, |u.code|, test)
  }

  ghost predicate ClosesTest(u: View, v: View, test: Option<nat>, j: nat) {
    |v.code| == |u.code| && forall f, ctx: seq<Target> :: Fills(v, f, ctx) ==> Fills(u, f, ctx) && (test.Some? ==> Is(f, j, JumpUnless(|v.code| - j)))
  }

  /** A test and a body. */
  ghost predicate MakesTested(u: View, v: View, test: Option<nat>, j: nat, body: Stmt) {
    && |u.code| + TestSize(test) <= |v.code| && (test.Some? ==> j == |u.code| + 1)
    && forall f, ctx: seq<Target> :: Fills(v, f, ctx) ==>
         Fills(u, f, ctx) && LaidOp(f, |u.code|, test) && Layout(f, |u.code| + TestSize(test), |v.code|, body, ctx)
  }

  lemma TestOpened(u: View, v1: View, v2: View, test: Option<nat>, j: nat)
    requires if test.Some? then j == |v1.code| && Emits(u, v1, Op(test.value)) && Opens(v1, v2) else u == v2
    ensures OpensTest(u, v2, test, j)
  {
    hide Fills, Keeps;
    forall f, ctx: seq<Target> | Fills(v2, f, ctx) ensures Fills(u, f, ctx) && LaidOp(f, |u.code|, test) {
      if test.Some? {
        KeepsFills(v1, v2, f, ctx);
      }
    }
  }

  lemma TestClosed(u: View, v: View, test: Option<nat>, j: nat)
    requires if test.Some? then Writes(u, v, j, JumpUnless(|u.code| - j)) else u == v
    ensures ClosesTest(u, v, test, j)
  {
    hide Fills;
  }

  lemma TestedMade(u: View, v1: View, v2: View, test: Option<nat>, j: nat, body: Stmt)
    requires OpensTest(u, v1, test, j) && Makes(v1, v2, body)
    ensures MakesTested(u, v2, test, j, body)
  {
    hide Fills, Layout;
  }

  /** The jump back to start, and the jump out of the test. */
  ghost predicate GoesBack(u: View, v: View, start: nat, test: Option<nat>, j: nat) {
    && |v.code| == |u.code| + 1
    && forall f, ctx: seq<Target> :: Fills(v, f, ctx) ==>
         Fills(u, f, ctx) && Is(f, |u.code|, Jump(start - |u.code|)) && (test.Some? ==> Is(f, j, JumpUnless(|v.code| - j)))
  }

  lemma WentBack(u: View, v1: View, v2: View, start: nat, test: Option<nat>, j: nat)
    requires Emits(u, v1, Jump(start - |u.code|)) && ClosesTest(v1, v2, test, j)
    ensures GoesBack(u, v2, start, test, j)
  {
    hide Fills;
  }

  /** A round of a loop without a scope of its own, from its test to the jump back. */
  ghost predicate MakesRound(u: View, v: View, test: Option<nat>, update: Option<nat>, body: Stmt) {
    && |u.code| + OpSize(update) + 1 <= |v.code|
    && forall f, ctx: seq<Target> :: Fills(v, f, ctx) ==>
         var q := |v.code| - 1 - OpSize(update);
         Fills(u, f, ctx) && LaidRound(f, |u.code|, q, q, |v.code|, test, update, body, ctx)
  }

  /** An expression that may be missing. */
  ghost predicate EmitsOp(u: View, v: View, e: Option<nat>) {
    if e.Some? then Emits(u, v, Op(e.value)) else u == v
  }

  lemma RoundMade(u: View, v1: View, v2: View, v3: View, v4: View, test: Option<nat>, update: Option<nat>, j: nat, body: Stmt)
    requires MakesTested(u, v1, test, j, body) && EmitsOp(v1, v2, update) && GoesBack(v2, v3, |u.code|, test, j) && Keeps(v3, v4) && |v4.code| == |v3.code|
    ensures MakesRound(u, v4, test, update, body)
  {
    hide Fills, Layout, Keeps;
    forall f, ctx: seq<Target> | Fills(v4, f, ctx)
      ensures Fills(u, f, ctx) && LaidRound(f, |u.code|, |v1.code|, |v1.code|, |v4.code|, test, update, body, ctx)
    {
      KeepsFills(v3, v4, f, ctx);
      assert Fills(v2, f, ctx) && Fills(v1, f, ctx);
    }
  }

  lemma WhileMade(u: View, v1: View, v2: View, v3: View, v4: View, s: Stmt, name: Option<string>)
    requires s.While? && Enters(u, v1) && Keeps(v1, v2) && |v2.code| == |v1.code| && MakesRound(v2, v3, s.test, None, s.body)
    requires Leaves(v3, v4, Target(BlockLoop, name, |v4.code|, |u.code|))
    ensures MakesLoop(u, v4, s, name)
  {
    hide Fills, Layout, Keeps, LaidRound;
    var t := Target(BlockLoop, name, |v4.code|, |u.code|);
    forall f, ctx: seq<Target> | Fills(v4, f, ctx) ensures Fills(u, f, ctx) && LaidLoop(f, |u.code|, |v4.code|, s, name, ctx) {
      assert Fills(v3, f, ctx + [t]) && Fills(v2, f, ctx + [t]);
      KeepsFills(v1, v2, f, ctx + [t]);
    }
  }

  lemma DoWhileMade(u: View, v1: View, v2: View, v3: View, v4: View, v5: View, v6: View, s: Stmt, name: Option<string>)
    requires s.DoWhile? && Enters(u, v1) && Makes(v1, v2, s.body) && Keeps(v2, v3) && |v3.code| == |v2.code|
    requires Emits(v3, v4, Op(s.until)) && Emits(v4, v5, JumpIf(|u.code| - |v4.code|)) && Leaves(v5, v6, Target(BlockLoop, name, |v6.code|, |v2.code|))
    ensures MakesLoop(u, v6, s, name)
  {
    hide Fills, Layout, Keeps;
    var t := Target(BlockLoop, name, |v6.code|, |v2.code|);
    forall f, ctx: seq<Target> | Fills(v6, f, ctx) ensures Fills(u, f, ctx) && LaidLoop(f, |u.code|, |v6.code|, s, name, ctx) {
      assert Fills(v5, f, ctx + [t]) && Fills(v4, f, ctx + [t]) && Fills(v3, f, ctx + [t]);
      KeepsFills(v2, v3, f, ctx + [t]);
      assert Fills(v1, f, ctx + [t]);
    }
  }

  lemma ForMade(u: View, v1: View, v2: View, v3: View, v4: View, s: Stmt, name: Option<string>)
    requires s.For? && !s.lexical && Enters(u, v1) && EmitsOp(v1, v2, s.init) && MakesRound(v2, v3, s.test, s.update, s.body)
    requires |v3.code| - 1 - OpSize(s.update) >= 0
    requires Leaves(v3, v4, Target(BlockLoop, name, |v4.code|, |v3.code| - 1 - OpSize(s.update)))
    ensures MakesLoop(u, v4, s, name)
  {
    hide Fills, Layout, LaidRound;
    var t := Target(BlockLoop, name, |v4.code|, |v3.code| - 1 - OpSize(s.update));
    forall f, ctx: seq<Target> | Fills(v4, f, ctx) ensures Fills(u, f, ctx) && LaidLoop(f, |u.code|, |v4.code|, s, name, ctx) {
      assert Fills(v3, f, ctx + [t]) && Fills(v2, f, ctx + [t]) && Fills(v1, f, ctx + [t]);
    }
  }

  /** The update of a for loop with a scope of its own, and the copies before the first test, at c0, and before the update. */
  ghost predicate Updates(u: View, v: View, update: Option<nat>, needStash: bool, c0: nat) {
    && |v.code| == |u.code| + 1 + OpSize(update)
    && forall f, ctx: seq<Target> :: Fills(v, f, ctx) ==>
         Fills(u, f, ctx) && Is(f, c0, Copy(needStash)) && Is(f, |u.code|, Copy(needStash)) && LaidOp(f, |u.code| + 1, update)
  }

  lemma UpdateMade(u: View, v1: View, v2: View, v3: View, v4: View, update: Option<nat>, needStash: bool, c0: nat)
    requires Opens(u, v1) && EmitsOp(v1, v2, update) && Writes(v2, v3, c0, Copy(needStash)) && Writes(v3, v4, |u.code|, Copy(needStash))
    ensures Updates(u, v4, update, needStash, c0)
  {
    hide Fills, Keeps;
    forall f, ctx: seq<Target> | Fills(v4, f, ctx)
      ensures Fills(u, f, ctx) && Is(f, c0, Copy(needStash)) && Is(f, |u.code|, Copy(needStash)) && LaidOp(f, |u.code| + 1, update)
    {
      assert Fills(v3, f, ctx) && Fills(v2, f, ctx) && Fills(v1, f, ctx);
      KeepsFills(u, v1, f, ctx);
    }
  }

  /** Such a loop from the first copy to the jump back. */
  ghost predicate MakesLexicalRound(u: View, v: View, s: Stmt)
    requires s.For?
  {
    && |u.code| + OpSize(s.update) + 3 <= |v.code|
    && forall f, ctx: seq<Target> :: Fills(v, f, ctx) ==>
         var q := |v.code| - 1 - OpSize(s.update);
         && Fills(u, f, ctx) && Is(f, |u.code|, Copy(s.needStash)) && Is(f, q - 1, Copy(s.needStash))
         && LaidRound(f, |u.code| + 1, q - 1, q, |v.code|, s.test, s.update, s.body, ctx)
  }

  lemma LexicalRoundMade(u: View, v1: View, v2: View, v3: View, v4: View, s: Stmt, j: nat)
    requires s.For? && Opens(u, v1) && MakesTested(v1, v2, s.test, j, s.body) && Updates(v2, v3, s.update, s.needStash, |u.code|)
    requires GoesBack(v3, v4, |u.code| + 1, s.test, j)
    ensures MakesLexicalRound(u, v4, s)
  {
    hide Fills, Layout, Keeps;
    var q := |v4.code| - 1 - OpSize(s.update);
    forall f, ctx: seq<Target> | Fills(v4, f, ctx)
      ensures Fills(u, f, ctx) && Is(f, |u.code|, Copy(s.needStash)) && Is(f, q - 1, Copy(s.needStash))
      ensures LaidRound(f, |u.code| + 1, q - 1, q, |v4.code|, s.test, s.update, s.body, ctx)
    {
      assert Fills(v3, f, ctx) && Fills(v2, f, ctx) && Fills(v1, f, ctx);
      KeepsFills(u, v1, f, ctx);
    }
  }

  /** Two blocks were entered. */
  ghost predicate EntersTwo(u: View, v: View) {
    |v.code| == |u.code| && forall f, ctx, s, t :: Fills(v, f, ctx + [s, t]) ==> Fills(u, f, ctx)
  }

  lemma TwoEntered(u: View, v: View, w: View)
    requires Enters(u, v) && Enters(v, w)
    ensures EntersTwo(u, w)
  {
    hide Fills;
    forall f, ctx, s, t | Fills(w, f, ctx + [s, t]) ensures Fills(u, f, ctx) {
      assert ctx + [s, t] == ctx + [s] + [t];
      assert Fills(v, f, ctx + [s]);
    }
  }

  lemma ForLexicalMade(u: View, v1: View, v2: View, v3: View, v4: View, v5: View, v6: View, v7: View, s: Stmt, name: Option<string>)
    requires s.For? && s.lexical && EntersTwo(u, v1) && Emits(v1, v2, EnterBlock) && EmitsOp(v2, v3, s.init) && MakesLexicalRound(v3, v4, s)
    requires Keeps(v4, v5) && |v5.code| == |v4.code| && LeavesScope(v5, v6, IterScopeTarget)
    requires |v4.code| - 1 - OpSize(s.update) >= 1
    requires var q := |v4.code| - 1 - OpSize(s.update); Leaves(v6, v7, Target(BlockLoop, name, |v7.code|, if s.needStash then q - 1 else q))
    ensures MakesLoop(u, v7, s, name)
  {
    hide Fills, Layout, Keeps, LaidRound;
    var q := |v4.code| - 1 - OpSize(s.update);
    var t := Target(BlockLoop, name, |v7.code|, if s.needStash then q - 1 else q);
    forall f, ctx: seq<Target> | Fills(v7, f, ctx) ensures Fills(u, f, ctx) && LaidLoop(f, |u.code|, |v7.code|, s, name, ctx) {
      var inner := ctx + [t, IterScopeTarget];
      assert inner == ctx + [t] + [IterScopeTarget];
      assert Fills(v6, f, ctx + [t]) && Fills(v5, f, inner);
      KeepsFills(v4, v5, f, inner);
      assert Fills(v3, f, inner) && Fills(v2, f, inner) && Fills(v1, f, inner);
    }
  }

  // ---- for-in and for-of

  ghost predicate MakesSource(u: View, v: View, s: Stmt)
    requires s.ForInOf?
  {
    |u.code| <= |v.code| && forall f, ctx: seq<Target> :: Fills(v, f, ctx) ==> Fills(u, f, ctx) && LaidSource(f, |u.code|, |v.code|, s)
  }

  lemma PlainSourceMade(u: View, v: View, s: Stmt)
    requires s.ForInOf? && !s.declares && Emits(u, v, Op(s.source))
    ensures MakesSource(u, v, s)
  {
    hide Fills;
  }

  /** The source in a scope of its own, which is entered only if it is used. */
  lemma ScopedSourceMade(u: View, v1: View, v2: View, v3: View, v4: View, v5: View, s: Stmt)
    requires s.ForInOf? && s.declares && Enters(u, v1) && Opens(v1, v2) && Emits(v2, v3, Op(s.source))
    requires Writes(v3, v4, |u.code|, if s.headUsed then EnterBlock else Jump(1))
    requires if s.headUsed then LeavesScope(v4, v5, ScopeTarget) else Leaves(v4, v5, ScopeTarget)
    ensures MakesSource(u, v5, s)
  {
    hide Fills, Keeps;
    forall f, ctx: seq<Target> | Fills(v5, f, ctx) ensures Fills(u, f, ctx) && LaidSource(f, |u.code|, |v5.code|, s) {
      var inner := ctx + [ScopeTarget];
      assert Fills(v4, f, inner) && Fills(v3, f, inner) && Fills(v2, f, inner);
      KeepsFills(v1, v2, f, inner);
    }
  }

  /** The assignment of an element and the body. */
  ghost predicate LaidElement(f: seq<Instr>, a: nat, b: nat, s: Stmt, ctx: seq<Target>)
    requires s.ForInOf?
  {
    if s.declares then
      && a + 3 <= b && Is(f, a, EnterBlock) && Is(f, a + 1, Op(s.into)) && Is(f, b - 1, LeaveBlock)
      && Layout(f, a + 2, b - 1, s.body, ctx + [IterScopeTarget])
    else Is(f, a, Op(s.into)) && Layout(f, a + 1, b, s.body, ctx)
  }

  ghost predicate MakesElement(u: View, v: View, s: Stmt)
    requires s.ForInOf?
  {
    |u.code| <= |v.code| && forall f, ctx: seq<Target> :: Fills(v, f, ctx) ==> Fills(u, f, ctx) && LaidElement(f, |u.code|, |v.code|, s, ctx)
  }

  lemma PlainElementMade(u: View, v1: View, v2: View, s: Stmt)
    requires s.ForInOf? && !s.declares && Emits(u, v1, Op(s.into)) && Makes(v1, v2, s.body)
    ensures MakesElement(u, v2, s)
  {
    hide Fills, Layout;
  }

  lemma ScopedElementMade(u: View, v1: View, v2: View, v3: View, v4: View, v5: View, s: Stmt)
    requires s.ForInOf? && s.declares && Enters(u, v1) && Emits(v1, v2, EnterBlock) && Emits(v2, v3, Op(s.into)) && Makes(v3, v4, s.body)
    requires LeavesScope(v4, v5, IterScopeTarget)
    ensures MakesElement(u, v5, s)
  {
    hide Fills, Layout;
    forall f, ctx: seq<Target> | Fills(v5, f, ctx) ensures Fills(u, f, ctx) && LaidElement(f, |u.code|, |v5.code|, s, ctx) {
      var inner := ctx + [IterScopeTarget];
      assert Fills(v4, f, inner) && Fills(v3, f, inner) && Fills(v2, f, inner) && Fills(v1, f, inner);
    }
  }

  /** From the instruction that takes the next element to the jump back to it. */
  ghost predicate MakesIteration(u: View, v: View, s: Stmt)
    requires s.ForInOf?
  {
    && |u.code| + 2 <= |v.code|
    && forall f, ctx: seq<Target> :: Fills(v, f, ctx) ==>
         && Fills(u, f, ctx) && Is(f, |u.code|, IterNext(|v.code| - |u.code|)) && Is(f, |v.code| - 1, Jump(|u.code| - (|v.code| - 1)))
         && LaidElement(f, |u.code| + 1, |v.code| - 1, s, ctx)
  }

  lemma IterationMade(u: View, v1: View, v2: View, v3: View, v4: View, v5: View, s: Stmt)
    requires s.ForInOf? && Keeps(u, v1) && |v1.code| == |u.code| && Opens(v1, v2) && MakesElement(v2, v3, s)
    requires Emits(v3, v4, Jump(|u.code| - |v3.code|)) && Writes(v4, v5, |u.code|, IterNext(|v4.code| - |u.code|))
    ensures MakesIteration(u, v5, s)
  {
    hide Fills, Keeps, LaidElement;
    forall f, ctx: seq<Target> | Fills(v5, f, ctx)
      ensures Fills(u, f, ctx) && Is(f, |u.code|, IterNext(|v5.code| - |u.code|)) && Is(f, |v5.code| - 1, Jump(|u.code| - (|v5.code| - 1)))
      ensures LaidElement(f, |u.code| + 1, |v5.code| - 1, s, ctx)
    {
      assert Fills(v4, f, ctx) && Fills(v3, f, ctx) && Fills(v2, f, ctx);
      KeepsFills(v1, v2, f, ctx);
      KeepsFills(u, v1, f, ctx);
    }
  }

  /** The end of an iteration, at which t is left. */
  ghost predicate EndsIteration(u: View, v: View, t: Target) {
    && |v.code| == |u.code| + 3
    && forall f, ctx: seq<Target> :: Fills(v, f, ctx) ==>
         Fills(u, f, ctx + [t]) && Is(f, |u.code|, EnumPop) && Is(f, |u.code| + 1, Jump(2)) && Is(f, |u.code| + 2, EnumPopClose)
  }

  lemma IterationEnded(u: View, v1: View, v2: View, v3: View, v4: View, v5: View, t: Target)
    requires Emits(u, v1, EnumPop) && Opens(v1, v2) && Leaves(v2, v3, t) && Emits(v3, v4, EnumPopClose) && Writes(v4, v5, |v1.code|, Jump(2))
    ensures EndsIteration(u, v5, t)
  {
    hide Fills, Keeps;
    forall f, ctx: seq<Target> | Fills(v5, f, ctx)
      ensures Fills(u, f, ctx + [t]) && Is(f, |u.code|, EnumPop) && Is(f, |u.code| + 1, Jump(2)) && Is(f, |u.code| + 2, EnumPopClose)
    {
      assert Fills(v4, f, ctx) && Fills(v3, f, ctx) && Fills(v2, f, ctx + [t]);
      KeepsFills(v1, v2, f, ctx + [t]);
    }
  }

  lemma ForInOfMade(u: View, v1: View, v2: View, v3: View, v4: View, v5: View, s: Stmt, name: Option<string>)
    requires s.ForInOf? && Enters(u, v1) && MakesSource(v1, v2, s) && Emits(v2, v3, Iterate) && MakesIteration(v3, v4, s)
    requires EndsIteration(v4, v5, Target(BlockLoopEnum, name, |v4.code| + 2, |v3.code|))
    ensures MakesLoop(u, v5, s, name)
  {
    hide Fills, Layout, LaidSource;
    var t := Target(BlockLoopEnum, name, |v4.code| + 2, |v3.code|);
    var e, q := |v2.code|, |v4.code| - 1;
    forall f, ctx: seq<Target> | Fills(v5, f, ctx) ensures Fills(u, f, ctx) && LaidLoop(f, |u.code|, |v5.code|, s, name, ctx) {
      assert Fills(v4, f, ctx + [t]) && Fills(v3, f, ctx + [t]) && Fills(v2, f, ctx + [t]) && Fills(v1, f, ctx + [t]);
      assert LaidForInOf(f, |u.code|, e, q, s, name, ctx);
    }
  }

  // ---- try

  ghost predicate MakesCatchBody(u: View, v: View, c: Catch, parent: Stmt) {
    |u.code| <= |v.code| && forall f, ctx: seq<Target> :: Fills(v, f, ctx) ==> Fills(u, f, ctx) && LaidCatch(f, |u.code|, |v.code|, c, parent, ctx)
  }

  lemma ScopedCatchMade(u: View, v: View, c: Catch, parent: Stmt)
    requires c.parameter && MakesBlock(u, v, true, c.list, parent)
    ensures MakesCatchBody(u, v, c, parent)
  {
    hide Fills, LaidList;
  }

  lemma PlainCatchMade(u: View, v1: View, v2: View, c: Catch, parent: Stmt)
    requires !c.parameter && Emits(u, v1, Pop) && MakesBlock(v1, v2, c.lexical, c.list, parent)
    ensures MakesCatchBody(u, v2, c, parent)
  {
    hide Fills, LaidBlock;
  }

  /** The jump over a catch clause, and the clause. */
  ghost predicate MakesCatch(u: View, v: View, c: Catch, parent: Stmt) {
    && |u.code| < |v.code|
    && forall f, ctx: seq<Target> :: Fills(v, f, ctx) ==>
         Fills(u, f, ctx) && Is(f, |u.code|, Jump(|v.code| - |u.code|)) && LaidCatch(f, |u.code| + 1, |v.code|, c, parent, ctx)
  }

  lemma CatchMade(u: View, v1: View, v2: View, v3: View, c: Catch, parent: Stmt)
    requires Opens(u, v1) && MakesCatchBody(v1, v2, c, parent) && Writes(v2, v3, |u.code|, Jump(|v2.code| - |u.code|))
    ensures MakesCatch(u, v3, c, parent)
  {
    hide Fills, Keeps, LaidCatch;
    forall f, ctx: seq<Target> | Fills(v3, f, ctx) ensures Fills(u, f, ctx) && LaidCatch(f, |u.code| + 1, |v3.code|, c, parent, ctx) {
      assert Fills(v2, f, ctx) && Fills(v1, f, ctx);
      KeepsFills(u, v1, f, ctx);
    }
  }

  /** The finally block of a try, or the instruction that leaves it; and the one at lbl that enters it. */
  ghost predicate MakesEnd(u: View, v: View, lbl: nat, catchOffset: int, s: Stmt)
    requires s.TryStmt?
  {
    && |u.code| < |v.code|
    && forall f, ctx: seq<Target> :: Fills(v, f, ctx) ==>
         && Fills(u, f, ctx) && Is(f, lbl, Try(catchOffset, if s.finally_.Some? then |u.code| + 1 - lbl else 0))
         && if s.finally_.Some? then
              && Is(f, |u.code|, EnterFinally) && Is(f, |v.code| - 1, LeaveFinally)
              && |u.code| + 2 <= |v.code| && LaidBlock(f, |u.code| + 1, |v.code| - 1, s.finally_.value.lexical, s.finally_.value.list, s, ctx)
            else Is(f, |u.code|, LeaveTry) && |u.code| + 1 == |v.code|
  }

  lemma EndMade(u: View, v1: View, v2: View, v3: View, v4: View, lbl: nat, catchOffset: int, s: Stmt)
    requires s.TryStmt?
    requires if s.finally_.Some? then Emits(u, v1, EnterFinally) && MakesBlock(v1, v2, s.finally_.value.lexical, s.finally_.value.list, s) && Emits(v2, v3, LeaveFinally)
             else Emits(u, v3, LeaveTry)
    requires Writes(v3, v4, lbl, Try(catchOffset, if s.finally_.Some? then |u.code| + 1 - lbl else 0))
    ensures MakesEnd(u, v4, lbl, catchOffset, s)
  {
    hide Fills, LaidBlock;
  }

  lemma TryMade(u: View, v1: View, v2: View, v3: View, v4: View, v5: View, v6: View, s: Stmt)
    requires s.TryStmt? && Enters(u, v1) && Opens(v1, v2) && Makes(v2, v3, s.block)
    requires if s.catch_.Some? then MakesCatch(v3, v4, s.catch_.value, s) else v3 == v4
    requires MakesEnd(v4, v5, |u.code|, if s.catch_.Some? then |v3.code| + 1 - |u.code| else 0, s)
    requires Leaves(v5, v6, Target(BlockTry, None, |v6.code|, 0))
    ensures Makes(u, v6, s)
  {
    hide Fills, Layout, Keeps, LaidBlock, LaidCatch;
    var t := Target(BlockTry, None, |v6.code|, 0);
    forall f, ctx: seq<Target> | Fills(v6, f, ctx) ensures Fills(u, f, ctx) && Layout(f, |u.code|, |v6.code|, s, ctx) {
      var inner := ctx + [t];
      assert Fills(v5, f, inner) && Fills(v4, f, inner) && Fills(v3, f, inner) && Fills(v2, f, inner);
      KeepsFills(v1, v2, f, inner);
      TryIs(f, |u.code|, |v3.code|, |v4.code|, |v6.code|, s, ctx);
    }
  }

  lemma TryIs(f: seq<Instr>, a: nat, m: nat, n: nat, b: nat, s: Stmt, ctx: seq<Target>)
    requires s.TryStmt? && LaidTry(f, a, m, n, b, s, ctx)
    ensures Layout(f, a, b, s, ctx)
  {
  }

  // ---- switch

  /** All of the test of a case but the jump to it. */
  predicate LaidHead(f: seq<Instr>, p: nat, lexical: bool, test: nat) {
    var j := if lexical then p + 2 else p + 3;
    Is(f, p, Op(test)) && Is(f, p + 1, JumpUnless(j + 1 - (p + 1))) && (!lexical ==> Is(f, p + 2, Pop))
  }

  ghost predicate MakesHead(u: View, v: View, lexical: bool, test: nat) {
    && |v.code| == |u.code| + (if lexical then 3 else 4)
    && forall f, ctx: seq<Target> :: Fills(v, f, ctx) ==> Fills(u, f, ctx) && LaidHead(f, |u.code|, lexical, test)
  }

  lemma HeadMade(u: View, v1: View, v2: View, v3: View, v4: View, v5: View, lexical: bool, test: nat)
    requires Emits(u, v1, Op(test)) && Opens(v1, v2) && (if lexical then v2 == v3 else Emits(v2, v3, Pop)) && Opens(v3, v4)
    requires Writes(v4, v5, |v1.code|, JumpUnless(if lexical then 2 else 3))
    ensures MakesHead(u, v5, lexical, test)
  {
    hide Fills, Keeps;
    forall f, ctx: seq<Target> | Fills(v5, f, ctx) ensures Fills(u, f, ctx) && LaidHead(f, |u.code|, lexical, test) {
      assert Fills(v4, f, ctx);
      KeepsFills(v3, v4, f, ctx);
      assert Fills(v2, f, ctx);
      KeepsFills(v1, v2, f, ctx);
    }
  }

  /** The tests of the first n cases, whose jumps are to be filled in. */
  ghost predicate MakesHeads(u: View, v: View, s: Stmt, n: nat, jumps: seq<int>)
    requires s.Switch?
  {
    && n <= |s.cases| < |jumps| && |v.code| == TestAt(|u.code|, s.lexical, s.default_, n)
    && (forall i :: 0 <= i < n && i != s.default_ ==> jumps[i] == TestAt(|u.code|, s.lexical, s.default_, i) + if s.lexical then 2 else 3)
    && forall f, ctx: seq<Target> :: Fills(v, f, ctx) ==>
         Fills(u, f, ctx) && forall i :: 0 <= i < n && i != s.default_ ==> LaidHead(f, TestAt(|u.code|, s.lexical, s.default_, i), s.lexical, s.cases[i].test)
  }

  lemma HeadsNone(u: View, s: Stmt, jumps: seq<int>)
    requires s.Switch? && |s.cases| < |jumps|
    ensures MakesHeads(u, u, s, 0, jumps)
  {
  }

  lemma HeadsSkip(u: View, v: View, s: Stmt, n: nat, jumps: seq<int>)
    requires s.Switch? && MakesHeads(u, v, s, n, jumps) && n < |s.cases| && n == s.default_
    ensures MakesHeads(u, v, s, n + 1, jumps)
  {
    hide Fills;
  }

  lemma HeadsOneMore(u: View, v: View, w: View, s: Stmt, n: nat, jumps: seq<int>)
    requires s.Switch? && MakesHeads(u, v, s, n, jumps) && n < |s.cases| && n != s.default_ && MakesHead(v, w, s.lexical, s.cases[n].test)
    ensures MakesHeads(u, w, s, n + 1, jumps[n := |w.code| - 1])
  {
    hide Fills, LaidHead;
    var h, js := |u.code|, jumps[n := |w.code| - 1];
    forall f, ctx: seq<Target> | Fills(w, f, ctx)
      ensures Fills(u, f, ctx) && forall i :: 0 <= i < n + 1 && i != s.default_ ==> LaidHead(f, TestAt(h, s.lexical, s.default_, i), s.lexical, s.cases[i].test)
    {
      assert Fills(v, f, ctx);
    }
  }

  /** All tests, and the jump taken if none succeeds. */
  ghost predicate MakesTests(u: View, v: View, s: Stmt, jumps: seq<int>)
    requires s.Switch?
  {
    var n := |s.cases|;
    var p := TestAt(|u.code|, s.lexical, s.default_, n);
    var j := if s.lexical then p else p + 1;
    && |jumps| == n + 1 && -1 <= s.default_ < n
    && (forall i :: 0 <= i < n && i != s.default_ ==> jumps[i] == TestAt(|u.code|, s.lexical, s.default_, i) + if s.lexical then 2 else 3)
    && (if s.default_ == 0 then |v.code| == j else |v.code| == j + 1 && jumps[if s.default_ == -1 then n else s.default_] == j)
    && forall f, ctx: seq<Target> :: Fills(v, f, ctx) ==>
         && Fills(u, f, ctx) && (!s.lexical ==> Is(f, p, Pop))
         && forall i :: 0 <= i < n && i != s.default_ ==> LaidHead(f, TestAt(|u.code|, s.lexical, s.default_, i), s.lexical, s.cases[i].test)
  }

  lemma TestsMade(u: View, v1: View, v2: View, v3: View, s: Stmt, js: seq<int>, jumps: seq<int>)
    requires s.Switch? && |js| == |s.cases| + 1 && -1 <= s.default_ < |s.cases| && MakesHeads(u, v1, s, |s.cases|, js)
    requires if s.lexical then v1 == v2 else Emits(v1, v2, Pop)
    requires if s.default_ == 0 then v2 == v3 && jumps == js
             else Opens(v2, v3) && jumps == js[(if s.default_ == -1 then |s.cases| else s.default_) := |v2.code|]
    ensures MakesTests(u, v3, s, jumps)
  {
    hide Fills, Keeps, LaidHead, TestAt;
    forall f, ctx: seq<Target> | Fills(v3, f, ctx)
      ensures Fills(v1, f, ctx) && (!s.lexical ==> Is(f, |v1.code|, Pop))
    {
      if s.default_ != 0 {
        KeepsFills(v2, v3, f, ctx);
      }
    }
  }

  /** The first n cases, with the jumps to them. */
  ghost predicate MakesCases(u: View, v: View, s: Stmt, n: nat, jumps: seq<int>, marks: seq<nat>)
    requires s.Switch?
  {
    && n <= |s.cases| < |jumps| && |marks| == n + 1 && marks[0] == |u.code| <= |v.code| == marks[n]
    && forall f, ctx: seq<Target> :: Fills(v, f, ctx) ==>
         && Fills(u, f, ctx)
         && (forall i :: 0 <= i < n && jumps[i] >= 0 ==> Is(f, jumps[i], Jump(marks[i] - jumps[i])))
         && forall i :: 0 <= i < n ==> LaidList(f, marks[i], marks[i + 1], s.cases[i].list, s, ctx)
  }

  lemma CasesNone(u: View, s: Stmt, jumps: seq<int>)
    requires s.Switch? && |s.cases| < |jumps|
    ensures MakesCases(u, u, s, 0, jumps, [|u.code|])
  {
  }

  lemma CasesOneMore(u: View, v: View, v1: View, v2: View, s: Stmt, n: nat, jumps: seq<int>, marks: seq<nat>)
    requires s.Switch? && MakesCases(u, v, s, n, jumps, marks) && n < |s.cases|
    requires if jumps[n] >= 0 then Writes(v, v1, jumps[n], Jump(|v.code| - jumps[n])) else v == v1
    requires MakesBlock(v1, v2, false, s.cases[n].list, s)
    ensures MakesCases(u, v2, s, n + 1, jumps, marks + [|v2.code|])
  {
    hide Fills, LaidList;
    var more := marks + [|v2.code|];
    forall f, ctx: seq<Target> | Fills(v2, f, ctx)
      ensures Fills(u, f, ctx) && (forall i :: 0 <= i < n + 1 && jumps[i] >= 0 ==> Is(f, jumps[i], Jump(more[i] - jumps[i])))
      ensures forall i :: 0 <= i < n + 1 ==> LaidList(f, more[i], more[i + 1], s.cases[i].list, s, ctx)
    {
      assert Fills(v1, f, ctx) && Fills(v, f, ctx);
      assert LaidList(f, more[n], more[n + 1], s.cases[n].list, s, ctx);
      forall i | 0 <= i < n ensures LaidList(f, more[i], more[i + 1], s.cases[i].list, s, ctx) {
        assert more[i] == marks[i] && more[i + 1] == marks[i + 1];
      }
    }
  }

  /** The cases, with all the jumps to them and to the end. */
  ghost predicate MakesAllCases(u: View, v: View, s: Stmt, jumps: seq<int>, marks: seq<nat>)
    requires s.Switch?
  {
    var n := |s.cases|;
    && |jumps| == n + 1 && |marks| == n + 1 && marks[0] == |u.code| <= |v.code| == marks[n]
    && forall f, ctx: seq<Target> :: Fills(v, f, ctx) ==>
         && Fills(u, f, ctx)
         && (forall i :: 0 <= i <= n && jumps[i] >= 0 ==> Is(f, jumps[i], Jump(marks[i] - jumps[i])))
         && forall i :: 0 <= i < n ==> LaidList(f, marks[i], marks[i + 1], s.cases[i].list, s, ctx)
  }

  lemma AllCasesMade(u: View, v: View, w: View, s: Stmt, jumps: seq<int>, marks: seq<nat>)
    requires s.Switch? && |jumps| == |s.cases| + 1 && MakesCases(u, v, s, |s.cases|, jumps, marks)
    requires var j := jumps[|s.cases|]; if j >= 0 then Writes(v, w, j, Jump(|v.code| - j)) else v == w
    ensures MakesAllCases(u, w, s, jumps, marks)
  {
    hide Fills, LaidList;
  }

  /** What follows the discriminant. */
  ghost predicate MakesSwitched(u: View, v: View, s: Stmt, marks: seq<nat>)
    requires s.Switch?
  {
    && -1 <= s.default_ < |s.cases| && |marks| == |s.cases| + 1 && marks[|s.cases|] == |v.code| && |u.code| <= |v.code|
    && forall f, ctx: seq<Target> :: Fills(v, f, ctx) ==>
         && Fills(u, f, ctx) && LaidTests(f, |u.code|, marks, s)
         && forall i :: 0 <= i < |s.cases| ==> LaidList(f, marks[i], marks[i + 1], s.cases[i].list, s, ctx)
  }

  lemma SwitchedMade(u: View, v1: View, v2: View, s: Stmt, jumps: seq<int>, marks: seq<nat>)
    requires s.Switch? && MakesTests(u, v1, s, jumps) && MakesAllCases(v1, v2, s, jumps, marks)
    ensures MakesSwitched(u, v2, s, marks)
  {
    hide Fills, LaidList, LaidHead, LaidCaseTest, TestAt;
    forall f, ctx: seq<Target> | Fills(v2, f, ctx) ensures LaidTests(f, |u.code|, marks, s) {
      assert Fills(v1, f, ctx);
      forall i | 0 <= i < |s.cases| && i != s.default_
        ensures LaidCaseTest(f, TestAt(|u.code|, s.lexical, s.default_, i), s.lexical, s.cases[i].test, marks[i])
      {
        CaseTestIs(f, TestAt(|u.code|, s.lexical, s.default_, i), s.lexical, s.cases[i].test, marks[i]);
      }
    }
  }

  lemma CaseTestIs(f: seq<Instr>, p: nat, lexical: bool, test: nat, to: nat)
    requires var j := if lexical then p + 2 else p + 3; LaidHead(f, p, lexical, test) && Is(f, j, Jump(to - j))
    ensures LaidCaseTest(f, p, lexical, test, to)
  {
  }

  lemma PlainSwitchMade(u: View, v1: View, v2: View, v3: View, v4: View, s: Stmt, marks: seq<nat>)
    requires s.Switch? && !s.lexical && Enters(u, v1) && Emits(v1, v2, Op(s.discriminant)) && MakesSwitched(v2, v3, s, marks)
    requires Leaves(v3, v4, Target(BlockSwitch, None, |v4.code|, 0))
    ensures Makes(u, v4, s)
  {
    hide Fills, LaidList, LaidTests;
    var t := Target(BlockSwitch, None, |v4.code|, 0);
    forall f, ctx: seq<Target> | Fills(v4, f, ctx) ensures Fills(u, f, ctx) && Layout(f, |u.code|, |v4.code|, s, ctx) {
      assert ctx + [t] + [] == ctx + [t];
      assert Fills(v3, f, ctx + [t]) && Fills(v2, f, ctx + [t]) && Fills(v1, f, ctx + [t]);
      assert LaidSwitch(f, |u.code|, |v4.code|, marks, s, ctx);
    }
  }

  lemma ScopedSwitchMade(u: View, v1: View, v2: View, v3: View, v4: View, v5: View, v6: View, v7: View, s: Stmt, marks: seq<nat>)
    requires s.Switch? && s.lexical && Enters(u, v1) && Emits(v1, v2, Op(s.discriminant)) && Enters(v2, v3) && Emits(v3, v4, EnterBlock)
    requires MakesSwitched(v4, v5, s, marks) && LeavesScope(v5, v6, ScopeTarget) && Leaves(v6, v7, Target(BlockSwitch, None, |v7.code|, 0))
    ensures Makes(u, v7, s)
  {
    hide Fills, LaidList, LaidTests;
    var t := Target(BlockSwitch, None, |v7.code|, 0);
    forall f, ctx: seq<Target> | Fills(v7, f, ctx) ensures Fills(u, f, ctx) && Layout(f, |u.code|, |v7.code|, s, ctx) {
      var inner := ctx + [t] + [ScopeTarget];
      assert Fills(v6, f, ctx + [t]) && Fills(v5, f, inner) && Fills(v4, f, inner) && Fills(v3, f, inner);
      assert Fills(v2, f, ctx + [t]) && Fills(v1, f, ctx + [t]);
      assert LaidSwitch(f, |u.code|, |v7.code|, marks, s, ctx);
    }
  }

  // ---- break and continue

  /** One block was undone. */
  ghost predicate Undoes(u: View, v: View, j: nat) {
    && j < |u.blocks| == |v.blocks| && (forall k :: 0 <= k < |u.blocks| ==> v.blocks[k].typ == u.blocks[k].typ && v.blocks[k].name == u.blocks[k].name)
    && var t := u.blocks[j].typ;
       && |v.code| == |u.code| + (if IsScope(t) || t.BlockTry? || t.BlockWith? || t.BlockLoopEnum? then 1 else 0)
       && forall f, ctx: seq<Target> :: Fills(v, f, ctx) ==>
            && Fills(u, f, ctx) && (IsScope(t) ==> Is(f, |u.code|, LeaveBlock)) && (t.BlockTry? ==> Is(f, |u.code|, LeaveTry))
            && (t.BlockWith? ==> Is(f, |u.code|, LeaveWith)) && (t.BlockLoopEnum? ==> Is(f, |u.code|, EnumPopClose))
  }

  lemma ScopeUndone(v: View, j: nat, next: Shape)
    requires j < |v.blocks| && IsScope(v.blocks[j].typ)
    ensures Undoes(v, Added(v, j, WithBreak(v.blocks[j], |v.code|), next), j)
  {
    hide Fills;
    BreakAdds(v, j, next);
    var w := Added(v, j, WithBreak(v.blocks[j], |v.code|), next);
    forall f, ctx: seq<Target> | Fills(w, f, ctx) ensures Fills(v, f, ctx) && Is(f, |v.code|, LeaveBlock) {
      TypesAgree(w, f, ctx, j);
    }
  }

  lemma TypesAgree(v: View, f: seq<Instr>, ctx: seq<Target>, j: nat)
    requires Fills(v, f, ctx) && j < |v.blocks|
    ensures |ctx| == |v.blocks| && ctx[j].typ == v.blocks[j].typ
  {
  }

  lemma EmittedUndoes(u: View, v: View, j: nat, i: Instr)
    requires j < |u.blocks| && v.blocks == u.blocks && Emits(u, v, i)
    requires var t := u.blocks[j].typ; (t.BlockTry? && i == LeaveTry) || (t.BlockWith? && i == LeaveWith) || (t.BlockLoopEnum? && i == EnumPopClose)
    ensures Undoes(u, v, j)
  {
    hide Fills;
  }

  lemma NothingUndone(u: View, j: nat)
    requires j < |u.blocks| && var t := u.blocks[j].typ; !IsScope(t) && !t.BlockTry? && !t.BlockWith? && !t.BlockLoopEnum?
    ensures Undoes(u, u, j)
  {
    hide Fills;
  }

  /** If what follows is the way out of the first j blocks, then what was emitted since u is the beginning of the whole way. */
  ghost predicate OnWayOut(u: View, v: View, j: nat, name: Option<string>, isBreak: bool) {
    && j <= |u.blocks| == |v.blocks|
    && forall f, ctx: seq<Target> :: Fills(v, f, ctx) ==>
         Fills(u, f, ctx) && |ctx| == |v.blocks| && (ExitAt(f, |v.code|, ctx[..j], name, isBreak) ==> ExitAt(f, |u.code|, ctx, name, isBreak))
  }

  lemma WayOutBegins(u: View, name: Option<string>, isBreak: bool)
    ensures OnWayOut(u, u, |u.blocks|, name, isBreak)
  {
    forall f, ctx: seq<Target> | Fills(u, f, ctx) ensures ctx[..|u.blocks|] == ctx {
    }
  }

  /** Block j is not the one that a branch is about, and not the scope shared by the iterations of that. */
  ghost predicate GoesPast(v: View, j: nat, name: Option<string>, isBreak: bool)
    requires j < |v.blocks|
  {
    && !Catches(v.blocks[j].typ, v.blocks[j].name, name, isBreak)
    && !(!isBreak && j >= 1 && v.blocks[j].typ.BlockIterScope? && v.blocks[j - 1].typ.BlockLoop? && Catches(BlockLoop, v.blocks[j - 1].name, name, false))
  }

  lemma WayOutGoesOn(u: View, v: View, w: View, j: nat, name: Option<string>, isBreak: bool)
    requires j < |v.blocks| && OnWayOut(u, v, j + 1, name, isBreak) && Undoes(v, w, j) && GoesPast(v, j, name, isBreak)
    ensures OnWayOut(u, w, j, name, isBreak)
  {
    forall f, ctx: seq<Target> | Fills(w, f, ctx)
      ensures Fills(u, f, ctx) && |ctx| == |w.blocks| && (ExitAt(f, |w.code|, ctx[..j], name, isBreak) ==> ExitAt(f, |u.code|, ctx, name, isBreak))
    {
      assert Fills(v, f, ctx);
      var more := ctx[..j + 1];
      assert more[..|more| - 1] == ctx[..j];
    }
  }

  /** A placeholder on one of the lists of block k, of those a branch is about. */
  ghost predicate AddsJump(u: View, v: View, k: nat, isBreak: bool) {
    && k < |u.blocks| == |v.blocks| && |v.code| == |u.code| + 1 && (forall i :: 0 <= i < |u.blocks| ==> v.blocks[i].typ == u.blocks[i].typ && v.blocks[i].name == u.blocks[i].name)
    && forall f, ctx: seq<Target> :: Fills(v, f, ctx) ==>
         Fills(u, f, ctx) && |ctx| == |v.blocks| && (!IsScope(ctx[k].typ) ==> Is(f, |u.code|, Jump((if isBreak then ctx[k].brk else ctx[k].cont) - |u.code|)))
  }

  lemma BreakAdds(v: View, k: nat, next: Shape)
    requires k < |v.blocks|
    ensures var w := Added(v, k, WithBreak(v.blocks[k], |v.code|), next);
      AddsJump(v, w, k, true) && (forall f, ctx: seq<Target> :: Fills(w, f, ctx) ==> |ctx| == |w.blocks| && (IsScope(ctx[k].typ) ==> Is(f, |v.code|, LeaveBlock)))
  {
    var w := Added(v, k, WithBreak(v.blocks[k], |v.code|), next);
    forall f, ctx: seq<Target> | Fills(w, f, ctx)
      ensures Fills(v, f, ctx) && Is(f, |v.code|, if IsScope(ctx[k].typ) then LeaveBlock else Jump(ctx[k].brk - |v.code|))
    {
      assert |v.code| in w.blocks[k].breaks;
      AddedFills(v, k, WithBreak(v.blocks[k], |v.code|), next, f, ctx);
    }
  }

  lemma ContAdds(v: View, k: nat, next: Shape)
    requires k < |v.blocks|
    ensures AddsJump(v, Added(v, k, WithCont(v.blocks[k], |v.code|), next), k, false)
  {
    var w := Added(v, k, WithCont(v.blocks[k], |v.code|), next);
    forall f, ctx: seq<Target> | Fills(w, f, ctx) ensures Fills(v, f, ctx) && Is(f, |v.code|, Jump(ctx[k].cont - |v.code|)) {
      assert |v.code| in w.blocks[k].conts;
      AddedFills(v, k, WithCont(v.blocks[k], |v.code|), next, f, ctx);
    }
  }

  lemma AddedFills(v: View, k: nat, c: Block, next: Shape, f: seq<Instr>, ctx: seq<Target>)
    requires k < |v.blocks| && OneMore(v.blocks[k], c, |v.code|) && Fills(Added(v, k, c, next), f, ctx)
    ensures Fills(v, f, ctx)
  {
    var w := Added(v, k, c, next);
    forall pc | 0 <= pc < |v.code| && pc !in v.open && !v.code[pc].Hole? ensures f[pc] == v.code[pc] {
      assert w.code[pc] == v.code[pc];
    }
    forall i, pc: nat | 0 <= i < |ctx| && InLists(v.blocks[i], pc)
      ensures (pc in v.blocks[i].breaks ==> pc in w.blocks[i].breaks) && (pc in v.blocks[i].conts ==> pc in w.blocks[i].conts)
    {
    }
  }

  /** n blocks remain when the way out to block k ends: that block, and maybe the scope shared by its iterations. */
  lemma BranchMade(u: View, v: View, w: View, k: nat, n: nat, name: Option<string>, isBreak: bool)
    requires OnWayOut(u, v, n, name, isBreak) && AddsJump(v, w, k, isBreak) && k < n <= |v.blocks| && |u.code| <= |v.code|
    requires Catches(v.blocks[k].typ, v.blocks[k].name, name, isBreak) && !IsScope(v.blocks[k].typ) && (isBreak || IsLoop(v.blocks[k].typ))
    requires n == k + 1 || (n == k + 2 && !isBreak && v.blocks[k].typ.BlockLoop? && v.blocks[k + 1].typ.BlockIterScope? && v.blocks[k + 1].name.None?)
    ensures Makes(u, w, Branch(isBreak, name))
  {
    hide ExitAt, Catches;
    forall f, ctx: seq<Target> | Fills(w, f, ctx) ensures Fills(u, f, ctx) && Layout(f, |u.code|, |w.code|, Branch(isBreak, name), ctx) {
      assert Fills(v, f, ctx);
      LastJump(f, |v.code|, ctx, k, n, name, isBreak);
    }
  }

  lemma LastJump(f: seq<Instr>, pc: nat, ctx: seq<Target>, k: nat, n: nat, name: Option<string>, isBreak: bool)
    requires k < n <= |ctx| && Catches(ctx[k].typ, ctx[k].name, name, isBreak) && (isBreak || IsLoop(ctx[k].typ))
    requires Is(f, pc, Jump((if isBreak then ctx[k].brk else ctx[k].cont) - pc))
    requires n == k + 1 || (n == k + 2 && !isBreak && ctx[k].typ.BlockLoop? && ctx[k + 1].typ.BlockIterScope? && ctx[k + 1].name.None?)
    ensures ExitAt(f, pc, ctx[..n], name, isBreak)
  {
    var rest := ctx[..n];
    assert rest[k] == ctx[k];
  }


  // ---- programs

  /** Code without placeholders is what its statement should be. */
  lemma ProgramMade(u: View, v: View, s: Stmt)
    requires |u.code| == 0 && Makes(u, v, s) && v.blocks == [] && v.open == {} && forall pc :: 0 <= pc < |v.code| ==> !v.code[pc].Hole?
    ensures Layout(v.code, 0, |v.code|, s, [])
  {
    assert Fills(v, v.code, []);
  }
}
