/** The programs that the compiler refuses, against the rule of section 14.13 of ECMA-262, by which a loop has
    all the labels directly before it. The compiler gives it the last one only. */
module LabelSets {
  import opened Options
  import opened BranchBlocks
  import opened BranchLayout
  import opened BranchCompiler

  /** The labels around a statement, and those among them that are labels of loops it is in. */
  datatype Around = Around(labels: set<string>, iterations: set<string>, inLoop: bool, inSwitch: bool)

  /** labelSet are the labels directly before the statement. */
  ghost predicate Permitted(s: Stmt, labelSet: set<string>, x: Around) {
    match s
    case Expression(_) => true
    case Sequence(_, list) => forall i :: 0 <= i < |list| ==> Permitted(list[i], {}, x)
    case If(_, c, a) => Permitted(c, {}, x) && (a.Some? ==> Permitted(a.value, {}, x))
    case With(_, b) => Permitted(b, {}, x)
    case TryStmt(b, c, f) =>
      && Permitted(b, {}, x)
      && (c.Some? ==> forall i :: 0 <= i < |c.value.list| ==> Permitted(c.value.list[i], {}, x))
      && (f.Some? ==> forall i :: 0 <= i < |f.value.list| ==> Permitted(f.value.list[i], {}, x))
    case Switch(_, _, cases, _) =>
      forall i, j :: 0 <= i < |cases| && 0 <= j < |cases[i].list| ==> Permitted(cases[i].list[j], {}, x.(inSwitch := true))
    case Labelled(name, t) => name !in x.labels && Permitted(t, labelSet + {name}, x.(labels := x.labels + {name}))
    case Branch(isBreak, name) =>
      if name.None? then x.inLoop || (isBreak && x.inSwitch)
      else name.value in if isBreak then x.labels else x.iterations
    case _ => Permitted(s.body, {}, x.(iterations := x.iterations + labelSet, inLoop := true))
  }

  /** Some continue names a label of a loop around it that is not the last before the loop. outer are such
      labels of the loops around s. */
  ghost predicate ContinuesOuterLabel(s: Stmt, labelSet: set<string>, outer: set<string>) {
    match s
    case Expression(_) => false
    case Sequence(_, list) => exists i :: 0 <= i < |list| && ContinuesOuterLabel(list[i], {}, outer)
    case If(_, c, a) => ContinuesOuterLabel(c, {}, outer) || (a.Some? && ContinuesOuterLabel(a.value, {}, outer))
    case With(_, b) => ContinuesOuterLabel(b, {}, outer)
    case TryStmt(b, c, f) =>
      || ContinuesOuterLabel(b, {}, outer)
      || (c.Some? && exists i :: 0 <= i < |c.value.list| && ContinuesOuterLabel(c.value.list[i], {}, outer))
      || (f.Some? && exists i :: 0 <= i < |f.value.list| && ContinuesOuterLabel(f.value.list[i], {}, outer))
    case Switch(_, _, cases, _) =>
      exists i, j :: 0 <= i < |cases| && 0 <= j < |cases[i].list| && ContinuesOuterLabel(cases[i].list[j], {}, outer)
    case Labelled(name, t) =>
      if Loop(t) then ContinuesOuterLabel(t.body, {}, outer + labelSet) else ContinuesOuterLabel(t, labelSet + {name}, outer)
    case Branch(isBreak, name) => !isBreak && name.Some? && name.value in outer
    case _ => ContinuesOuterLabel(s.body, {}, outer)
  }

  /** What the compiler knows of the labels in force, against the rule. */
  ghost predicate Agree(e: Env, x: Around, labelSet: set<string>, outer: set<string>) {
    && e.inLoop == x.inLoop && e.inSwitch == x.inSwitch && e.labels.Keys == x.labels
    && labelSet <= x.labels && outer <= x.iterations <= x.labels && labelSet !! x.iterations
    && forall n :: n in e.labels ==> (e.labels[n] <==> n in x.iterations && n !in outer)
  }

  lemma {:induction false} LegalHere(s: Stmt, e: Env, x: Around, labelSet: set<string>, outer: set<string>)
    requires Agree(e, x, labelSet, outer) && (Loop(s) ==> labelSet == {})
    ensures Legal(s, e) <==> Permitted(s, labelSet, x) && !ContinuesOuterLabel(s, labelSet, outer)
    decreases s, 2
  {
    match s
    case Expression(_) =>
    case Branch(_, _) =>
    case Sequence(_, list) => LegalList(s, list, e, x, outer);
    case If(_, c, a) =>
      LegalHere(c, e, x, {}, outer);
      if a.Some? {
        LegalHere(a.value, e, x, {}, outer);
      }
    case With(_, b) => LegalHere(b, e, x, {}, outer);
    case TryStmt(_, _, _) => LegalTryHere(s, e, x, outer);
    case Switch(_, _, _, _) => LegalSwitch(s, e, x, outer);
    case Labelled(_, _) => LegalLabelled(s, e, x, labelSet, outer);
    case _ => LegalLoopHere(s, None, e, x, {}, outer, outer);
  }

  lemma {:induction false} LegalTryHere(s: Stmt, e: Env, x: Around, outer: set<string>)
    requires s.TryStmt? && Agree(e, x, {}, outer)
    ensures Legal(s, e) <==> Permitted(s, {}, x) && !ContinuesOuterLabel(s, {}, outer)
    decreases s, 1
  {
    LegalHere(s.block, e, x, {}, outer);
    if s.catch_.Some? {
      LegalList(s, s.catch_.value.list, e, x, outer);
    }
    if s.finally_.Some? {
      LegalList(s, s.finally_.value.list, e, x, outer);
    }
  }

  lemma {:induction false} LegalSwitch(s: Stmt, e: Env, x: Around, outer: set<string>)
    requires s.Switch? && Agree(e, x, {}, outer)
    ensures Legal(s, e) <==> Permitted(s, {}, x) && !ContinuesOuterLabel(s, {}, outer)
    decreases s, 1
  {
    var cases, e', x' := s.cases, Within(e, BlockSwitch, None), x.(inSwitch := true);
    forall i | 0 <= i < |cases|
      ensures (forall j :: 0 <= j < |cases[i].list| ==> Legal(cases[i].list[j], e')) <==>
        && (forall j :: 0 <= j < |cases[i].list| ==> Permitted(cases[i].list[j], {}, x'))
        && !(exists j :: 0 <= j < |cases[i].list| && ContinuesOuterLabel(cases[i].list[j], {}, outer))
    {
      LegalList(s, cases[i].list, e', x', outer);
    }
  }

  lemma {:induction false} LegalLabelled(s: Stmt, e: Env, x: Around, labelSet: set<string>, outer: set<string>)
    requires s.Labelled? && Agree(e, x, labelSet, outer)
    ensures Legal(s, e) <==> Permitted(s, labelSet, x) && !ContinuesOuterLabel(s, labelSet, outer)
    decreases s, 1
  {
    var name, t := s.name, s.stmt;
    if name !in e.labels {
      var x' := x.(labels := x.labels + {name});
      if Loop(t) {
        LegalLoopHere(t, Some(name), e, x', labelSet + {name}, outer, outer + labelSet);
      } else {
        LegalHere(t, Within(e, BlockLabel, Some(name)), x', labelSet + {name}, outer);
      }
    }
  }

  lemma {:induction false} LegalList(parent: Stmt, list: seq<Stmt>, e: Env, x: Around, outer: set<string>)
    requires Agree(e, x, {}, outer) && forall i :: 0 <= i < |list| ==> list[i] < parent
    ensures (forall i :: 0 <= i < |list| ==> Legal(list[i], e)) <==>
      && (forall i :: 0 <= i < |list| ==> Permitted(list[i], {}, x))
      && !(exists i :: 0 <= i < |list| && ContinuesOuterLabel(list[i], {}, outer))
    decreases parent, 0
  {
    forall i | 0 <= i < |list|
      ensures Legal(list[i], e) <==> Permitted(list[i], {}, x) && !ContinuesOuterLabel(list[i], {}, outer)
    {
      LegalHere(list[i], e, x, {}, outer);
    }
  }

  /** A loop with the labels directly before it, of which the compiler knows the last as the loop's. */
  lemma {:induction false} LegalLoopHere(s: Stmt, name: Option<string>, e: Env, x: Around, labelSet: set<string>,
                                         outer: set<string>, more: set<string>)
    requires Loop(s) && (name.Some? ==> name.value !in e.labels && name.value in labelSet) && (name.None? ==> labelSet == {})
    requires more == outer + (labelSet - if name.Some? then {name.value} else {})
    requires var was := if name.Some? then {name.value} else {}; Agree(e, x.(labels := x.labels - was), labelSet - was, outer) && was <= x.labels
    ensures LegalLoop(s, name, e) <==> Permitted(s, labelSet, x) && !ContinuesOuterLabel(s.body, {}, more)
    decreases s, 0
  {
    var e' := Within(e, if s.ForInOf? then BlockLoopEnum else BlockLoop, name);
    var x' := x.(iterations := x.iterations + labelSet, inLoop := true);
    assert Agree(e', x', {}, more);
    LegalHere(s.body, e', x', {}, more);
  }

  /** The compiler refuses a program exactly if the standard does, or if some continue names a label of a loop
      that is not the last before it. */
  lemma RefusedIff(s: Stmt)
    ensures Legal(s, Env(map[], false, false)) <==>
      Permitted(s, {}, Around({}, {}, false, false)) && !ContinuesOuterLabel(s, {}, {})
  {
    LegalHere(s, Env(map[], false, false), Around({}, {}, false, false), {}, {});
  }

  /** a: b: while (c) continue a */
  lemma OuterLabelExample()
    ensures var s := Labelled("a", Labelled("b", While(Some(0), Branch(false, Some("a")))));
      Permitted(s, {}, Around({}, {}, false, false)) && !Legal(s, Env(map[], false, false))
  {
    var s := Labelled("a", Labelled("b", While(Some(0), Branch(false, Some("a")))));
    var body := Branch(false, Some("a"));
    var loop := While(Some(0), body);
    assert ContinuesOuterLabel(body, {}, {"a"});
    assert {} + {"a"} == {"a"};
    assert ContinuesOuterLabel(Labelled("b", loop), {"a"}, {});
    assert ContinuesOuterLabel(s, {}, {});
    RefusedIff(s);
  }
}
