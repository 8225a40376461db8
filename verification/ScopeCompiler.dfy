/** The part of the compiler that keeps track of scopes, and in the end rewrites accesses to their bindings. */
module ScopeCompiler {
  import opened Options
  import opened ScopeSpec

  lemma {:induction false} CrossesOut(t: Tree, s: nat, u: nat)
    requires Rooted(t) && u < |t.scopes| && 0 < s < |t.scopes| && Around(t, s, u)
    ensures Around(t, Outer(t, s), u)
    ensures Crosses(t, Outer(t, s), u) <==> Crosses(t, s, u) || t.scopes[s].isFunction
    decreases u
  {
    AroundBelow(t, s, u);
    if s != u {
      CrossesOut(t, s, Outer(t, u));
    } else {
      assert Around(t, Outer(t, s), Outer(t, s));
    }
  }

  lemma {:induction false} AroundBelow(t: Tree, s: nat, u: nat)
    requires Rooted(t) && u < |t.scopes| && Around(t, s, u)
    ensures s <= u
    decreases u
  {
    if s != u {
      AroundBelow(t, s, Outer(t, u));
    }
  }

  /** The binding of a name that is innermost around u. */
  ghost predicate Refers(t: Tree, u: nat, name: string, b: nat)
    requires Rooted(t) && u < |t.scopes|
  {
    && b < |t.bindings| && 0 < t.bindings[b].scope < |t.scopes| && Around(t, t.bindings[b].scope, u)
    && name in t.scopes[t.bindings[b].scope].names && t.scopes[t.bindings[b].scope].names[name] == b
    && forall r :: t.bindings[b].scope < r < |t.scopes| && Around(t, r, u) ==> name !in t.scopes[r].names
  }

  lemma AllBelow(t: Tree, u: nat)
    requires Rooted(t) && u < |t.scopes|
    ensures forall r: nat :: Around(t, r, u) ==> r <= u
  {
    forall r: nat | Around(t, r, u) ensures r <= u {
      AroundBelow(t, r, u);
    }
  }

  lemma NameIsBound(t: Tree, s: nat, name: string)
    requires TreeOk(t) && s < |t.scopes| && name in t.scopes[s].names
    ensures t.scopes[s].names[name] < |t.bindings| && t.bindings[t.scopes[s].names[name]].scope == s
  {
    assert FlagsOk(t, s) && Listed(t, s);
  }

  /** Between a scope around u and the next there is no other. */
  lemma {:induction false} OnTheWay(t: Tree, s: nat, u: nat)
    requires Rooted(t) && u < |t.scopes| && 0 < s < |t.scopes| && Around(t, s, u)
    ensures forall r :: Outer(t, s) < r < s ==> !Around(t, r, u)
    decreases u
  {
    AroundBelow(t, s, u);
    forall r | Outer(t, s) < r < s ensures !Around(t, r, u) {
      if s != u {
        OnTheWay(t, s, Outer(t, u));
      } else if Around(t, r, Outer(t, u)) {
        AroundBelow(t, r, Outer(t, u));
      }
    }
  }

  lemma StillRefers(t: Tree, t': Tree, u: nat, name: string, b: nat)
    requires Rooted(t) && Rooted(t') && OnlyFlags(t, t') && u < |t.scopes| && Refers(t, u, name, b)
    ensures Refers(t', u, name, b)
  {
    forall r | 0 <= r < |t.scopes| ensures Around(t', r, u) == Around(t, r, u) {
      AroundByOuter(t, t', r, u);
    }
  }

  lemma UsedRefers(t: Tree, u: nat, name: string, b: nat, x: Use)
    requires TreeOk(t) && u < |t.scopes| && Refers(t, u, name, b)
    ensures Rooted(Used(t, b, x)) && Refers(Used(t, b, x), u, name, b)
    ensures forall s :: 0 <= s < |t.scopes| ==> Around(Used(t, b, x), s, u) == Around(t, s, u)
  {
    var t' := Used(t, b, x);
    forall r | 0 <= r < |t.scopes| ensures Around(t', r, u) == Around(t, r, u) {
      AroundLonger(t, t', r, u);
    }
  }

  lemma EmittedOther(t: Tree, code: seq<Instr>, final: set<nat>)
    requires TreeOk(t) && CodeOk(t, code, final)
    ensures CodeOk(t, code + [Other], final)
  {
    hide Resolve;
    forall b, k | 0 <= b < |t.bindings| && 0 <= k < |t.bindings[b].uses| ensures Reads(t, code + [Other], b, k, t.bindings[b].scope in final) {
      assert Reads(t, code, b, k, t.bindings[b].scope in final);
    }
  }

  lemma OnTheWayAll(t: Tree, s: nat, u: nat)
    requires Rooted(t) && u < |t.scopes| && s < |t.scopes| && Around(t, s, u)
    ensures s == 0 || (Around(t, Outer(t, s), u) && forall r :: Outer(t, s) < r < s ==> !Around(t, r, u))
  {
    if s > 0 {
      OnTheWay(t, s, u);
      CrossesOut(t, s, u);
    }
  }

  /** The level of every use of a binding fits into its access. */
  ghost predicate NotTooDeep(t: Tree, b: nat)
    requires TreeOk(t) && b < |t.bindings|
  {
    forall k :: 0 <= k < |t.bindings[b].uses| ==> Shallow(t, b, k)
  }

  ghost predicate Shallow(t: Tree, b: nat, k: nat)
    requires TreeOk(t) && b < |t.bindings| && k < |t.bindings[b].uses|
  {
    assert UseOk(t, b, k);
    Level(t, t.bindings[b].scope, t.bindings[b].uses[k].scope) <= 255
  }

  /** Rewriting one access leaves the others as they are. */
  lemma RewrittenOne(t: Tree, code: seq<Instr>, code': seq<Instr>, b: nat, k: nat)
    requires Shaped(t) && Apart(t, |code|) && b < |t.bindings| && k < |t.bindings[b].uses| && Reads(t, code, b, k, false)
    requires var x := t.bindings[b].uses[k]; code' == code[x.pos := Resolve(t, b, x.scope, x.op)]
    ensures Reads(t, code', b, k, true)
    ensures forall l, r :: 0 <= l < |t.bindings[b].uses| && l != k && Reads(t, code, b, l, r) ==> Reads(t, code', b, l, r)
  {
    hide Resolve;
  }

  /** s and the blocks inside of it, in the same function. */
  ghost function Region(t: Tree, s: nat): (r: set<nat>)
    requires Rooted(t)
  {
    set u: nat | u < |t.scopes| && Within(t, s, u)
  }

  lemma {:induction false} WithinIsAround(t: Tree, s: nat, u: nat)
    requires Rooted(t) && u < |t.scopes| && Within(t, s, u)
    ensures Around(t, s, u) && s <= u
    decreases u
  {
    if s != u {
      WithinIsAround(t, s, Outer(t, u));
    }
  }

  /** What is within s, but is not s, is within exactly one of the blocks directly inside of s. */
  lemma {:induction false} WithinOneChild(t: Tree, s: nat, u: nat)
    requires Rooted(t) && s < |t.scopes| && u < |t.scopes| && NestedOk(t, s) && s != u
    ensures Within(t, s, u) <==> exists i :: 0 <= i < |t.scopes[s].nested| && Within(t, t.scopes[s].nested[i], u)
    ensures forall i, j :: 0 <= i < j < |t.scopes[s].nested| ==>
      !(Within(t, t.scopes[s].nested[i], u) && Within(t, t.scopes[s].nested[j], u))
    decreases u
  {
    var ns := t.scopes[s].nested;
    forall i | 0 <= i < |ns| && Within(t, ns[i], u) ensures Child(t, s, ns[i]) && ns[i] <= u {
      WithinIsAround(t, ns[i], u);
    }
    if u > 0 && !t.scopes[u].isFunction {
      if Outer(t, u) == s {
        assert Child(t, s, u) <==> s < u;
        forall i | 0 <= i < |ns| && Within(t, ns[i], u) ensures ns[i] == u {
          if ns[i] != u {
            WithinIsAround(t, ns[i], s);
          }
        }
      } else {
        WithinOneChild(t, s, Outer(t, u));
      }
    }
  }

  ghost predicate AllShallow(t: Tree, done: set<nat>)
    requires TreeOk(t)
  {
    forall b :: 0 <= b < |t.bindings| && t.bindings[b].scope in done ==> NotTooDeep(t, b)
  }

  /** Rewriting the accesses to one binding leaves those to others as they are. */
  lemma RewrittenBinding(t: Tree, code: seq<Instr>, code': seq<Instr>, b: nat, c: nat, k: nat, r: bool)
    requires Shaped(t) && Apart(t, |code|) && |code'| == |code| && b < |t.bindings| && c < |t.bindings| && b != c
    requires k < |t.bindings[c].uses| && Reads(t, code, c, k, r)
    requires forall pos :: 0 <= pos < |code| && (forall l :: 0 <= l < |t.bindings[b].uses| ==> t.bindings[b].uses[l].pos != pos) ==>
      code'[pos] == code[pos]
    ensures Reads(t, code', c, k, r)
  {
    hide Resolve;
    var pos := t.bindings[c].uses[k].pos;
    assert forall l :: 0 <= l < |t.bindings[b].uses| ==> t.bindings[b].uses[l].pos != pos;
  }

  predicate IsDone(b: Binding, done: set<nat>, s: nat, n: nat) {
    b.scope in done || (b.scope == s && b.index < n)
  }

  /** The accesses to bindings of done scopes, and to the first n of s, have been rewritten. */
  ghost predicate PartDone(t: Tree, code: seq<Instr>, done: set<nat>, s: nat, n: nat)
    requires Shaped(t)
  {
    Apart(t, |code|) && forall b, k :: 0 <= b < |t.bindings| && 0 <= k < |t.bindings[b].uses| ==>
      Reads(t, code, b, k, IsDone(t.bindings[b], done, s, n))
  }

  lemma NoneDone(t: Tree, code: seq<Instr>, done: set<nat>, s: nat)
    requires Shaped(t) && CodeOk(t, code, done)
    ensures PartDone(t, code, done, s, 0)
  {
    hide Apart, Reads;
    forall b, k | 0 <= b < |t.bindings| && 0 <= k < |t.bindings[b].uses| ensures Reads(t, code, b, k, IsDone(t.bindings[b], done, s, 0)) {
      assert Reads(t, code, b, k, t.bindings[b].scope in done);
    }
  }

  lemma OneMoreDone(t: Tree, code: seq<Instr>, code': seq<Instr>, done: set<nat>, s: nat, n: nat)
    requires Shaped(t) && s < |t.scopes| && n < |t.scopes[s].bindings| && PartDone(t, code, done, s, n) && |code'| == |code|
    requires t.scopes[s].bindings[n] < |t.bindings| && s !in done
    requires var b := t.scopes[s].bindings[n];
      && (forall k :: 0 <= k < |t.bindings[b].uses| ==> Reads(t, code', b, k, true))
      && (forall pos :: 0 <= pos < |code| && (forall l :: 0 <= l < |t.bindings[b].uses| ==> t.bindings[b].uses[l].pos != pos) ==>
            code'[pos] == code[pos])
    ensures PartDone(t, code', done, s, n + 1)
  {
    hide Apart, Reads;
    var b := t.scopes[s].bindings[n];
    assert Listed(t, s);
    var n1 := n + 1;
    forall c, k | 0 <= c < |t.bindings| && 0 <= k < |t.bindings[c].uses|
      ensures Reads(t, code', c, k, IsDone(t.bindings[c], done, s, n1))
    {
      if c != b {
        assert Reads(t, code, c, k, IsDone(t.bindings[c], done, s, n));
        RewrittenBinding(t, code, code', b, c, k, IsDone(t.bindings[c], done, s, n));
      }
    }
  }

  lemma ReadsUndone(t: Tree, code: seq<Instr>, done: set<nat>, s: nat, i: nat, b: nat)
    requires Shaped(t) && s < |t.scopes| && PartDone(t, code, done, s, i) && s !in done
    requires i < |t.scopes[s].bindings| && b == t.scopes[s].bindings[i]
    ensures b < |t.bindings| && t.bindings[b].scope == s && t.bindings[b].index == i && Apart(t, |code|)
    ensures forall k :: 0 <= k < |t.bindings[b].uses| ==> Reads(t, code, b, k, false)
  {
    hide Apart, Reads;
    assert Listed(t, s);
    forall k | 0 <= k < |t.bindings[b].uses| ensures Reads(t, code, b, k, false) {
      assert Reads(t, code, b, k, IsDone(t.bindings[b], done, s, i));
    }
  }

  lemma OwnDone(t: Tree, code: seq<Instr>, done: set<nat>, s: nat)
    requires TreeOk(t) && s < |t.scopes| && PartDone(t, code, done, s, |t.scopes[s].bindings|)
    requires forall j :: 0 <= j < |t.scopes[s].bindings| ==>
      t.scopes[s].bindings[j] < |t.bindings| && NotTooDeep(t, t.scopes[s].bindings[j])
    ensures CodeOk(t, code, done + {s}) && AllShallow(t, {s})
  {
    hide Apart, Reads, NotTooDeep, NestedOk, FlagsOk, UseOk;
    forall b | 0 <= b < |t.bindings| && t.bindings[b].scope in {s} ensures NotTooDeep(t, b) {
      assert t.scopes[s].bindings[t.bindings[b].index] == b;
    }
    forall b, k | 0 <= b < |t.bindings| && 0 <= k < |t.bindings[b].uses|
      ensures Reads(t, code, b, k, t.bindings[b].scope in done + {s})
    {
      assert Reads(t, code, b, k, IsDone(t.bindings[b], done, s, |t.scopes[s].bindings|));
    }
  }

  lemma SomeTooDeep(t: Tree, some: set<nat>, all: set<nat>)
    requires TreeOk(t) && some <= all && !AllShallow(t, some)
    ensures !AllShallow(t, all)
  {
  }

  /** The blocks inside of one directly inside of s are none of those inside of another. */
  lemma ChildRegion(t: Tree, s: nat, i: nat, all: set<nat>) returns (more: set<nat>)
    requires TreeOk(t) && s < |t.scopes| && i < |t.scopes[s].nested|
    requires forall u: nat :: u in all <==> u == s || (u < |t.scopes| && exists j :: 0 <= j < i && Within(t, t.scopes[s].nested[j], u))
    ensures s < t.scopes[s].nested[i] < |t.scopes| && more == Region(t, t.scopes[s].nested[i]) && more !! all && more <= Region(t, s)
    ensures forall u: nat :: u in all + more <==> u == s || (u < |t.scopes| && exists j :: 0 <= j < i + 1 && Within(t, t.scopes[s].nested[j], u))
  {
    hide UseOk, FlagsOk, Bound;
    assert NestedOk(t, s);
    var n := t.scopes[s].nested[i];
    assert Child(t, s, n);
    more := Region(t, n);
    forall u | u in more ensures u != s && u !in all && Within(t, s, u) {
      WithinIsAround(t, n, u);
      WithinOneChild(t, s, u);
    }
  }

  lemma OffsetOfChild(t: Tree, s: nat, i: nat)
    requires TreeOk(t) && s < |t.scopes| && i < |t.scopes[s].nested|
    ensures t.scopes[s].nested[i] < |t.scopes|
    ensures StackOffset(t, t.scopes[s].nested[i]) == StackOffset(t, s) + StackCount(t, s, |t.scopes[s].bindings|)
  {
    assert NestedOk(t, s);
    assert Child(t, s, t.scopes[s].nested[i]);
  }

  lemma AllChildren(t: Tree, s: nat, all: set<nat>)
    requires TreeOk(t) && s < |t.scopes|
    requires forall u: nat :: u in all <==>
      u == s || (u < |t.scopes| && exists j :: 0 <= j < |t.scopes[s].nested| && Within(t, t.scopes[s].nested[j], u))
    ensures all == Region(t, s)
  {
    assert NestedOk(t, s);
    forall u: nat | u < |t.scopes| && u != s ensures u in all <==> Within(t, s, u) {
      WithinOneChild(t, s, u);
    }
  }

  /** A function that has been left is finished, and so are the blocks inside of what is finished. */
  ghost predicate LeftOk(t: Tree, final: set<nat>, cur: nat)
    requires Rooted(t) && cur < |t.scopes|
  {
    && (forall s :: 0 <= s < |t.scopes| && t.scopes[s].isFunction && !Around(t, s, cur) ==> s in final)
    && (forall s :: 0 < s < |t.scopes| && !t.scopes[s].isFunction && Outer(t, s) in final ==> s in final)
  }

  lemma LeftKept(t: Tree, t': Tree, final: set<nat>, cur: nat)
    requires TreeOk(t) && TreeOk(t') && cur < |t.scopes| && |t'.scopes| == |t.scopes| && OnlyLonger(t, t') && LeftOk(t, final, cur)
    ensures LeftOk(t', final, cur)
  {
    forall s | 0 <= s < |t.scopes| ensures Around(t', s, cur) == Around(t, s, cur) {
      AroundLonger(t, t', s, cur);
    }
  }

  /** Inside of a new scope, as in what it is in. */
  lemma LeftEntered(t: Tree, final: set<nat>, cur: nat, isFunction: bool, dynamic: bool, variable: bool)
    requires TreeOk(t) && cur < |t.scopes| && LeftOk(t, final, cur) && FinalOk(t, final, cur)
    requires TreeOk(Entered(t, cur, isFunction, dynamic, variable))
    ensures LeftOk(Entered(t, cur, isFunction, dynamic, variable), final, |t.scopes|)
  {
    var t', u := Entered(t, cur, isFunction, dynamic, variable), |t.scopes|;
    assert Outer(t', u) == cur && OnlyLonger(t, t');
    forall s | 0 <= s < u ensures Around(t', s, u) == Around(t, s, cur) {
      AroundLonger(t, t', s, cur);
    }
    assert Around(t', u, u) && Around(t, cur, cur);
  }

  /** Leaving a scope, with what becomes final by it. */
  lemma FinalOnLeaving(t: Tree, final: set<nat>, cur: nat, more: set<nat>)
    requires TreeOk(t) && 0 < cur < |t.scopes| && FinalOk(t, final, cur) && LeftOk(t, final, cur)
    requires more == if t.scopes[cur].isFunction then Region(t, cur) else {}
    ensures FinalOk(t, final + more, Outer(t, cur)) && LeftOk(t, final + more, Outer(t, cur))
  {
    var o := Outer(t, cur);
    forall s: nat | s < |t.scopes| ensures Around(t, s, o) ==> Around(t, s, cur) && s < cur {
      if Around(t, s, o) {
        AroundBelow(t, s, o);
      }
    }
    forall s | s in more ensures cur <= s && !Around(t, s, o) {
      WithinIsAround(t, cur, s);
    }
  }

  /** What is in the function being compiled is not finished. */
  lemma {:induction false} NotYetFinal(t: Tree, final: set<nat>, cur: nat, u: nat)
    requires Rooted(t) && cur < |t.scopes| && FinalOk(t, final, cur) && u < |t.scopes| && Within(t, cur, u)
    ensures u !in final
    decreases u
  {
    if u != cur {
      NotYetFinal(t, final, cur, Outer(t, u));
    } else {
      assert Around(t, cur, cur);
    }
  }

  /** At the end everything is finished but what is inside of no function. */
  lemma {:induction false} AllFinal(t: Tree, final: set<nat>, u: nat)
    requires TreeOk(t) && LeftOk(t, final, 0) && u < |t.scopes|
    ensures u in final + Region(t, 0)
    decreases u
  {
    if u > 0 {
      if !t.scopes[u].isFunction {
        AllFinal(t, final, Outer(t, u));
      }
    }
  }

  /** Every access to a binding has become what it should. */
  ghost predicate Resolved(t: Tree, code: seq<Instr>) {
    TreeOk(t) && forall b, k :: 0 <= b < |t.bindings| && 0 <= k < |t.bindings[b].uses| ==> Reads(t, code, b, k, true)
  }

  /** An access in another function than that of the binding is to the stash. An access to the stash leads, by
      its level, to the stash of the scope of the binding, and there to a slot no other binding has. */
  lemma UseOfStashIsRight(t: Tree, code: seq<Instr>, b: nat, k: nat)
    requires Resolved(t, code) && b < |t.bindings| && k < |t.bindings[b].uses|
    ensures var x := t.bindings[b].uses[k];
      && x.scope < |t.scopes| && x.pos < |code| && t.bindings[b].scope < |t.scopes|
      && (code[x.pos].Stash? <==> InStash(t, b)) && (Crosses(t, t.bindings[b].scope, x.scope) ==> InStash(t, b))
    ensures var i := code[t.bindings[b].uses[k].pos];
      i.Stash? ==>
        && i.op == t.bindings[b].uses[k].op && ScopeAt(t, t.bindings[b].uses[k].scope, i.at) == Some(t.bindings[b].scope)
        && (forall c :: 0 <= c < |t.bindings| && InStash(t, c) && t.bindings[c].scope == t.bindings[b].scope ==>
              (i.at % SLOTS == StashCount(t, t.bindings[c].scope, t.bindings[c].index) <==> c == b))
  {
    var s, x := t.bindings[b].scope, t.bindings[b].uses[k];
    assert UseOk(t, b, k) && Reads(t, code, b, k, true);
    if InStash(t, b) {
      OwnsIfUsed(t, b);
      hide Level, StashCount, Slot, Crosses, Around, StashChain, UseOk, FlagsOk, NestedOk;
      PlaceIsTheBindings(t, b, x.scope);
      StashCountBelow(t, s, t.bindings[b].index);
      Unpack(Level(t, s, x.scope), StashCount(t, s, t.bindings[b].index));
    }
  }

  lemma OwnsIfUsed(t: Tree, b: nat)
    requires TreeOk(t) && b < |t.bindings| && InStash(t, b)
    ensures OwnsStash(t, t.bindings[b].scope) && |t.scopes[t.bindings[b].scope].bindings| < SLOTS
  {
    var s := t.bindings[b].scope;
    assert FlagsOk(t, s) && Listed(t, s) && t.scopes[s].bindings[t.bindings[b].index] == b;
  }

  /** c is on the stack, in the same function as b, and one is in scope where the other is. */
  predicate OnStackTogether(t: Tree, b: nat, c: nat)
    requires Shaped(t) && b < |t.bindings| && c < |t.bindings| && t.bindings[b].scope < |t.scopes| && t.bindings[c].scope < |t.scopes|
  {
    && !InStash(t, c) && t.bindings[c].name != THIS
    && (Within(t, t.bindings[b].scope, t.bindings[c].scope) || Within(t, t.bindings[c].scope, t.bindings[b].scope))
  }

  /** The level and the slot of an access that is not nested too deeply fit into 32 bits. */
  lemma PlaceFits(t: Tree, b: nat, k: nat)
    requires TreeOk(t) && b < |t.bindings| && k < |t.bindings[b].uses| && Shallow(t, b, k)
    ensures t.bindings[b].uses[k].scope < |t.scopes| && Place(t, b, t.bindings[b].uses[k].scope) < 0x1_0000_0000
  {
    assert UseOk(t, b, k);
    StashCountBelow(t, t.bindings[b].scope, t.bindings[b].index);
  }

  /** An access to the stack goes to the cell of the frame where the binding is: a parameter to its argument, whatever blocks of
      the function execution is in and however many arguments there are. No other binding in scope with it has its slot. */
  lemma UseOfStackIsRight(t: Tree, code: seq<Instr>, b: nat, k: nat)
    requires Resolved(t, code) && b < |t.bindings| && k < |t.bindings[b].uses|
    requires t.bindings[b].scope < |t.scopes| && !InStash(t, b)
    ensures var x := t.bindings[b].uses[k];
      && x.pos < |code| && x.scope < |t.scopes| && !code[x.pos].Stash? && !code[x.pos].Other? && code[x.pos].op == x.op
      && (code[x.pos].Unresolved? <==> t.bindings[b].name == THIS)
      && (code[x.pos].Stack1? ==> code[x.pos].slot > 0)
    ensures var x := t.bindings[b].uses[k];
      forall args :: t.scopes[t.bindings[b].scope].numArgs <= args ==>
        var at := Address(code[x.pos], args);
        0 <= at < |StackFrame(t, x.scope, args)| && StackFrame(t, x.scope, args)[at] == CellOf(t, b)
    ensures t.bindings[b].name != THIS ==>
      forall c :: 0 <= c < |t.bindings| && c != b && OnStackTogether(t, b, c) ==> Slot(t, c) != Slot(t, b)
  {
    var s, x := t.bindings[b].scope, t.bindings[b].uses[k];
    assert Reads(t, code, b, k, true) && UseOk(t, b, k);
    UncrossedIsWithin(t, s, x.scope);
    ArgsOfFunctions(t);
    ArgsNotMoved(t, b);
    hide Level, StashCount, Slot, Within, ArgsInStash, NestedOk, FlagsOk, UseOk, StackFrame;
    forall args | t.scopes[s].numArgs <= args
      ensures var at := Address(code[x.pos], args);
        0 <= at < |StackFrame(t, x.scope, args)| && StackFrame(t, x.scope, args)[at] == CellOf(t, b)
    {
      SlotLeadsToCell(t, b, x.scope, x.op, args);
    }
    forall c | 0 <= c < |t.bindings| && c != b && OnStackTogether(t, b, c) && t.bindings[b].name != THIS ensures Slot(t, c) != Slot(t, b) {
      if Within(t, t.bindings[b].scope, t.bindings[c].scope) {
        SlotsDiffer(t, b, c);
      } else {
        SlotsDiffer(t, c, b);
      }
    }
  }

  /** The parameters of a function whose arguments were moved to its stash are there; other accesses are to locals. */
  lemma ArgsNotMoved(t: Tree, b: nat)
    requires TreeOk(t) && b < |t.bindings| && !InStash(t, b)
    ensures var s := t.bindings[b].scope;
      && (t.bindings[b].index < t.scopes[s].numArgs ==> !ArgsInStash(t, s))
      && (t.bindings[b].index >= t.scopes[s].numArgs && t.bindings[b].name != THIS ==> Slot(t, b) > 0)
  {
    var s, i := t.bindings[b].scope, t.bindings[b].index;
    assert FlagsOk(t, s) && Listed(t, s) && t.scopes[s].bindings[i] == b;
    if i >= t.scopes[s].numArgs && t.bindings[b].name != THIS {
      SlotIs(t, b);
    }
  }

  lemma ArgsOfFunctions(t: Tree)
    requires TreeOk(t)
    ensures forall s :: 0 <= s < |t.scopes| && t.scopes[s].numArgs > 0 ==> t.scopes[s].isFunction
  {
    forall s | 0 <= s < |t.scopes| && t.scopes[s].numArgs > 0 ensures t.scopes[s].isFunction {
      assert FlagsOk(t, s);
    }
  }

  lemma StashCountBelow(t: Tree, s: nat, n: nat)
    requires TreeOk(t) && s < |t.scopes| && n <= |t.scopes[s].bindings|
    ensures StashCount(t, s, n) < SLOTS
  {
    assert FlagsOk(t, s);
    StashCountGrows(t, s, n, n);
  }

  class Compiler {
    var scopes: seq<Scope>
    var bindings: seq<Binding>
    var code: seq<Instr>
    var cur: nat
    /** The scopes whose accesses have been rewritten. */
    ghost var final: set<nat>

    ghost function Abs(): Tree
      reads this
    {
      Tree(scopes, bindings)
    }

    ghost predicate Valid()
      reads this
    {
      TreeOk(Abs()) && cur < |scopes| && CodeOk(Abs(), code, final) && FinalOk(Abs(), final, cur) && LeftOk(Abs(), final, cur)
    }

    constructor ()
      ensures Valid() && cur == 0 && |scopes| == 1 && bindings == [] && code == [] && final == {}
    {
      scopes := [Scope(None, false, true, false, false, 0, [], map[], [], false)];
      bindings, code, cur, final := [], [], 0, {};
    }

    method EnterScope(isFunction: bool, dynamic: bool, variable: bool)
      requires Valid()
      modifies `scopes, `cur
      ensures Valid() && cur == old(|scopes|) && Abs() == Entered(old(Abs()), old(cur), isFunction, dynamic, variable)
    {
      hide TreeOk, CodeOk, FinalOk, LeftOk, Around;
      ghost var t := Abs();
      EnteredKeeps(t, cur, isFunction, dynamic, variable);
      StateKept(t, Entered(t, cur, isFunction, dynamic, variable), code, final, cur);
      LeftEntered(t, final, cur, isFunction, dynamic, variable);
      var x := scopes[cur];
      scopes := scopes[cur := if isFunction then x else x.(nested := x.nested + [|scopes|])]
        + [Scope(Some(cur), isFunction, dynamic, false, false, 0, [], map[], [], variable)];
      NewIsNotFinal(t, final, cur);
      NotAroundNew(Abs(), final, cur, |scopes| - 1);
      cur := |scopes| - 1;
    }

    /** A new binding of a scope around; false if it has too many. */
    method AddBinding(s: nat, name: string, isArg: bool) returns (ok: bool)
      requires Valid() && s < |scopes| && Around(Abs(), s, cur)
      requires isArg ==> scopes[s].isFunction && scopes[s].numArgs == |scopes[s].bindings| && !scopes[s].argsInStash
      modifies `scopes, `bindings
      ensures Valid() && ok == (|old(scopes)[s].bindings| + 1 < SLOTS)
      ensures Abs() == if ok then Added(old(Abs()), s, name, isArg) else old(Abs())
    {
      hide TreeOk, CodeOk, FinalOk, LeftOk, Around;
      ghost var t := Abs();
      if |scopes[s].bindings| >= SLOTS - 1 {
        return false;
      }
      AddedFurtherOut(t, s, name, isArg, cur);
      StateKept(t, Added(t, s, name, isArg), code, final, cur);
      LeftKept(t, Added(t, s, name, isArg), final, cur);
      var b, x := |bindings|, scopes[s];
      scopes := scopes[s := x.(bindings := x.bindings + [b], names := x.names[name := b], numArgs := if isArg then x.numArgs + 1 else x.numArgs)];
      bindings := bindings + [Binding(name, s, |x.bindings|, false, [])];
      return true;
    }

    /** A declaration of let, const or class, which is refused if the name has a binding in its scope and must not, or if it is
        one binding too many. With a binding of the name in its scope it declares no other. */
    method BindNameLexical(s: nat, name: string, unique: bool) returns (ok: bool)
      requires Valid() && s < |scopes| && Around(Abs(), s, cur)
      modifies `scopes, `bindings
      ensures Valid() && s < |scopes| && (ok ==> name in scopes[s].names)
      ensures var x := old(scopes)[s];
        if name in x.names then ok == !unique && Abs() == old(Abs())
        else ok == (|x.bindings| + 1 < SLOTS) && Abs() == if ok then Added(old(Abs()), s, name, false) else old(Abs())
    {
      if name in scopes[s].names {
        return !unique;
      }
      ok := AddBinding(s, name, false);
    }

    /** A declaration of var or of a function, which is of the nearest scope that is for those. */
    method BindName(name: string) returns (ok: bool)
      requires Valid()
      modifies `scopes, `bindings
      ensures var v := VarScope(old(Abs()), old(cur)); var x := old(scopes)[v];
        && Valid() && v < |scopes| && (ok ==> name in scopes[v].names)
        && if name in x.names then ok && Abs() == old(Abs())
           else ok == (|x.bindings| + 1 < SLOTS) && Abs() == if ok then Added(old(Abs()), v, name, false) else old(Abs())
    {
      hide Rooted, TreeOk, CodeOk, FinalOk, LeftOk, Around, VarScope;
      ghost var t := Abs();
      var s: nat := cur;
      IsRooted(t);
      AroundItself(t, cur);
      while !scopes[s].isFunction && !scopes[s].variable && scopes[s].outer.Some?
        invariant s <= cur && Valid() && Abs() == t && Around(t, s, cur) && VarScope(t, cur) == VarScope(t, s)
        decreases s
      {
        VarStep(t, s, cur);
        s := scopes[s].outer.value;
      }
      VarHere(t, s);
      ok := BindNameLexical(s, name, false);
    }

    method MoveArgsToStash(s: nat)
      requires Valid() && Around(Abs(), s, cur) && s < |scopes|
      modifies `scopes, `bindings
      ensures Valid() && ArgsMoved(old(Abs()), Abs(), s)
    {
      hide CodeOk, FinalOk, LeftOk, Around;
      ghost var t := Abs();
      assert Listed(t, s);
      var i := 0;
      while i < |scopes[s].bindings| && i < scopes[s].numArgs
        invariant scopes == old(scopes) && i <= scopes[s].numArgs && |bindings| == |t.bindings|
        invariant forall b :: 0 <= b < |bindings| ==>
          bindings[b] == if t.bindings[b].scope == s && t.bindings[b].index < i then t.bindings[b].(inStash := true) else t.bindings[b]
      {
        var b := scopes[s].bindings[i];
        bindings := bindings[b := bindings[b].(inStash := true)];
        i := i + 1;
      }
      scopes := scopes[s := scopes[s].(argsInStash := true, needStash := true)];
      ArgsMovedKeeps(t, Abs(), s, cur);
      StateKept(t, Abs(), code, final, cur);
      LeftKept(t, Abs(), final, cur);
    }

    method MoveToStash(b: nat)
      requires Valid() && b < |bindings| && bindings[b].scope < |scopes| && Around(Abs(), bindings[b].scope, cur)
      modifies `scopes, `bindings
      ensures Valid() && OnlyFlags(old(Abs()), Abs()) && bindings[b].inStash
    {
      hide TreeOk, CodeOk, FinalOk, LeftOk, Around;
      ghost var t := Abs();
      var s := bindings[b].scope;
      if bindings[b].index < scopes[s].numArgs && !scopes[s].argsInStash {
        MoveArgsToStash(s);
      } else {
        MovedKeeps(t, b, cur);
        StateKept(t, MovedToStash(t, b), code, final, cur);
        LeftKept(t, MovedToStash(t, b), final, cur);
        bindings := bindings[b := bindings[b].(inStash := true)];
        scopes := scopes[s := scopes[s].(needStash := true)];
      }
    }

    /** The binding that a name refers to in the current scope; None if only run time can tell. A binding
        referred to from another function is moved to the stash. */
    method LookupName(name: string) returns (found: Option<nat>)
      requires Valid()
      modifies `scopes, `bindings
      ensures Valid() && OnlyFlags(old(Abs()), Abs())
      ensures found.Some? ==> Refers(Abs(), cur, name, found.value)
      ensures found.Some? && Crosses(Abs(), bindings[found.value].scope, cur) ==> bindings[found.value].inStash
      ensures found.None? ==> forall s :: 0 < s < |scopes| && Around(Abs(), s, cur) ==> name !in scopes[s].names
    {
      hide CodeOk, FinalOk, LeftOk;
      ghost var t := Abs();
      var toStash := false;
      var s: nat := cur;
      AllBelow(t, cur);
      while s > 0
        invariant s <= cur && Valid() && Abs() == t && Around(t, s, cur) && toStash == Crosses(t, s, cur)
        invariant forall r :: s < r < |scopes| && Around(t, r, cur) ==> name !in scopes[r].names
      {
        if name in scopes[s].names {
          var b := scopes[s].names[name];
          NameIsBound(t, s, name);
          if toStash && !bindings[b].inStash {
            MoveToStash(b);
            AroundByOuter(t, Abs(), s, cur);
            StillRefers(t, Abs(), cur, name, b);
          }
          return Some(b);
        }
        CrossesOut(t, s, cur);
        OnTheWay(t, s, cur);
        if scopes[s].isFunction {
          toStash := true;
        }
        s := scopes[s].outer.value;
      }
      return None;
    }

    /** An access to a variable. */
    method Access(name: string, op: Op) returns (found: bool)
      requires Valid()
      modifies `scopes, `bindings, `code
      ensures Valid() && |code| == old(|code|) + 1 && old(code) == code[..old(|code|)]
      ensures found == (exists s :: 0 < s < |scopes| && Around(Abs(), s, cur) && name in scopes[s].names)
      ensures found ==> exists b: nat :: Refers(Abs(), cur, name, b) && Use(cur, old(|code|), op) in bindings[b].uses
    {
      hide TreeOk, CodeOk, FinalOk, LeftOk, Around, Crosses, OnlyFlags;
      var b := LookupName(name);
      if b.None? {
        EmittedOther(Abs(), code, final);
        code := code + [Other];
        return false;
      }
      ghost var t := Abs();
      var x := Use(cur, |code|, op);
      UsedKeeps(t, code, final, cur, b.value, op);
      LeftKept(t, Used(t, b.value, x), final, cur);
      UsedRefers(t, cur, name, b.value, x);
      bindings := bindings[b.value := bindings[b.value].(uses := bindings[b.value].uses + [x])];
      code := code + [Unresolved(op)];
      return true;
    }

    /** A direct call of eval, from which everything around can be looked up by name. */
    method DirectEval()
      requires Valid()
      modifies `scopes
      ensures Valid() && MadeDynamic(old(Abs()), Abs(), cur)
    {
      hide CodeOk, FinalOk, LeftOk;
      ghost var t := Abs();
      var s: nat := cur;
      AllBelow(t, cur);
      var more := true;
      while more
        invariant s <= cur && |scopes| == |t.scopes| && bindings == t.bindings && Around(t, s, cur)
        invariant forall r :: 0 <= r < |scopes| ==>
          scopes[r] == if Around(t, r, cur) && (r > s || !more) then t.scopes[r].(dynamic := true) else t.scopes[r]
        decreases more, s
      {
        OnTheWayAll(t, s, cur);
        scopes := scopes[s := scopes[s].(dynamic := true)];
        if scopes[s].outer.None? {
          more := false;
        } else {
          s := scopes[s].outer.value;
        }
      }
      DynamicKeeps(t, Abs(), cur);
      StateKept(t, Abs(), code, final, cur);
      LeftKept(t, Abs(), final, cur);
    }

    /** How many stashes there are between a use in u and the scope s around it. */
    method LevelOf(s: nat, u: nat) returns (level: nat)
      requires TreeOk(Abs()) && s < |scopes| && u < |scopes| && Around(Abs(), s, u)
      ensures level == Level(Abs(), s, u)
    {
      level := 0;
      var sc: nat := u;
      while sc != s
        invariant sc < |scopes| && Around(Abs(), s, sc) && level + Level(Abs(), s, sc) == Level(Abs(), s, u)
        decreases sc
      {
        if scopes[sc].needStash || scopes[sc].dynamic {
          level := level + 1;
        }
        sc := scopes[sc].outer.value;
      }
    }

    /** Rewrites the accesses to a binding; false if one is nested too deeply. */
    method FinaliseBinding(b: nat, stashIdx: nat, slot: int, argsInStash: bool) returns (ok: bool)
      requires TreeOk(Abs()) && b < |bindings| && Apart(Abs(), |code|)
      requires forall k :: 0 <= k < |bindings[b].uses| ==> Reads(Abs(), code, b, k, false)
      requires stashIdx == StashCount(Abs(), bindings[b].scope, bindings[b].index) && argsInStash == ArgsInStash(Abs(), bindings[b].scope)
      requires !InStash(Abs(), b) && bindings[b].name != THIS ==> slot == Slot(Abs(), b)
      modifies `code
      ensures |code| == old(|code|) && ok == NotTooDeep(Abs(), b)
      ensures ok ==> forall k :: 0 <= k < |bindings[b].uses| ==> Reads(Abs(), code, b, k, true)
      ensures forall pos :: 0 <= pos < |code| && (forall k :: 0 <= k < |bindings[b].uses| ==> bindings[b].uses[k].pos != pos) ==>
        code[pos] == old(code)[pos]
    {
      hide NestedOk, FlagsOk, UseOk, Level, StashCount, Slot, Apart;
      ghost var t := Abs();
      var s := bindings[b].scope;
      for k := 0 to |bindings[b].uses|
        invariant |code| == old(|code|)
        invariant forall l :: 0 <= l < k ==> Reads(t, code, b, l, true) && Shallow(t, b, l)
        invariant forall l :: k <= l < |bindings[b].uses| ==> Reads(t, code, b, l, false)
        invariant forall pos :: 0 <= pos < |code| && (forall l :: 0 <= l < |t.bindings[b].uses| ==> t.bindings[b].uses[l].pos != pos) ==>
          code[pos] == old(code)[pos]
      {
        var x := bindings[b].uses[k];
        assert Reads(t, code, b, k, false);
        UseAround(t, b, k);
        var level := LevelOf(s, x.scope);
        if level > 255 {
          assert !Shallow(t, b, k);
          return false;
        }
        var op := code[x.pos].op;
        ghost var before := code;
        if bindings[b].inStash || scopes[s].dynamic {
          code := code[x.pos := Stash(op, level * SLOTS + stashIdx)];
        } else if bindings[b].name != THIS {
          var l := if op.mixed then level else 0;
          code := code[x.pos := if argsInStash then Stack1(op, slot, l) else Stack(op, slot, l)];
        }
        assert code == before[x.pos := Resolve(t, b, x.scope, x.op)];
        RewrittenOne(t, before, code, b, k);
      }
      return true;
    }

    /** Rewrites the accesses to the bindings of s itself. */
    method FinaliseOwn(s: nat, stackOffset: nat, ghost done: set<nat>) returns (ok: bool, stackIdx: nat)
      requires TreeOk(Abs()) && s < |scopes| && stackOffset == StackOffset(Abs(), s) && s !in done && CodeOk(Abs(), code, done)
      modifies `code
      ensures ok == AllShallow(Abs(), {s})
      ensures ok ==> CodeOk(Abs(), code, done + {s}) && stackIdx == StackCount(Abs(), s, |scopes[s].bindings|)
    {
      hide NestedOk, FlagsOk, UseOk, Apart, Reads, NotTooDeep, StackOffset, ArgsInStash;
      ghost var t := Abs();
      var argsInStash := ArgsMovedAround(s);
      var stashIdx := 0;
      stackIdx := 0;
      assert Listed(t, s);
      NoneDone(t, code, done, s);
      for i := 0 to |scopes[s].bindings|
        invariant stashIdx == StashCount(t, s, i) && stackIdx == StackCount(t, s, i)
        invariant PartDone(t, code, done, s, i)
        invariant forall j :: 0 <= j < i ==> scopes[s].bindings[j] < |bindings| && NotTooDeep(t, scopes[s].bindings[j])
      {
        var b := scopes[s].bindings[i];
        ghost var before := code;
        ReadsUndone(t, code, done, s, i, b);
        var slot := 0;
        if bindings[b].inStash || scopes[s].dynamic {
          ok := FinaliseBinding(b, stashIdx, slot, argsInStash);
          stashIdx := stashIdx + 1;
        } else {
          if bindings[b].name != THIS {
            if i < scopes[s].numArgs {
              slot := -(i + 1);
            } else {
              stackIdx := stackIdx + 1;
              slot := stackIdx + stackOffset;
            }
          }
          ok := FinaliseBinding(b, stashIdx, slot, argsInStash);
        }
        if !ok {
          assert t.bindings[b].scope in {s};
          return;
        }
        OneMoreDone(t, before, code, done, s, i);
      }
      OwnDone(t, code, done, s);
      return true, stackIdx;
    }

    /** Whether the parameters of the function around s are in its stash. */
    method ArgsMovedAround(s: nat) returns (r: bool)
      requires TreeOk(Abs()) && s < |scopes|
      ensures r == ArgsInStash(Abs(), s)
    {
      var f: nat := s;
      while !scopes[f].isFunction && scopes[f].outer.Some?
        invariant f < |scopes| && ArgsInStash(Abs(), f) == ArgsInStash(Abs(), s)
        decreases f
      {
        f := scopes[f].outer.value;
      }
      return scopes[f].isFunction && scopes[f].argsInStash;
    }

    /** Rewrites the accesses to the bindings of s and of the blocks inside of it; false if one is nested too
        deeply. */
    method FinaliseVarAlloc(s: nat, stackOffset: nat, ghost done: set<nat>) returns (ok: bool)
      requires TreeOk(Abs()) && s < |scopes| && stackOffset == StackOffset(Abs(), s) && CodeOk(Abs(), code, done)
      requires forall u: nat :: u < |scopes| && Within(Abs(), s, u) ==> u !in done
      modifies `code
      ensures ok == AllShallow(Abs(), Region(Abs(), s))
      ensures ok ==> CodeOk(Abs(), code, done + Region(Abs(), s))
      decreases |scopes| - s
    {
      hide NestedOk, FlagsOk, UseOk, CodeOk, NotTooDeep, StackOffset, StackCount;
      ghost var t := Abs();
      var stackIdx;
      ok, stackIdx := FinaliseOwn(s, stackOffset, done);
      if !ok {
        SomeTooDeep(t, {s}, Region(t, s));
        return;
      }
      ghost var all := {s};
      for i := 0 to |scopes[s].nested|
        invariant CodeOk(t, code, done + all) && AllShallow(t, all) && all <= Region(t, s)
        invariant forall u: nat :: u in all <==> u == s || (u < |t.scopes| && exists j :: 0 <= j < i && Within(t, t.scopes[s].nested[j], u))
      {
        ghost var more := ChildRegion(t, s, i, all);
        OffsetOfChild(t, s, i);
        assert forall u: nat :: u < |scopes| && Within(t, scopes[s].nested[i], u) ==> u in more && u in Region(t, s);
        ok := FinaliseVarAlloc(scopes[s].nested[i], stackIdx + stackOffset, done + all);
        if !ok {
          SomeTooDeep(t, more, Region(t, s));
          return;
        }
        assert done + all + more == done + (all + more);
        all := all + more;
      }
      assert all == Region(t, s) by {
        AllChildren(t, s, all);
      }
      return true;
    }

    method LeaveBlock()
      requires Valid() && cur > 0 && !scopes[cur].isFunction
      modifies `cur
      ensures Valid() && scopes[old(cur)].outer == Some(cur)
    {
      hide CodeOk, FinalOk, LeftOk;
      FinalOnLeaving(Abs(), final, cur, {});
      assert final + {} == final;
      cur := scopes[cur].outer.value;
    }

    /** The end of a function, whose code is complete now. */
    method LeaveFunction() returns (ok: bool)
      requires Valid() && cur > 0 && scopes[cur].isFunction
      modifies this
      ensures TreeOk(Abs()) && |scopes| == old(|scopes|)
      ensures ok == AllShallow(Abs(), Region(Abs(), old(cur)))
      ensures ok ==> Valid() && scopes[old(cur)].outer == Some(cur) && final == old(final) + Region(Abs(), old(cur))
      ensures Abs() == old(Abs()) || ArgsMoved(old(Abs()), Abs(), old(cur))
    {
      hide CodeOk, FinalOk, LeftOk, AllShallow;
      if scopes[cur].dynamic && !scopes[cur].argsInStash {
        assert Around(Abs(), cur, cur);
        MoveArgsToStash(cur);
      }
      forall u: nat | u < |scopes| && Within(Abs(), cur, u) ensures u !in final {
        NotYetFinal(Abs(), final, cur, u);
      }
      ok := FinaliseVarAlloc(cur, 0, final);
      if ok {
        FinalOnLeaving(Abs(), final, cur, Region(Abs(), cur));
        final := final + Region(Abs(), cur);
        cur := scopes[cur].outer.value;
      }
    }

    /** The end of the program. All accesses are resolved. */
    method Finish() returns (ok: bool)
      requires Valid() && cur == 0
      modifies `code
      ensures ok == AllShallow(Abs(), Region(Abs(), 0))
      ensures ok ==> Resolved(Abs(), code)
    {
      hide FinalOk, AllShallow, Reads;
      ghost var t := Abs();
      forall u: nat | u < |scopes| && Within(Abs(), cur, u) ensures u !in final {
        NotYetFinal(Abs(), final, cur, u);
      }
      ok := FinaliseVarAlloc(0, 0, final);
      if ok {
        forall b, k | 0 <= b < |bindings| && 0 <= k < |bindings[b].uses| ensures Reads(t, code, b, k, true) {
          AllFinal(t, final, bindings[b].scope);
          assert Reads(t, code, b, k, bindings[b].scope in final + Region(t, 0));
        }
      }
    }
  }

  lemma NewIsNotFinal(t: Tree, final: set<nat>, cur: nat)
    requires TreeOk(t) && cur < |t.scopes| && FinalOk(t, final, cur)
    ensures |t.scopes| !in final
  {
  }

  lemma NotAroundNew(t: Tree, final: set<nat>, cur: nat, u: nat)
    requires TreeOk(t) && cur < |t.scopes| && FinalOk(t, final, cur) && 0 < u < |t.scopes| && Outer(t, u) == cur
    requires u !in final
    ensures FinalOk(t, final, u)
  {
  }
}
