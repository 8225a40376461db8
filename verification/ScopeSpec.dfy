/** Scopes and bindings of the program being compiled, and where the code finds the value of each binding. */
module ScopeSpec {
  import opened Options

  const THIS: string := " this"

  /** The size of the slot number in an access to a stash; above it is the level. */
  const SLOTS: nat := 0x100_0000

  /** An access to a binding: in the code of which scope, where, and what for. */
  datatype Use = Use(scope: nat, pos: nat, op: Op)

  /** index is the place of the binding among those of its scope. */
  datatype Binding = Binding(name: string, scope: nat, index: nat, inStash: bool, uses: seq<Use>)

  /** nested are the blocks directly inside; functions inside are compiled on their own. The first numArgs
      bindings of a function are its parameters. */
  datatype Scope = Scope(
    outer: Option<nat>, isFunction: bool, dynamic: bool, needStash: bool, argsInStash: bool,
    numArgs: nat, bindings: seq<nat>, names: map<string, nat>, nested: seq<nat>, variable: bool)

  /** op says what is done with the binding; those that may meet a variable created at run time are mixed. */
  datatype Op = Op(code: nat, mixed: bool)

  datatype Instr =
    | Other
    | Unresolved(op: Op)
    | Stash(op: Op, at: nat)
    | Stack(op: Op, slot: int, level: nat)
    | Stack1(op: Op, slot: int, level: nat)

  datatype Tree = Tree(scopes: seq<Scope>, bindings: seq<Binding>)

  /** Scopes are numbered as they are entered, the global one first. */
  ghost predicate Rooted(t: Tree) {
    && t.scopes != []
    && (forall s :: 0 <= s < |t.scopes| ==> (t.scopes[s].outer.None? <==> s == 0))
    && (forall s :: 0 <= s < |t.scopes| && t.scopes[s].outer.Some? ==> t.scopes[s].outer.value < s)
  }

  function Outer(t: Tree, s: nat): nat
    requires Rooted(t) && 0 < s < |t.scopes|
  {
    t.scopes[s].outer.value
  }

  /** s is u or is around u. */
  predicate Around(t: Tree, s: nat, u: nat)
    requires Rooted(t) && u < |t.scopes|
    decreases u
  {
    s == u || (u > 0 && Around(t, s, Outer(t, u)))
  }

  /** Between a use in u and the scope s around it there is the boundary of a function. */
  predicate Crosses(t: Tree, s: nat, u: nat)
    requires Rooted(t) && u < |t.scopes|
    decreases u
  {
    s != u && (t.scopes[u].isFunction || (u > 0 && Crosses(t, s, Outer(t, u))))
  }

  predicate OwnsStash(t: Tree, s: nat)
    requires s < |t.scopes|
  {
    t.scopes[s].needStash || t.scopes[s].dynamic
  }

  /** The stashes that the code of u sees, innermost first, by the scopes they belong to. */
  function StashChain(t: Tree, u: nat): seq<nat>
    requires Rooted(t) && u < |t.scopes|
    decreases u
  {
    (if OwnsStash(t, u) then [u] else []) + (if u > 0 then StashChain(t, Outer(t, u)) else [])
  }

  /** How many stashes there are between a use in u and the scope s around it. */
  function Level(t: Tree, s: nat, u: nat): nat
    requires Rooted(t) && u < |t.scopes|
    decreases u
  {
    if u == s then 0
    else (if OwnsStash(t, u) then 1 else 0) + if u > 0 then Level(t, s, Outer(t, u)) else 0
  }

  predicate InStash(t: Tree, b: nat)
    requires b < |t.bindings| && t.bindings[b].scope < |t.scopes|
  {
    t.bindings[b].inStash || t.scopes[t.bindings[b].scope].dynamic
  }

  ghost predicate Listed(t: Tree, s: nat)
    requires s < |t.scopes|
  {
    && t.scopes[s].numArgs <= |t.scopes[s].bindings|
    && forall i :: 0 <= i < |t.scopes[s].bindings| ==>
      var b := t.scopes[s].bindings[i]; b < |t.bindings| && t.bindings[b].scope == s && t.bindings[b].index == i
  }

  /** Every scope lists its bindings. */
  ghost predicate Bound(t: Tree) {
    && (forall s :: 0 <= s < |t.scopes| ==> Listed(t, s))
    && (forall b :: 0 <= b < |t.bindings| ==>
      var x := t.bindings[b];
      x.scope < |t.scopes| && x.index < |t.scopes[x.scope].bindings| && t.scopes[x.scope].bindings[x.index] == b)
  }

  ghost predicate Shaped(t: Tree) { Rooted(t) && Bound(t) }

  /** How many of the first n bindings of a scope are in its stash. */
  function StashCount(t: Tree, s: nat, n: nat): nat
    requires Shaped(t) && s < |t.scopes| && n <= |t.scopes[s].bindings|
    decreases n
  {
    if n == 0 then 0
    else
      assert Listed(t, s);
      StashCount(t, s, n - 1) + if InStash(t, t.scopes[s].bindings[n - 1]) then 1 else 0
  }

  /** Whether the i-th binding of a scope has a slot of its own on the stack: not parameters, whose place is
      that of the arguments, and not this, which is at the bottom. */
  predicate OwnSlot(t: Tree, s: nat, i: nat)
    requires Shaped(t) && s < |t.scopes| && i < |t.scopes[s].bindings|
  {
    assert Listed(t, s);
    var b := t.scopes[s].bindings[i];
    !InStash(t, b) && t.bindings[b].name != THIS && i >= t.scopes[s].numArgs
  }

  /** How many of the first n bindings of a scope have slots of their own on the stack. */
  function StackCount(t: Tree, s: nat, n: nat): nat
    requires Shaped(t) && s < |t.scopes| && n <= |t.scopes[s].bindings|
    decreases n
  {
    if n == 0 then 0 else StackCount(t, s, n - 1) + if OwnSlot(t, s, n - 1) then 1 else 0
  }

  /** How many slots the blocks around s take up, within its function. */
  function StackOffset(t: Tree, s: nat): nat
    requires Shaped(t) && s < |t.scopes|
    decreases s
  {
    if t.scopes[s].isFunction || s == 0 then 0
    else StackOffset(t, Outer(t, s)) + StackCount(t, Outer(t, s), |t.scopes[Outer(t, s)].bindings|)
  }

  /** Whether the parameters of the function around s are in its stash. */
  predicate ArgsInStash(t: Tree, s: nat)
    requires Rooted(t) && s < |t.scopes|
    decreases s
  {
    if t.scopes[s].isFunction then t.scopes[s].argsInStash else s > 0 && ArgsInStash(t, Outer(t, s))
  }

  /** The slot of a binding on the stack. */
  function Slot(t: Tree, b: nat): int
    requires Shaped(t) && b < |t.bindings|
  {
    var s, i := t.bindings[b].scope, t.bindings[b].index;
    if i < t.scopes[s].numArgs then -(i + 1) else StackOffset(t, s) + StackCount(t, s, i + 1)
  }

  /** The place of a binding in its stash, seen from u. */
  function Place(t: Tree, b: nat, u: nat): nat
    requires Shaped(t) && b < |t.bindings| && u < |t.scopes|
  {
    Level(t, t.bindings[b].scope, u) * SLOTS + StashCount(t, t.bindings[b].scope, t.bindings[b].index)
  }

  /** What an access to a binding in the code of u becomes. */
  function Resolve(t: Tree, b: nat, u: nat, op: Op): Instr
    requires Shaped(t) && b < |t.bindings| && u < |t.scopes|
  {
    var s := t.bindings[b].scope;
    var level := if op.mixed then Level(t, s, u) else 0;
    if InStash(t, b) then Stash(op, Place(t, b, u))
    else if t.bindings[b].name == THIS then Unresolved(op)
    else if ArgsInStash(t, s) then Stack1(op, Slot(t, b), level)
    else Stack(op, Slot(t, b), level)
  }

  // ---- what the places mean

  /** Going up as many stashes as the level says leads to the stash of the binding's scope. */
  lemma {:induction false} LevelLeadsToScope(t: Tree, s: nat, u: nat)
    requires Rooted(t) && s < |t.scopes| && u < |t.scopes| && Around(t, s, u) && OwnsStash(t, s)
    ensures Level(t, s, u) < |StashChain(t, u)| && StashChain(t, u)[Level(t, s, u)] == s
    decreases u
  {
    if u != s {
      LevelLeadsToScope(t, s, Outer(t, u));
    }
  }

  lemma {:induction false} StashCountGrows(t: Tree, s: nat, m: nat, n: nat)
    requires Shaped(t) && s < |t.scopes| && m <= n <= |t.scopes[s].bindings|
    ensures StashCount(t, s, m) <= StashCount(t, s, n) <= n
    decreases n
  {
    if m < n {
      StashCountGrows(t, s, m, n - 1);
    } else if n > 0 {
      StashCountGrows(t, s, n - 1, n - 1);
    }
  }

  lemma {:induction false} StackCountGrows(t: Tree, s: nat, m: nat, n: nat)
    requires Shaped(t) && s < |t.scopes| && m <= n <= |t.scopes[s].bindings|
    ensures StackCount(t, s, m) <= StackCount(t, s, n)
    decreases n
  {
    if m < n {
      StackCountGrows(t, s, m, n - 1);
    }
  }

  /** What is at a place of the stashes that the code of u sees: the scope the level leads to, and the slot. */
  function ScopeAt(t: Tree, u: nat, at: nat): Option<nat>
    requires Rooted(t) && u < |t.scopes|
  {
    if at / SLOTS < |StashChain(t, u)| then Some(StashChain(t, u)[at / SLOTS]) else None
  }

  lemma Unpack(level: nat, slot: nat)
    requires slot < SLOTS
    ensures (level * SLOTS + slot) / SLOTS == level && (level * SLOTS + slot) % SLOTS == slot
  {
  }

  /** Bindings in a stash have slots of their own, within its size. */
  lemma StashSlotsDiffer(t: Tree, b: nat, c: nat)
    requires Shaped(t) && b < |t.bindings| && c < |t.bindings| && b != c && InStash(t, b) && InStash(t, c)
    requires t.bindings[b].scope == t.bindings[c].scope
    ensures StashCount(t, t.bindings[b].scope, t.bindings[b].index) != StashCount(t, t.bindings[c].scope, t.bindings[c].index)
  {
    var s, i, j := t.bindings[b].scope, t.bindings[b].index, t.bindings[c].index;
    if i < j {
      StashCountGrows(t, s, i + 1, j);
    } else {
      StashCountGrows(t, s, j + 1, i);
    }
  }

  lemma SlotInStash(t: Tree, b: nat)
    requires Shaped(t) && b < |t.bindings| && InStash(t, b)
    ensures var s := t.bindings[b].scope;
      StashCount(t, s, t.bindings[b].index) < StashCount(t, s, |t.scopes[s].bindings|) <= |t.scopes[s].bindings|
  {
    var s, i := t.bindings[b].scope, t.bindings[b].index;
    StashCountGrows(t, s, i + 1, |t.scopes[s].bindings|);
  }

  /** From a use, the place of a binding in its stash leads to the scope of the binding, and there to a slot
      that no other binding has. */
  lemma PlaceIsTheBindings(t: Tree, b: nat, u: nat)
    requires Shaped(t) && b < |t.bindings| && u < |t.scopes| && InStash(t, b)
    requires Around(t, t.bindings[b].scope, u) && OwnsStash(t, t.bindings[b].scope)
    requires |t.scopes[t.bindings[b].scope].bindings| < SLOTS
    ensures ScopeAt(t, u, Place(t, b, u)) == Some(t.bindings[b].scope)
    ensures forall c :: 0 <= c < |t.bindings| && c != b && InStash(t, c) && t.bindings[c].scope == t.bindings[b].scope ==>
      StashCount(t, t.bindings[c].scope, t.bindings[c].index) != Place(t, b, u) % SLOTS
    ensures Place(t, b, u) % SLOTS < StashCount(t, t.bindings[b].scope, |t.scopes[t.bindings[b].scope].bindings|)
  {
    hide StashCount, Level, StashChain, Around, Listed, InStash, OwnsStash;
    var s, i := t.bindings[b].scope, t.bindings[b].index;
    LevelLeadsToScope(t, s, u);
    SlotInStash(t, b);
    Unpack(Level(t, s, u), StashCount(t, s, i));
    forall c | 0 <= c < |t.bindings| && c != b && InStash(t, c) && t.bindings[c].scope == s
      ensures StashCount(t, s, t.bindings[c].index) != StashCount(t, s, i)
    {
      StashSlotsDiffer(t, b, c);
    }
  }

  /** u is s or a block inside of it, in the same function. */
  predicate Within(t: Tree, s: nat, u: nat)
    requires Rooted(t) && u < |t.scopes|
    decreases u
  {
    s == u || (!t.scopes[u].isFunction && u > 0 && Within(t, s, Outer(t, u)))
  }

  /** The slots of a block are above those of the blocks around it. */
  lemma {:induction false} OffsetsGrow(t: Tree, s: nat, u: nat)
    requires Shaped(t) && u < |t.scopes| && Within(t, s, u) && s != u
    ensures s < |t.scopes| && StackOffset(t, s) + StackCount(t, s, |t.scopes[s].bindings|) <= StackOffset(t, u)
    decreases u
  {
    if Outer(t, u) != s {
      OffsetsGrow(t, s, Outer(t, u));
    }
  }

  /** A binding that is neither a parameter nor `this` has the next slot after those before it in its scope. */
  lemma SlotIs(t: Tree, b: nat)
    requires Shaped(t) && b < |t.bindings| && !InStash(t, b) && t.bindings[b].name != THIS
    ensures var s, i := t.bindings[b].scope, t.bindings[b].index; i >= t.scopes[s].numArgs ==>
      Slot(t, b) == StackOffset(t, s) + StackCount(t, s, i) + 1 && StackCount(t, s, i + 1) == StackCount(t, s, i) + 1
  {
  }

  /** Two bindings on the stack that are in scope together, in one function, have different slots. */
  lemma SlotsDiffer(t: Tree, b: nat, c: nat)
    requires Shaped(t) && b < |t.bindings| && c < |t.bindings| && b != c
    requires Within(t, t.bindings[b].scope, t.bindings[c].scope)
    requires forall s :: 0 <= s < |t.scopes| && t.scopes[s].numArgs > 0 ==> t.scopes[s].isFunction
    requires !InStash(t, b) && !InStash(t, c) && t.bindings[b].name != THIS && t.bindings[c].name != THIS
    ensures Slot(t, b) != Slot(t, c) && Slot(t, b) != 0 && Slot(t, c) != 0
  {
    hide StackOffset, StackCount;
    var s, u, i, j := t.bindings[b].scope, t.bindings[c].scope, t.bindings[b].index, t.bindings[c].index;
    SlotIs(t, b);
    SlotIs(t, c);
    if s != u {
      OffsetsGrow(t, s, u);
      StackCountGrows(t, s, i + 1, |t.scopes[s].bindings|);
    } else if i < j {
      StackCountGrows(t, s, i + 1, j);
    } else {
      StackCountGrows(t, s, j + 1, i);
    }
  }

  // ---- the stack frame of a call

  /** A frame has a cell for `this`, one for each argument, and one for each binding on the stack of the scopes entered. */
  datatype Cell = ThisCell | ArgumentCell(i: nat) | LocalCell(b: nat)

  /** The bindings, among the first n of a scope, that entering the scope makes cells for. */
  function Own(t: Tree, s: nat, n: nat): (r: seq<nat>)
    requires Shaped(t) && s < |t.scopes| && n <= |t.scopes[s].bindings|
    ensures |r| == StackCount(t, s, n)
    decreases n
  {
    if n == 0 then [] else Own(t, s, n - 1) + if OwnSlot(t, s, n - 1) then [t.scopes[s].bindings[n - 1]] else []
  }

  /** The bindings that have cells while execution is in u: those of the function, and of each block entered since. */
  function Locals(t: Tree, u: nat): (r: seq<nat>)
    requires Shaped(t) && u < |t.scopes|
    ensures |r| == StackOffset(t, u) + StackCount(t, u, |t.scopes[u].bindings|)
    decreases u
  {
    (if t.scopes[u].isFunction || u == 0 then [] else Locals(t, Outer(t, u))) + Own(t, u, |t.scopes[u].bindings|)
  }

  /** The frame of a call with args arguments, from its base up; arguments moved to a stash have left the stack. */
  function StackFrame(t: Tree, u: nat, args: nat): seq<Cell>
    requires Shaped(t) && u < |t.scopes|
  {
    var locals := Locals(t, u);
    [ThisCell] + (if ArgsInStash(t, u) then [] else seq(args, i requires 0 <= i < args => ArgumentCell(i)))
      + seq(|locals|, i requires 0 <= i < |locals| => LocalCell(locals[i]))
  }

  /** Where an access to the stack goes, from the base of the frame: up to 0 it counts arguments, above it the cells after
      them. Unresolved accesses are to slot 0. */
  function Address(i: Instr, args: nat): int {
    match i
    case Stack(_, slot, _) => if slot <= 0 then -slot else args + slot
    case Stack1(_, slot, _) => slot
    case _ => 0
  }

  /** Where the value of a binding that is not in a stash is. */
  function CellOf(t: Tree, b: nat): Cell
    requires Shaped(t) && b < |t.bindings|
  {
    var s, i := t.bindings[b].scope, t.bindings[b].index;
    if t.bindings[b].name == THIS then ThisCell else if i < t.scopes[s].numArgs then ArgumentCell(i) else LocalCell(b)
  }

  lemma {:induction false} OwnAt(t: Tree, s: nat, i: nat, n: nat)
    requires Shaped(t) && s < |t.scopes| && i < n <= |t.scopes[s].bindings| && OwnSlot(t, s, i)
    ensures StackCount(t, s, i) < |Own(t, s, n)| && Own(t, s, n)[StackCount(t, s, i)] == t.scopes[s].bindings[i]
    decreases n
  {
    if i < n - 1 {
      OwnAt(t, s, i, n - 1);
    }
  }

  lemma {:induction false} LocalAt(t: Tree, b: nat, u: nat)
    requires Shaped(t) && b < |t.bindings| && u < |t.scopes| && Within(t, t.bindings[b].scope, u)
    requires OwnSlot(t, t.bindings[b].scope, t.bindings[b].index)
    ensures 0 < Slot(t, b) <= |Locals(t, u)| && Locals(t, u)[Slot(t, b) - 1] == b
    decreases u
  {
    var s, i := t.bindings[b].scope, t.bindings[b].index;
    if u == s {
      OwnAt(t, s, i, |t.scopes[s].bindings|);
    } else {
      LocalAt(t, b, Outer(t, u));
    }
  }

  lemma {:induction false} ArgsInStashWithin(t: Tree, s: nat, u: nat)
    requires Rooted(t) && u < |t.scopes| && s < |t.scopes| && Within(t, s, u)
    ensures ArgsInStash(t, s) == ArgsInStash(t, u)
    decreases u
  {
    if u != s {
      ArgsInStashWithin(t, s, Outer(t, u));
    }
  }

  lemma {:induction false} UncrossedIsWithin(t: Tree, s: nat, u: nat)
    requires Rooted(t) && u < |t.scopes| && Around(t, s, u) && !Crosses(t, s, u)
    ensures Within(t, s, u)
    decreases u
  {
    if u != s {
      UncrossedIsWithin(t, s, Outer(t, u));
    }
  }

  /** A resolved access, in whatever block of the function of its binding and with however many arguments, at least as many as
      there are parameters, goes to the cell of `this`, to the argument of the parameter, or to the cell of the binding. */
  lemma SlotLeadsToCell(t: Tree, b: nat, u: nat, op: Op, args: nat)
    requires Shaped(t) && b < |t.bindings| && u < |t.scopes| && !InStash(t, b) && Within(t, t.bindings[b].scope, u)
    requires t.scopes[t.bindings[b].scope].numArgs <= args
    requires t.bindings[b].index < t.scopes[t.bindings[b].scope].numArgs ==> !ArgsInStash(t, t.bindings[b].scope)
    ensures var at := Address(Resolve(t, b, u, op), args);
      0 <= at < |StackFrame(t, u, args)| && StackFrame(t, u, args)[at] == CellOf(t, b)
  {
    hide StackOffset, StackCount, Own, Locals, Within, ArgsInStash;
    var s, i := t.bindings[b].scope, t.bindings[b].index;
    ArgsInStashWithin(t, s, u);
    if t.bindings[b].name != THIS && i >= t.scopes[s].numArgs {
      LocalAt(t, b, u);
    }
  }

  // ---- the state of the compiler

  /** u is a block directly inside of s. */
  predicate Child(t: Tree, s: nat, u: nat)
    requires Rooted(t)
  {
    s < u < |t.scopes| && !t.scopes[u].isFunction && Outer(t, u) == s
  }

  ghost predicate NestedOk(t: Tree, s: nat)
    requires Rooted(t) && s < |t.scopes|
  {
    && (forall i :: 0 <= i < |t.scopes[s].nested| ==> Child(t, s, t.scopes[s].nested[i]))
    && (forall i, j :: 0 <= i < j < |t.scopes[s].nested| ==> t.scopes[s].nested[i] != t.scopes[s].nested[j])
    && (forall u: nat :: Child(t, s, u) ==> u in t.scopes[s].nested)
  }

  /** What holds of the flags of a scope and of its bindings. */
  ghost predicate FlagsOk(t: Tree, s: nat)
    requires Bound(t) && s < |t.scopes|
  {
    && (t.scopes[s].numArgs > 0 ==> t.scopes[s].isFunction) && |t.scopes[s].bindings| < SLOTS
    && (forall n :: n in t.scopes[s].names ==> t.scopes[s].names[n] in t.scopes[s].bindings)
    && (forall i :: 0 <= i < |t.scopes[s].bindings| ==>
      assert Listed(t, s);
      var b := t.scopes[s].bindings[i];
      (t.bindings[b].inStash ==> t.scopes[s].needStash) && (t.scopes[s].argsInStash && i < t.scopes[s].numArgs ==> t.bindings[b].inStash))
  }

  /** A use is inside of the scope of its binding, which is in the stash if the use is in another function. */
  ghost predicate UseOk(t: Tree, b: nat, k: nat)
    requires Shaped(t) && b < |t.bindings| && k < |t.bindings[b].uses|
  {
    var s, u := t.bindings[b].scope, t.bindings[b].uses[k].scope;
    u < |t.scopes| && Around(t, s, u) && (Crosses(t, s, u) ==> t.bindings[b].inStash)
  }

  ghost predicate TreeOk(t: Tree) {
    && Shaped(t)
    && (forall s :: 0 <= s < |t.scopes| ==> NestedOk(t, s))
    && (forall s :: 0 <= s < |t.scopes| ==> FlagsOk(t, s))
    && (forall b, k :: 0 <= b < |t.bindings| && 0 <= k < |t.bindings[b].uses| ==> UseOk(t, b, k))
  }

  /** Entering a function whose arguments go to its stash copies argument i to slot i, which is that of parameter i. */
  lemma {:induction false} MovedArgumentSlot(t: Tree, s: nat, i: nat)
    requires TreeOk(t) && s < |t.scopes| && i <= t.scopes[s].numArgs && (t.scopes[s].argsInStash || t.scopes[s].dynamic)
    ensures i <= |t.scopes[s].bindings| && StashCount(t, s, i) == i
    decreases i
  {
    assert FlagsOk(t, s) && Listed(t, s);
    if i > 0 {
      MovedArgumentSlot(t, s, i - 1);
    }
  }

  /** Every use has a position in the code of its own. */
  ghost predicate Apart(t: Tree, n: nat) {
    && (forall b, k :: 0 <= b < |t.bindings| && 0 <= k < |t.bindings[b].uses| ==> t.bindings[b].uses[k].pos < n)
    && (forall b, k, c, l ::
          (0 <= b < |t.bindings| && 0 <= k < |t.bindings[b].uses| && 0 <= c < |t.bindings| && 0 <= l < |t.bindings[c].uses|
           && (b != c || k != l)) ==> t.bindings[b].uses[k].pos != t.bindings[c].uses[l].pos)
  }

  /** What is in the code at a use. */
  ghost predicate Reads(t: Tree, code: seq<Instr>, b: nat, k: nat, resolved: bool)
    requires Shaped(t) && b < |t.bindings| && k < |t.bindings[b].uses|
  {
    var x := t.bindings[b].uses[k];
    && x.scope < |t.scopes| && x.pos < |code|
    && code[x.pos] == if resolved then Resolve(t, b, x.scope, x.op) else Unresolved(x.op)
  }

  /** The uses of bindings of the scopes in final have been resolved, the others not yet. */
  ghost predicate CodeOk(t: Tree, code: seq<Instr>, final: set<nat>)
    requires Shaped(t)
  {
    && Apart(t, |code|)
    && forall b, k :: 0 <= b < |t.bindings| && 0 <= k < |t.bindings[b].uses| ==> Reads(t, code, b, k, t.bindings[b].scope in final)
  }

  /** What has been finished is not around where compilation is; a block is finished with what is around it. */
  ghost predicate FinalOk(t: Tree, final: set<nat>, cur: nat)
    requires Rooted(t) && cur < |t.scopes|
  {
    && (forall s :: s in final ==> s < |t.scopes| && !Around(t, s, cur))
    && (forall s :: s in final && s > 0 && !t.scopes[s].isFunction ==> Outer(t, s) in final)
  }

  // ---- what compilation elsewhere leaves alone

  /** Nothing has changed but in the scopes around cur, and no scope has become another's. */
  ghost predicate SameElsewhere(t: Tree, t': Tree, cur: nat)
    requires Rooted(t) && Rooted(t') && cur < |t.scopes|
  {
    && |t.scopes| <= |t'.scopes| && |t.bindings| <= |t'.bindings|
    && (forall s :: 0 <= s < |t.scopes| ==> t'.scopes[s].outer == t.scopes[s].outer && t'.scopes[s].isFunction == t.scopes[s].isFunction)
    && (forall s :: 0 <= s < |t.scopes| && !Around(t, s, cur) ==> t'.scopes[s] == t.scopes[s])
    && (forall b :: 0 <= b < |t.bindings| && t.bindings[b].scope < |t.scopes| && !Around(t, t.bindings[b].scope, cur) ==> t'.bindings[b] == t.bindings[b])
  }

  lemma {:induction false} AroundTrans(t: Tree, r: nat, s: nat, u: nat)
    requires Rooted(t) && s < |t.scopes| && u < |t.scopes| && Around(t, r, s) && Around(t, s, u)
    ensures Around(t, r, u)
    decreases u
  {
    if s != u {
      AroundTrans(t, r, s, Outer(t, u));
    }
  }

  lemma {:induction false} AroundSame(t: Tree, t': Tree, cur: nat, s: nat, u: nat)
    requires Rooted(t) && Rooted(t') && cur < |t.scopes| && u < |t.scopes| && SameElsewhere(t, t', cur)
    ensures Around(t', s, u) == Around(t, s, u) && Crosses(t', s, u) == Crosses(t, s, u)
    decreases u
  {
    if u > 0 {
      AroundSame(t, t', cur, s, Outer(t, u));
    }
  }

  /** A level is that of stashes inside of the scope, which are not around where compilation is. */
  lemma {:induction false} LevelSame(t: Tree, t': Tree, cur: nat, s: nat, u: nat)
    requires Rooted(t) && Rooted(t') && cur < |t.scopes| && s < |t.scopes| && u < |t.scopes| && SameElsewhere(t, t', cur)
    requires Around(t, s, u) && !Around(t, s, cur)
    ensures Level(t', s, u) == Level(t, s, u)
    decreases u
  {
    if u != s {
      LevelSame(t, t', cur, s, Outer(t, u));
      if Around(t, u, cur) {
        AroundTrans(t, s, u, cur);
      }
    }
  }

  lemma {:induction false} CountsSame(t: Tree, t': Tree, cur: nat, s: nat, n: nat)
    requires Shaped(t) && Shaped(t') && cur < |t.scopes| && s < |t.scopes| && SameElsewhere(t, t', cur)
    requires !Around(t, s, cur) && n <= |t.scopes[s].bindings|
    ensures StashCount(t', s, n) == StashCount(t, s, n) && StackCount(t', s, n) == StackCount(t, s, n)
    decreases n
  {
    if n > 0 {
      CountsSame(t, t', cur, s, n - 1);
      assert Listed(t, s) && Listed(t', s);
    }
  }

  lemma {:induction false} OffsetSame(t: Tree, t': Tree, cur: nat, final: set<nat>, s: nat)
    requires Shaped(t) && Shaped(t') && cur < |t.scopes| && s < |t.scopes| && SameElsewhere(t, t', cur)
    requires FinalOk(t, final, cur) && s in final
    ensures StackOffset(t', s) == StackOffset(t, s) && ArgsInStash(t', s) == ArgsInStash(t, s)
    decreases s
  {
    if !t.scopes[s].isFunction && s > 0 {
      OffsetSame(t, t', cur, final, Outer(t, s));
      CountsSame(t, t', cur, Outer(t, s), |t.scopes[Outer(t, s)].bindings|);
    }
  }

  /** What an access to a finished binding has become is still right. */
  lemma ResolveSame(t: Tree, t': Tree, cur: nat, final: set<nat>, b: nat, u: nat, op: Op)
    requires Shaped(t) && Shaped(t') && cur < |t.scopes| && u < |t.scopes| && SameElsewhere(t, t', cur)
    requires FinalOk(t, final, cur) && b < |t.bindings| && t.bindings[b].scope in final && Around(t, t.bindings[b].scope, u)
    ensures b < |t'.bindings| && t'.bindings[b] == t.bindings[b] && Resolve(t', b, u, op) == Resolve(t, b, u, op)
  {
    hide Level, StashCount, StackCount, StackOffset, ArgsInStash;
    var s, i := t.bindings[b].scope, t.bindings[b].index;
    assert Listed(t, s);
    LevelSame(t, t', cur, s, u);
    CountsSame(t, t', cur, s, i);
    CountsSame(t, t', cur, s, i + 1);
    OffsetSame(t, t', cur, final, s);
  }

  // ---- what compilation does to scopes and bindings

  /** Bindings keep their uses; new ones have none. */
  ghost predicate SameUses(t: Tree, t': Tree) {
    && |t.bindings| <= |t'.bindings|
    && (forall b :: 0 <= b < |t.bindings| ==> t'.bindings[b].uses == t.bindings[b].uses && t'.bindings[b].scope == t.bindings[b].scope)
    && (forall b :: |t.bindings| <= b < |t'.bindings| ==> t'.bindings[b].uses == [])
  }

  lemma CodeKept(t: Tree, t': Tree, code: seq<Instr>, final: set<nat>, cur: nat)
    requires TreeOk(t) && TreeOk(t') && cur < |t.scopes| && SameElsewhere(t, t', cur) && SameUses(t, t')
    requires CodeOk(t, code, final) && FinalOk(t, final, cur)
    ensures CodeOk(t', code, final)
  {
    hide Resolve, Around, Crosses, Bound;
    forall b, k | 0 <= b < |t'.bindings| && 0 <= k < |t'.bindings[b].uses|
      ensures Reads(t', code, b, k, t'.bindings[b].scope in final)
    {
      assert Reads(t, code, b, k, t.bindings[b].scope in final) && UseOk(t, b, k);
      if t.bindings[b].scope in final {
        ResolveSame(t, t', cur, final, b, t.bindings[b].uses[k].scope, t.bindings[b].uses[k].op);
      }
    }
  }

  lemma FinalKept(t: Tree, t': Tree, final: set<nat>, cur: nat)
    requires Rooted(t) && Rooted(t') && cur < |t.scopes| && SameElsewhere(t, t', cur) && FinalOk(t, final, cur)
    ensures FinalOk(t', final, cur)
  {
    forall s | s in final ensures !Around(t', s, cur) {
      AroundSame(t, t', cur, s, cur);
    }
  }

  /** What has been resolved, and what has not, stays so through changes around where compilation is. */
  lemma StateKept(t: Tree, t': Tree, code: seq<Instr>, final: set<nat>, cur: nat)
    requires TreeOk(t) && TreeOk(t') && cur < |t.scopes| && SameElsewhere(t, t', cur) && SameUses(t, t')
    requires CodeOk(t, code, final) && FinalOk(t, final, cur)
    ensures CodeOk(t', code, final) && FinalOk(t', final, cur)
  {
    CodeKept(t, t', code, final, cur);
    FinalKept(t, t', final, cur);
  }

  function Entered(t: Tree, cur: nat, isFunction: bool, dynamic: bool, variable: bool): Tree
    requires cur < |t.scopes|
  {
    var n := |t.scopes|;
    var x := t.scopes[cur];
    t.(scopes := t.scopes[cur := if isFunction then x else x.(nested := x.nested + [n])]
         + [Scope(Some(cur), isFunction, dynamic, false, false, 0, [], map[], [], variable)])
  }

  function Added(t: Tree, cur: nat, name: string, isArg: bool): Tree
    requires cur < |t.scopes|
  {
    var b, x := |t.bindings|, t.scopes[cur];
    Tree(t.scopes[cur := x.(bindings := x.bindings + [b], names := x.names[name := b], numArgs := if isArg then x.numArgs + 1 else x.numArgs)],
         t.bindings + [Binding(name, cur, |x.bindings|, false, [])])
  }

  function MovedToStash(t: Tree, b: nat): Tree
    requires b < |t.bindings| && t.bindings[b].scope < |t.scopes|
  {
    var s := t.bindings[b].scope;
    Tree(t.scopes[s := t.scopes[s].(needStash := true)], t.bindings[b := t.bindings[b].(inStash := true)])
  }

  /** The parameters of s, and no other bindings, are moved to its stash. */
  ghost predicate ArgsMoved(t: Tree, t': Tree, s: nat)
    requires s < |t.scopes|
  {
    && t'.scopes == t.scopes[s := t.scopes[s].(argsInStash := true, needStash := true)]
    && |t'.bindings| == |t.bindings|
    && forall b :: 0 <= b < |t.bindings| ==>
      t'.bindings[b] == if t.bindings[b].scope == s && t.bindings[b].index < t.scopes[s].numArgs then t.bindings[b].(inStash := true) else t.bindings[b]
  }

  /** Everything around cur may be looked up by name at run time. */
  ghost predicate MadeDynamic(t: Tree, t': Tree, cur: nat)
    requires Rooted(t) && cur < |t.scopes|
  {
    && t'.bindings == t.bindings && |t'.scopes| == |t.scopes|
    && forall s :: 0 <= s < |t.scopes| ==> t'.scopes[s] == if Around(t, s, cur) then t.scopes[s].(dynamic := true) else t.scopes[s]
  }

  function Used(t: Tree, b: nat, x: Use): Tree
    requires b < |t.bindings|
  {
    t.(bindings := t.bindings[b := t.bindings[b].(uses := t.bindings[b].uses + [x])])
  }

  /** Scopes keep their places and their bindings, and uses stay where they are; what was in a stash still is. */
  ghost predicate OnlyFlags(t: Tree, t': Tree) {
    && |t'.scopes| == |t.scopes| && |t'.bindings| == |t.bindings|
    && (forall s :: 0 <= s < |t.scopes| ==>
      && t'.scopes[s] == t.scopes[s].(dynamic := t'.scopes[s].dynamic, needStash := t'.scopes[s].needStash, argsInStash := t'.scopes[s].argsInStash)
      && (t.scopes[s].needStash ==> t'.scopes[s].needStash))
    && (forall b :: 0 <= b < |t.bindings| ==>
      && t'.bindings[b] == t.bindings[b].(inStash := t'.bindings[b].inStash)
      && (t.bindings[b].inStash ==> t'.bindings[b].inStash))
  }

  lemma {:induction false} AroundByOuter(t: Tree, t': Tree, s: nat, u: nat)
    requires Rooted(t) && Rooted(t') && OnlyFlags(t, t') && u < |t.scopes|
    ensures Around(t', s, u) == Around(t, s, u) && Crosses(t', s, u) == Crosses(t, s, u)
    decreases u
  {
    if u > 0 {
      AroundByOuter(t, t', s, Outer(t, u));
    }
  }

  lemma FlagsKeepTree(t: Tree, t': Tree)
    requires TreeOk(t) && OnlyFlags(t, t')
    requires forall s :: 0 <= s < |t'.scopes| && Bound(t') ==> FlagsOk(t', s)
    ensures TreeOk(t')
  {
    assert Rooted(t');
    forall s | 0 <= s < |t'.scopes| ensures Listed(t', s) && NestedOk(t', s) {
      assert Listed(t, s) && NestedOk(t, s);
    }
    forall b, k | 0 <= b < |t'.bindings| && 0 <= k < |t'.bindings[b].uses| ensures UseOk(t', b, k) {
      assert UseOk(t, b, k);
      AroundByOuter(t, t', t.bindings[b].scope, t.bindings[b].uses[k].scope);
    }
  }

  lemma MovedKeeps(t: Tree, b: nat, cur: nat)
    requires TreeOk(t) && b < |t.bindings| && t.bindings[b].scope < |t.scopes| && cur < |t.scopes| && Around(t, t.bindings[b].scope, cur)
    ensures var t' := MovedToStash(t, b); TreeOk(t') && SameElsewhere(t, t', cur) && SameUses(t, t')
  {
    hide Around, Crosses;
    var t' := MovedToStash(t, b);
    forall s | 0 <= s < |t'.scopes| && Bound(t') ensures FlagsOk(t', s) {
      assert FlagsOk(t, s) && Listed(t, s);
    }
    FlagsKeepTree(t, t');
  }

  lemma ArgsMovedKeeps(t: Tree, t': Tree, s: nat, cur: nat)
    requires TreeOk(t) && s < |t.scopes| && ArgsMoved(t, t', s) && cur < |t.scopes| && Around(t, s, cur)
    ensures TreeOk(t') && SameElsewhere(t, t', cur) && SameUses(t, t')
  {
    hide Around, Crosses;
    forall r | 0 <= r < |t'.scopes| && Bound(t') ensures FlagsOk(t', r) {
      assert FlagsOk(t, r) && Listed(t, r);
    }
    FlagsKeepTree(t, t');
  }

  lemma DynamicKeeps(t: Tree, t': Tree, cur: nat)
    requires TreeOk(t) && cur < |t.scopes| && MadeDynamic(t, t', cur)
    ensures TreeOk(t') && SameElsewhere(t, t', cur) && SameUses(t, t')
  {
    hide Around, Crosses;
    forall r | 0 <= r < |t'.scopes| && Bound(t') ensures FlagsOk(t', r) {
      assert FlagsOk(t, r) && Listed(t, r);
    }
    FlagsKeepTree(t, t');
  }

  /** Nothing that was there has changed, but for lists that got longer. */
  ghost predicate OnlyLonger(t: Tree, t': Tree) {
    && |t.scopes| <= |t'.scopes|
    && forall s :: 0 <= s < |t.scopes| ==> t'.scopes[s].outer == t.scopes[s].outer && t'.scopes[s].isFunction == t.scopes[s].isFunction
  }

  lemma {:induction false} AroundLonger(t: Tree, t': Tree, s: nat, u: nat)
    requires Rooted(t) && Rooted(t') && OnlyLonger(t, t') && u < |t.scopes|
    ensures Around(t', s, u) == Around(t, s, u) && Crosses(t', s, u) == Crosses(t, s, u)
    decreases u
  {
    if u > 0 {
      AroundLonger(t, t', s, Outer(t, u));
    }
  }

  lemma EnteredChild(t: Tree, cur: nat, isFunction: bool, dynamic: bool, variable: bool, s: nat, u: nat)
    requires Rooted(t) && cur < |t.scopes|
    ensures var t' := Entered(t, cur, isFunction, dynamic, variable);
      Rooted(t') && (Child(t', s, u) <==> Child(t, s, u) || (u == |t.scopes| && s == cur && !isFunction))
  {
  }

  lemma EnteredNested(t: Tree, cur: nat, isFunction: bool, dynamic: bool, variable: bool, s: nat)
    requires Rooted(t) && cur < |t.scopes| && s <= |t.scopes| && (s < |t.scopes| ==> NestedOk(t, s))
    ensures var t' := Entered(t, cur, isFunction, dynamic, variable); Rooted(t') && NestedOk(t', s)
  {
    var t', n := Entered(t, cur, isFunction, dynamic, variable), |t.scopes|;
    forall u: nat ensures Child(t', s, u) <==> Child(t, s, u) || (u == n && s == cur && !isFunction) {
      EnteredChild(t, cur, isFunction, dynamic, variable, s, u);
    }
    assert forall u: nat :: Child(t, s, u) ==> u < n && s < n;
    hide Child;
    if s == n {
      assert t'.scopes[s].nested == [];
    } else if s == cur && !isFunction {
      assert t'.scopes[s].nested == t.scopes[s].nested + [n];
    } else {
      assert t'.scopes[s].nested == t.scopes[s].nested;
    }
  }

  lemma EnteredKeeps(t: Tree, cur: nat, isFunction: bool, dynamic: bool, variable: bool)
    requires TreeOk(t) && cur < |t.scopes|
    ensures var t' := Entered(t, cur, isFunction, dynamic, variable); TreeOk(t') && SameElsewhere(t, t', cur) && SameUses(t, t')
  {
    hide Around, Crosses, NestedOk;
    var t' := Entered(t, cur, isFunction, dynamic, variable);
    assert Around(t, cur, cur) by {
      AroundSelf(t, cur);
    }
    forall s | 0 <= s < |t'.scopes| ensures Listed(t', s) && NestedOk(t', s) {
      assert s < |t.scopes| ==> Listed(t, s);
      EnteredNested(t, cur, isFunction, dynamic, variable, s);
    }
    forall s | 0 <= s < |t'.scopes| ensures FlagsOk(t', s) {
      assert s < |t.scopes| ==> FlagsOk(t, s);
    }
    forall b, k | 0 <= b < |t'.bindings| && 0 <= k < |t'.bindings[b].uses| ensures UseOk(t', b, k) {
      assert UseOk(t, b, k);
      AroundLonger(t, t', t.bindings[b].scope, t.bindings[b].uses[k].scope);
    }
  }

  lemma AroundSelf(t: Tree, u: nat)
    requires Rooted(t) && u < |t.scopes|
    ensures Around(t, u, u) && !Crosses(t, u, u)
  {
  }

  lemma AddedNested(t: Tree, cur: nat, name: string, isArg: bool, s: nat)
    requires Rooted(t) && cur < |t.scopes| && s < |t.scopes| && NestedOk(t, s)
    ensures var t' := Added(t, cur, name, isArg); Rooted(t') && NestedOk(t', s)
  {
  }

  /** What changes only around s changes only around every scope further in. */
  lemma SameFurtherIn(t: Tree, t': Tree, s: nat, cur: nat)
    requires Rooted(t) && Rooted(t') && s < |t.scopes| && cur < |t.scopes| && SameElsewhere(t, t', s) && Around(t, s, cur)
    ensures SameElsewhere(t, t', cur)
  {
    forall r: nat | r < |t.scopes| && Around(t, r, s) ensures Around(t, r, cur) {
      AroundTrans(t, r, s, cur);
    }
  }

  /** The scope that a var declared in s belongs to. */
  function VarScope(t: Tree, s: nat): (v: nat)
    requires Rooted(t) && s < |t.scopes|
    ensures v < |t.scopes| && Around(t, v, s) && (t.scopes[v].isFunction || t.scopes[v].variable || v == 0)
  {
    if t.scopes[s].isFunction || t.scopes[s].variable || t.scopes[s].outer.None? then s else VarScope(t, Outer(t, s))
  }

  /** The way from a scope to the one that its vars belong to. */
  lemma VarStep(t: Tree, s: nat, cur: nat)
    requires TreeOk(t) && cur < |t.scopes| && s < |t.scopes| && Around(t, s, cur)
    requires !t.scopes[s].isFunction && !t.scopes[s].variable && t.scopes[s].outer.Some?
    ensures var o := t.scopes[s].outer.value; o < s && Around(t, o, cur) && VarScope(t, s) == VarScope(t, o)
  {
    AroundTrans(t, Outer(t, s), s, cur);
  }

  lemma VarHere(t: Tree, s: nat)
    requires TreeOk(t) && s < |t.scopes| && (t.scopes[s].isFunction || t.scopes[s].variable || t.scopes[s].outer.None?)
    ensures VarScope(t, s) == s
  {
  }

  lemma IsRooted(t: Tree)
    requires TreeOk(t)
    ensures Rooted(t)
  {
  }

  lemma AroundItself(t: Tree, u: nat)
    requires TreeOk(t) && u < |t.scopes|
    ensures Around(t, u, u)
  {
  }

  /** A new binding of a scope around, seen from where compilation is. */
  lemma AddedFurtherOut(t: Tree, s: nat, name: string, isArg: bool, cur: nat)
    requires TreeOk(t) && cur < |t.scopes| && s < |t.scopes| && Around(t, s, cur) && |t.scopes[s].bindings| + 1 < SLOTS
    requires isArg ==> t.scopes[s].isFunction && t.scopes[s].numArgs == |t.scopes[s].bindings| && !t.scopes[s].argsInStash
    ensures var t' := Added(t, s, name, isArg); TreeOk(t') && SameElsewhere(t, t', cur) && SameUses(t, t')
  {
    hide Around, NestedOk, FlagsOk;
    AddedKeeps(t, s, name, isArg);
    SameFurtherIn(t, Added(t, s, name, isArg), s, cur);
  }

  lemma AddedKeeps(t: Tree, cur: nat, name: string, isArg: bool)
    requires TreeOk(t) && cur < |t.scopes| && |t.scopes[cur].bindings| + 1 < SLOTS
    requires isArg ==> t.scopes[cur].isFunction && t.scopes[cur].numArgs == |t.scopes[cur].bindings| && !t.scopes[cur].argsInStash
    ensures var t' := Added(t, cur, name, isArg); TreeOk(t') && SameElsewhere(t, t', cur) && SameUses(t, t')
  {
    hide Around, Crosses, FlagsOk, NestedOk;
    var t' := Added(t, cur, name, isArg);
    assert Around(t, cur, cur) by {
      AroundSelf(t, cur);
    }
    forall s | 0 <= s < |t'.scopes| ensures Listed(t', s) {
      assert Listed(t, s);
    }
    forall s | 0 <= s < |t'.scopes| ensures NestedOk(t', s) {
      AddedNested(t, cur, name, isArg, s);
    }
    forall s | 0 <= s < |t'.scopes| ensures FlagsOk(t', s) {
      AddedFlags(t, cur, name, isArg, s);
    }
    forall b, k | 0 <= b < |t'.bindings| && 0 <= k < |t'.bindings[b].uses| ensures UseOk(t', b, k) {
      assert UseOk(t, b, k);
      AroundLonger(t, t', t.bindings[b].scope, t.bindings[b].uses[k].scope);
    }
  }

  lemma AddedFlags(t: Tree, cur: nat, name: string, isArg: bool, s: nat)
    requires TreeOk(t) && cur < |t.scopes| && |t.scopes[cur].bindings| + 1 < SLOTS && s < |t.scopes|
    requires isArg ==> t.scopes[cur].isFunction && t.scopes[cur].numArgs == |t.scopes[cur].bindings| && !t.scopes[cur].argsInStash
    ensures var t' := Added(t, cur, name, isArg); Bound(t') ==> FlagsOk(t', s)
  {
    assert FlagsOk(t, s) && Listed(t, s);
    var t' := Added(t, cur, name, isArg);
    forall n | n in t'.scopes[s].names ensures t'.scopes[s].names[n] in t'.scopes[s].bindings {
      assert n in t.scopes[s].names ==> t.scopes[s].names[n] in t.scopes[s].bindings;
    }
  }

  /** A new use from where compilation is. */
  lemma UsedKeeps(t: Tree, code: seq<Instr>, final: set<nat>, cur: nat, b: nat, op: Op)
    requires TreeOk(t) && cur < |t.scopes| && b < |t.bindings| && CodeOk(t, code, final) && FinalOk(t, final, cur)
    requires Around(t, t.bindings[b].scope, cur) && (Crosses(t, t.bindings[b].scope, cur) ==> t.bindings[b].inStash)
    ensures var t' := Used(t, b, Use(cur, |code|, op));
      TreeOk(t') && SameElsewhere(t, t', cur) && CodeOk(t', code + [Unresolved(op)], final) && FinalOk(t', final, cur)
  {
    var t', code' := Used(t, b, Use(cur, |code|, op)), code + [Unresolved(op)];
    assert OnlyLonger(t, t');
    UsedTree(t, cur, b, Use(cur, |code|, op));
    hide Around, Crosses, Resolve, NestedOk, FlagsOk, UseOk;
    FinalKept(t, t', final, cur);
    forall c, k | 0 <= c < |t'.bindings| && 0 <= k < |t'.bindings[c].uses|
      ensures Reads(t', code', c, k, t'.bindings[c].scope in final)
    {
      if c == b && k == |t.bindings[b].uses| {
        assert t.bindings[b].scope !in final;
      } else {
        assert Reads(t, code, c, k, t.bindings[c].scope in final);
        if t.bindings[c].scope in final {
          assert Around(t, t.bindings[c].scope, t.bindings[c].uses[k].scope) by {
            UseAround(t, c, k);
          }
          ResolveSame(t, t', cur, final, c, t.bindings[c].uses[k].scope, t.bindings[c].uses[k].op);
        }
      }
    }
  }

  lemma UseAround(t: Tree, b: nat, k: nat)
    requires TreeOk(t) && b < |t.bindings| && k < |t.bindings[b].uses|
    ensures t.bindings[b].uses[k].scope < |t.scopes| && Around(t, t.bindings[b].scope, t.bindings[b].uses[k].scope)
  {
    assert UseOk(t, b, k);
  }

  lemma UsedTree(t: Tree, cur: nat, b: nat, x: Use)
    requires TreeOk(t) && cur < |t.scopes| && b < |t.bindings| && x.scope == cur
    requires Around(t, t.bindings[b].scope, cur) && (Crosses(t, t.bindings[b].scope, cur) ==> t.bindings[b].inStash)
    ensures TreeOk(Used(t, b, x)) && SameElsewhere(t, Used(t, b, x), cur)
  {
    hide Around, Crosses;
    var t' := Used(t, b, x);
    forall s | 0 <= s < |t'.scopes| ensures Listed(t', s) && NestedOk(t', s) {
      assert Listed(t, s) && NestedOk(t, s);
    }
    forall s | 0 <= s < |t'.scopes| ensures FlagsOk(t', s) {
      assert FlagsOk(t, s) && Listed(t, s);
    }
    forall c, k | 0 <= c < |t'.bindings| && 0 <= k < |t'.bindings[c].uses| ensures UseOk(t', c, k) {
      if c == b && k == |t.bindings[b].uses| {
        AroundLonger(t, t', t.bindings[b].scope, cur);
      } else {
        assert UseOk(t, c, k);
        AroundLonger(t, t', t.bindings[c].scope, t.bindings[c].uses[k].scope);
      }
    }
  }
}
