/** Compiling statements, as far as scopes, try statements, loops and the ways out of them go. */
module BranchCompiler {
  import opened Options
  import opened BranchSpec
  import opened BranchBlocks
  import opened BranchLayout
  import opened BranchMaking

  /** Whether a block is the one that a break or continue with this label, or none, is about. */
  predicate Matches(b: Block, name: Option<string>, isBreak: bool) {
    Catches(b.typ, b.name, name, isBreak)
  }

  ghost predicate IsTarget(blocks: seq<Block>, name: Option<string>, isBreak: bool, k: nat) {
    && k < |blocks| && Matches(blocks[k], name, isBreak) && (isBreak || IsLoop(blocks[k].typ))
    && forall j :: k < j < |blocks| ==> !Matches(blocks[j], name, isBreak)
  }

  /** What undoes a block; the placeholder becomes the instruction that leaves the scope. */
  function Undo(t: BlockType): seq<Instr> {
    if IsScope(t) then [Hole]
    else if t.BlockTry? then [LeaveTry]
    else if t.BlockWith? then [LeaveWith]
    else if t.BlockLoopEnum? then [EnumPopClose]
    else []
  }

  /** How many blocks remain when a branch out to block k has run its exit code: a continue of a for loop
      leaves the scope of the loop's variables in place. */
  function Remaining(blocks: seq<Block>, k: nat, isBreak: bool): (n: nat)
    requires k < |blocks|
    ensures k < n <= |blocks|
  {
    if !isBreak && blocks[k].typ.BlockLoop? && k + 1 < |blocks| && blocks[k + 1].typ.BlockIterScope? then k + 2 else k + 1
  }

  /** Undoing all blocks from n on, innermost first. */
  function UndoFrom(blocks: seq<Block>, n: nat): seq<Instr>
    requires n <= |blocks|
  {
    if n == |blocks| then [] else Undo(blocks[|blocks| - 1].typ) + UndoFrom(blocks[..|blocks| - 1], n)
  }

  /** The exit code depends on the kinds of the blocks alone. */
  lemma {:induction false} UndoByKind(a: seq<Block>, b: seq<Block>, n: nat)
    requires SameKinds(a, b) && n <= |a|
    ensures UndoFrom(a, n) == UndoFrom(b, n)
    decreases |a|
  {
    if n < |a| {
      UndoByKind(a[..|a| - 1], b[..|b| - 1], n);
    }
  }

  /** Where branches to block k land is what its list of placeholders wants. */
  lemma LandsRight(blocks: seq<Block>, conts: seq<Shape>, k: nat, name: Option<string>, isBreak: bool)
    requires LoopsOk(blocks, conts) && IsTarget(blocks, name, isBreak, k)
    ensures !IsScope(blocks[k].typ)
    ensures Frames(blocks[..Remaining(blocks, k, isBreak)]) == (if isBreak then BreakShape(blocks, k) else conts[k])
  {
    FramesOfOuter(blocks, k);
    if k + 1 < |blocks| {
      FramesOfOuter(blocks, k + 1);
    }
  }

  lemma FramesOfOuter(blocks: seq<Block>, k: nat)
    requires k < |blocks|
    ensures Frames(blocks[..k + 1]) == Enter(Frames(blocks[..k]), blocks[k].typ)
  {
    hide Enter;
    assert blocks[..k + 1][..k] == blocks[..k];
  }

  /** The code so far and the exit code still to come make up the whole. */
  lemma UndoneOne(code: seq<Instr>, whole: seq<Instr>, was: seq<Block>, blocks: seq<Block>, j: nat, n: nat)
    requires n < j <= |was| && SameKinds(was, blocks)
    requires code + UndoFrom(was[..j], n) == whole
    ensures code + Undo(blocks[j - 1].typ) + UndoFrom(was[..j - 1], n) == whole
  {
    assert was[..j][..j - 1] == was[..j - 1];
    var x, y := Undo(was[j - 1].typ), UndoFrom(was[..j - 1], n);
    assert code + (x + y) == code + x + y;
  }

  lemma SameKindsTrans(a: seq<Block>, b: seq<Block>, c: seq<Block>)
    requires SameKinds(a, b) && SameKinds(b, c)
    ensures SameKinds(a, c)
  {
  }

  lemma AllUndone(was: seq<Block>, n: nat)
    requires n <= |was|
    ensures UndoFrom(was[..n], n) == []
  {
    assert |was[..n]| == n;
  }

  /** The blocks may have got placeholders since the target was found. */
  lemma StillLandsRight(was: seq<Block>, blocks: seq<Block>, conts: seq<Shape>, k: nat, name: Option<string>, isBreak: bool)
    requires SameKinds(was, blocks) && LoopsOk(blocks, conts) && IsTarget(was, name, isBreak, k)
    ensures Frames(blocks[..Remaining(was, k, isBreak)]) == (if isBreak then BreakShape(blocks, k) else conts[k])
  {
    assert IsTarget(blocks, name, isBreak, k) && Remaining(blocks, k, isBreak) == Remaining(was, k, isBreak);
    LandsRight(blocks, conts, k, name, isBreak);
  }

  /** A loop was left with its breaks going to one position and its continues to another. */
  ghost predicate LoopExits(inside: View, code: seq<Instr>, depth: nat, name: Option<string>, breakTo: nat, contTo: nat) {
    && |inside.blocks| == depth + 1 && IsLoop(inside.blocks[depth].typ) && inside.blocks[depth].name == name
    && PatchedTo(code, inside.blocks[depth].breaks, breakTo) && PatchedTo(code, inside.blocks[depth].conts, contTo)
  }

  /** The placeholders for the jumps to the cases from the i-th on are those in mine. */
  ghost predicate Pending(jumps: seq<int>, i: nat, mine: set<nat>) {
    && i <= |jumps|
    && (forall k :: i <= k < |jumps| && jumps[k] >= 0 ==> jumps[k] in mine)
    && (forall x :: x in mine ==> exists k :: i <= k < |jumps| && jumps[k] == x)
    && (forall k, l :: i <= k < l < |jumps| && jumps[k] >= 0 ==> jumps[k] != jumps[l])
  }

  lemma PendingStart(jumps: seq<int>)
    requires forall k :: 0 <= k < |jumps| ==> jumps[k] == -1
    ensures Pending(jumps, 0, {})
  {
  }

  lemma PendingMore(jumps: seq<int>, mine: set<nat>, k: nat, pos: nat)
    requires Pending(jumps, 0, mine) && k < |jumps| && jumps[k] == -1 && pos !in mine
    ensures Pending(jumps[k := pos], 0, mine + {pos})
  {
    var js := jumps[k := pos];
    forall x | x in mine + {pos} ensures exists l :: 0 <= l < |js| && js[l] == x {
      if x == pos {
        assert js[k] == pos;
      } else {
        var l :| 0 <= l < |jumps| && jumps[l] == x;
        assert js[l] == x;
      }
    }
  }

  lemma PendingNext(jumps: seq<int>, i: nat, mine: set<nat>)
    requires i < |jumps| && Pending(jumps, i, mine)
    ensures jumps[i] >= 0 ==> jumps[i] in mine
    ensures Pending(jumps, i + 1, if jumps[i] >= 0 then mine - {jumps[i]} else mine)
  {
    forall x | x in mine && x != jumps[i] ensures exists k :: i + 1 <= k < |jumps| && jumps[k] == x {
      var k :| i <= k < |jumps| && jumps[k] == x;
      assert k > i;
    }
  }

  lemma PendingNone(jumps: seq<int>, mine: set<nat>)
    requires Pending(jumps, |jumps|, mine)
    ensures mine == {}
  {
    assert forall x :: x !in mine;
  }

  /** The placeholders in mine are for jumps taken in one shape. */
  ghost predicate Waiting(shapes: seq<Shape>, mine: set<nat>, here: Shape) {
    forall pos :: pos in mine ==> pos + 1 < |shapes| && shapes[pos] == shapes[pos + 1] == here
  }

  lemma WaitingNone(shapes: seq<Shape>, here: Shape)
    ensures Waiting(shapes, {}, here)
  {
  }

  lemma WaitingMore(was: seq<Shape>, shapes: seq<Shape>, mine: set<nat>, pos: nat, here: Shape)
    requires Waiting(was, mine, here) && was <= shapes && pos + 1 < |shapes| && shapes[pos] == shapes[pos + 1] == here
    ensures Waiting(shapes, mine + {pos}, here)
  {
  }

  lemma WaitingStays(was: seq<Shape>, shapes: seq<Shape>, mine: set<nat>, here: Shape)
    requires Waiting(was, mine, here) && was <= shapes
    ensures Waiting(shapes, mine, here)
  {
  }

  lemma PatchedStays(code: seq<Instr>, longer: seq<Instr>, items: seq<nat>, target: nat)
    requires PatchedTo(code, items, target) && |code| <= |longer| && longer[..|code|] == code
    ensures PatchedTo(longer, items, target)
  {
    forall pc | pc in items ensures pc < |longer| && longer[pc] == Jump(target - pc) {
      assert longer[..|code|][pc] == code[pc];
    }
  }

  lemma TargetKinds(was: seq<Block>, blocks: seq<Block>, conts: seq<Shape>, name: Option<string>, isBreak: bool, k: nat)
    requires SameKinds(was, blocks) && LoopsOk(was, conts) && IsTarget(was, name, isBreak, k)
    ensures k < |blocks| && !IsScope(blocks[k].typ) && (!isBreak ==> IsLoop(blocks[k].typ))
  {
  }

  lemma PastTarget(was: seq<Block>, v: View, k: nat, j: nat, name: Option<string>, isBreak: bool)
    requires SameKinds(was, v.blocks) && IsTarget(was, name, isBreak, k) && k < j < |was|
    requires !(!isBreak && was[k].typ.BlockLoop? && j == k + 1 && was[j].typ.BlockIterScope?)
    ensures GoesPast(v, j, name, isBreak)
  {
    assert !Matches(was[j], name, isBreak);
    assert j - 1 != k ==> !Matches(was[j - 1], name, isBreak);
  }

  lemma TargetMade(u: View, v: View, w: View, conts: seq<Shape>, k: nat, name: Option<string>, isBreak: bool)
    requires IsTarget(u.blocks, name, isBreak, k) && OnWayOut(u, v, Remaining(u.blocks, k, isBreak), name, isBreak) && AddsJump(v, w, k, isBreak)
    requires SameKinds(u.blocks, v.blocks) && LoopsOk(w.blocks, conts) && |u.code| <= |v.code|
    ensures Makes(u, w, Branch(isBreak, name))
  {
    hide ExitAt, Fills, ContShape;
    BranchMade(u, v, w, k, Remaining(u.blocks, k, isBreak), name, isBreak);
  }

  // ---- which programs are legal

  /** The labels in force, with whether they are those of loops, and whether there is a loop or a switch around. */
  datatype Env = Env(labels: map<string, bool>, inLoop: bool, inSwitch: bool)

  function Bind(labels: map<string, bool>, name: Option<string>, loop: bool): map<string, bool> {
    if name.Some? then labels[name.value := loop] else labels
  }

  function Within(e: Env, typ: BlockType, name: Option<string>): Env {
    if IsLoop(typ) then Env(Bind(e.labels, name, true), true, e.inSwitch)
    else if typ.BlockSwitch? then e.(inSwitch := true)
    else if typ.BlockLabel? then e.(labels := Bind(e.labels, name, false))
    else e
  }

  function EnvOf(blocks: seq<Block>): Env {
    if blocks == [] then Env(map[], false, false)
    else Within(EnvOf(blocks[..|blocks| - 1]), blocks[|blocks| - 1].typ, blocks[|blocks| - 1].name)
  }

  predicate LegalBranch(name: Option<string>, isBreak: bool, e: Env) {
    if name.Some? then name.value in e.labels && (isBreak || e.labels[name.value]) else e.inLoop || (isBreak && e.inSwitch)
  }

  /** A statement whose branches all have somewhere to go, and whose labels are new. */
  ghost predicate Legal(s: Stmt, e: Env)
    decreases s, 1
  {
    match s
    case Expression(_) => true
    case Sequence(_, list) => forall i :: 0 <= i < |list| ==> Legal(list[i], e)
    case If(_, c, a) => Legal(c, e) && (a.Some? ==> Legal(a.value, e))
    case With(_, b) => Legal(b, e)
    case TryStmt(b, c, f) =>
      && Legal(b, e)
      && (c.Some? ==> forall i :: 0 <= i < |c.value.list| ==> Legal(c.value.list[i], e))
      && (f.Some? ==> forall i :: 0 <= i < |f.value.list| ==> Legal(f.value.list[i], e))
    case Switch(_, _, cases, _) =>
      forall i, j :: 0 <= i < |cases| && 0 <= j < |cases[i].list| ==> Legal(cases[i].list[j], Within(e, BlockSwitch, None))
    case Labelled(name, t) =>
      name !in e.labels && if Loop(t) then LegalLoop(t, Some(name), e) else Legal(t, Within(e, BlockLabel, Some(name)))
    case Branch(isBreak, name) => LegalBranch(name, isBreak, e)
    case _ => LegalLoop(s, None, e)
  }

  ghost predicate LegalLoop(s: Stmt, name: Option<string>, e: Env)
    requires Loop(s)
    decreases s, 0
  {
    Legal(s.body, Within(e, if s.ForInOf? then BlockLoopEnum else BlockLoop, name))
  }

  ghost predicate AllLegal(list: seq<Stmt>, e: Env) {
    forall i :: 0 <= i < |list| ==> Legal(list[i], e)
  }

  lemma EnvPushed(blocks: seq<Block>, b: Block)
    ensures EnvOf(blocks + [b]) == Within(EnvOf(blocks), b.typ, b.name)
  {
    assert (blocks + [b])[..|blocks|] == blocks;
  }

  lemma {:induction false} EnvByKind(a: seq<Block>, b: seq<Block>)
    requires SameKinds(a, b)
    ensures EnvOf(a) == EnvOf(b)
  {
    if a != [] {
      EnvByKind(a[..|a| - 1], b[..|b| - 1]);
    }
  }

  lemma TargetAmongOuter(blocks: seq<Block>, init: seq<Block>, name: Option<string>, isBreak: bool)
    requires blocks != [] && init == blocks[..|blocks| - 1] && !Matches(blocks[|blocks| - 1], name, isBreak)
    ensures (exists k :: IsTarget(blocks, name, isBreak, k)) <==> exists k :: IsTarget(init, name, isBreak, k)
  {
    if k: nat :| IsTarget(blocks, name, isBreak, k) {
      assert IsTarget(init, name, isBreak, k);
    }
    if k: nat :| IsTarget(init, name, isBreak, k) {
      forall j | k < j < |blocks| ensures !Matches(blocks[j], name, isBreak) {
        if j < |init| {
          assert init[j] == blocks[j];
        }
      }
      assert IsTarget(blocks, name, isBreak, k);
    }
  }

  /** A break or continue has a target among the blocks exactly if it is legal within them. */
  lemma {:induction false} TargetIffLegal(blocks: seq<Block>, name: Option<string>, isBreak: bool)
    requires forall k :: 0 <= k < |blocks| && blocks[k].name.Some? ==> IsLoop(blocks[k].typ) || blocks[k].typ.BlockLabel?
    ensures (exists k :: IsTarget(blocks, name, isBreak, k)) <==> LegalBranch(name, isBreak, EnvOf(blocks))
  {
    if blocks != [] {
      var init, n := blocks[..|blocks| - 1], |blocks| - 1;
      TargetIffLegal(init, name, isBreak);
      if Matches(blocks[n], name, isBreak) {
        assert IsTarget(blocks, name, isBreak, n) <==> isBreak || IsLoop(blocks[n].typ);
        assert forall k: nat :: k < n ==> !IsTarget(blocks, name, isBreak, k);
      } else {
        TargetAmongOuter(blocks, init, name, isBreak);
      }
    }
  }

  lemma TargetIffLegalHere(blocks: seq<Block>, conts: seq<Shape>, name: Option<string>, isBreak: bool)
    requires LoopsOk(blocks, conts)
    ensures (exists k :: IsTarget(blocks, name, isBreak, k)) <==> LegalBranch(name, isBreak, EnvOf(blocks))
  {
    TargetIffLegal(blocks, name, isBreak);
  }

  /** A label is in force exactly if a block has it. */
  lemma {:induction false} LabelIffNamed(blocks: seq<Block>, name: string)
    requires forall k :: 0 <= k < |blocks| && blocks[k].name.Some? ==> IsLoop(blocks[k].typ) || blocks[k].typ.BlockLabel?
    ensures name in EnvOf(blocks).labels <==> exists k :: 0 <= k < |blocks| && blocks[k].name == Some(name)
  {
    if blocks != [] {
      var init, n := blocks[..|blocks| - 1], |blocks| - 1;
      LabelIffNamed(init, name);
      if exists k :: 0 <= k < |init| && init[k].name == Some(name) {
        var k :| 0 <= k < |init| && init[k].name == Some(name);
        assert blocks[k].name == Some(name);
      }
    }
  }

  lemma LabelIffNamedHere(blocks: seq<Block>, conts: seq<Shape>, name: string)
    requires LoopsOk(blocks, conts)
    ensures name in EnvOf(blocks).labels <==> exists k :: 0 <= k < |blocks| && blocks[k].name == Some(name)
  {
    LabelIffNamed(blocks, name);
  }

  lemma LegalTry(s: Stmt, e: Env)
    requires s.TryStmt?
    ensures Legal(s, e) <==>
      && Legal(s.block, e)
      && (s.catch_.Some? ==> AllLegal(s.catch_.value.list, e))
      && (s.finally_.Some? ==> AllLegal(s.finally_.value.list, e))
  {
  }

  lemma GrownEnv(u: View, v: View)
    requires Grown(u, v)
    ensures EnvOf(v.blocks) == EnvOf(u.blocks)
  {
    KeptKinds(u, v);
    EnvByKind(u.blocks, v.blocks);
  }

  class Compiler {
    var code: seq<Instr>
    var blocks: seq<Block>
    ghost var shapes: seq<Shape>
    ghost var conts: seq<Shape>
    ghost var open: set<nat>
    ghost var owner: map<nat, nat>

    ghost function Snap(): View
      reads this
    {
      View(code, shapes, blocks, conts, open, owner)
    }

    constructor ()
      ensures Ready(Snap()) && code == [] && blocks == [] && open == {} && shapes == [[]]
    {
      code, blocks := [], [];
      shapes, conts, open, owner := [[]], [], {}, map[];
    }

    method Emit(i: Instr, ghost next: Shape, ghost u: View, ghost mine: set<nat>)
      requires Mid(u, Snap(), mine) && !i.Hole? && InstrOk(shapes + [next], |code|, i)
      modifies `code, `shapes
      ensures Snap() == Appended(old(Snap()), i, next) && Mid(u, Snap(), mine) && Ext(old(Snap()), Snap())
      ensures |shapes| == |code| + 1 && |u.code| <= |code| && Emits(old(Snap()), Snap(), i)
    {
      MidAppend(u, Snap(), mine, i, next);
      AppendExt(Snap(), i, next);
      AppendEmits(Snap(), i, next);
      code, shapes := code + [i], shapes + [next];
    }

    /** An instruction that the caller will rewrite or declare finished. */
    method EmitOpen(i: Instr, ghost next: Shape, ghost u: View, ghost mine: set<nat>)
      requires Mid(u, Snap(), mine)
      modifies `code, `shapes, `open
      ensures Snap() == AppendedOpen(old(Snap()), i, next) && old(|code|) !in mine && Mid(u, Snap(), mine + {old(|code|)})
      ensures |shapes| == |code| + 1 && |u.code| <= |code| && Opens(old(Snap()), Snap())
    {
      MidAppendOpen(u, Snap(), mine, i, next);
      AppendOpens(Snap(), i, next);
      code, shapes, open := code + [i], shapes + [next], open + {|code|};
    }

    method Rewrite(pc: nat, i: Instr, ghost u: View, ghost mine: set<nat>)
      requires Mid(u, Snap(), mine) && |shapes| == |code| + 1
      requires pc in mine && pc < |code| && !i.Hole? && InstrOk(shapes, pc, i)
      modifies `code, `open
      ensures Snap() == Rewritten(old(Snap()), pc, i) && Mid(u, Snap(), mine - {pc})
      ensures |shapes| == |code| + 1 && |u.code| <= |code| && Writes(old(Snap()), Snap(), pc, i)
    {
      MidRewrite(u, Snap(), mine, pc, i);
      RewriteWrites(Snap(), pc, i);
      code, open := code[pc := i], open - {pc};
    }

    method PushBlock(typ: BlockType, name: Option<string>, ghost u: View, ghost mine: set<nat>)
      requires Mid(u, Snap(), mine) && (name.Some? ==> IsLoop(typ) || typ.BlockLabel?)
      requires !typ.BlockIterScope? || blocks == [] || !blocks[|blocks| - 1].typ.BlockLoop?
      modifies `blocks, `conts
      ensures Snap() == Pushed(old(Snap()), Block(typ, name, 0, [], []), Enter(Frames(old(blocks)), typ))
      ensures Mid(u, Snap(), mine) && Frames(blocks) == Enter(Frames(old(blocks)), typ)
      ensures old(LoopsOk(blocks, conts)) ==> LoopsOk(blocks, conts)
      ensures |shapes| == |code| + 1 && |u.code| <= |code|
      ensures EnvOf(blocks) == Within(EnvOf(old(blocks)), typ, name) && Enters(old(Snap()), Snap())
    {
      hide Inv, LoopsOk, Frames, EnvOf;
      var b := Block(typ, name, 0, [], []);
      EnvPushed(blocks, b);
      PushEnters(Snap(), b, Enter(Frames(blocks), typ));
      MidPush(u, Snap(), mine, b, Enter(Frames(blocks), typ));
      blocks, conts := blocks + [b], conts + [Enter(Frames(blocks), typ)];
    }

    /** Rewrites the placeholders on a list into jumps to one place. */
    method PatchJumps(items: seq<nat>, target: nat)
      requires forall pc :: pc in items ==> pc < |code|
      modifies `code
      ensures PatchedTo(code, items, target) && |code| == old(|code|)
      ensures forall pc :: 0 <= pc < |code| && pc !in items ==> code[pc] == old(code)[pc]
    {
      for i := 0 to |items|
        invariant |code| == old(|code|) && PatchedTo(code, items[..i], target)
        invariant forall pc :: 0 <= pc < |code| && pc !in items[..i] ==> code[pc] == old(code)[pc]
      {
        assert items[i] in items && items[..i + 1] == items[..i] + [items[i]];
        code := code[items[i] := Jump(target - items[i])];
      }
      assert items[..|items|] == items;
    }

    /** Leaves the block compilation is in, whose placeholders become jumps. */
    method LeaveBlock(ghost u: View, ghost mine: set<nat>)
      requires Inv(u) && Mid(u, Snap(), mine) && |blocks| > |u.blocks| && !IsScope(blocks[|blocks| - 1].typ)
      requires Now(Snap()) == BreakShape(blocks, |blocks| - 1)
      requires var b := blocks[|blocks| - 1]; IsLoop(b.typ) && b.conts != [] ==> HasShape(shapes, b.cont, conts[|blocks| - 1])
      modifies `code, `blocks, `conts
      ensures Left(old(Snap()), code) && Snap() == Popped(old(Snap()), code) && Mid(u, Snap(), mine)
      ensures |blocks| == old(|blocks|) - 1 && Now(Snap()) == old(Now(Snap()))
      ensures var b := old(blocks)[|blocks|]; PatchedTo(code, b.breaks, old(|code|)) && PatchedTo(code, b.conts, b.cont)
      ensures |shapes| == |code| + 1 && |u.code| <= |code| && Leaves(old(Snap()), Snap(), LastTarget(old(Snap())))
    {
      hide Inv, Ext, BranchBlocks.Kept, Frames;
      var b := blocks[|blocks| - 1];
      ItemsInside(Snap(), |blocks| - 1);
      PatchJumps(b.breaks, |code|);
      if IsLoop(b.typ) {
        PatchJumps(b.conts, b.cont);
      }
      assert Left(old(Snap()), code);
      MidLeave(u, old(Snap()), mine, code);
      PopLeaves(old(Snap()), code);
      blocks, conts := blocks[..|blocks| - 1], conts[..|conts| - 1];
    }

    /** Leaves the scope that compilation is in; ways out of it leave it with the same instruction. */
    method LeaveScopeBlock(ghost next: Shape, ghost u: View, ghost mine: set<nat>)
      requires Inv(u) && Mid(u, Snap(), mine) && |blocks| > |u.blocks| && IsScope(blocks[|blocks| - 1].typ)
      requires Now(Snap()) == next + [ScopeKind]
      modifies `code, `shapes, `blocks, `conts
      ensures var w := Appended(old(Snap()), BranchSpec.LeaveBlock, next);
        Left(w, code) && Snap() == Popped(w, code) && Mid(u, Snap(), mine)
      ensures blocks == old(blocks)[..old(|blocks|) - 1] && conts == old(conts)[..|blocks|] && Now(Snap()) == next
      ensures |shapes| == |code| + 1 && |u.code| <= |code| && LeavesScope(old(Snap()), Snap(), LastTarget(old(Snap())))
    {
      hide Inv, Ext, BranchBlocks.Kept, Fills;
      Emit(BranchSpec.LeaveBlock, next, u, mine);
      label emitted:
      var b := blocks[|blocks| - 1];
      ItemsInside(Snap(), |blocks| - 1);
      for i := 0 to |b.breaks|
        modifies `code
        invariant |code| == old@emitted(|code|) && PatchedWith(code, b.breaks[..i], BranchSpec.LeaveBlock)
        invariant forall pc :: 0 <= pc < |code| && pc !in b.breaks[..i] ==> code[pc] == old@emitted(code)[pc]
      {
        assert b.breaks[i] in b.breaks && b.breaks[..i + 1] == b.breaks[..i] + [b.breaks[i]];
        code := code[b.breaks[i] := BranchSpec.LeaveBlock];
      }
      assert b.breaks[..|b.breaks|] == b.breaks;
      MidLeave(u, old@emitted(Snap()), mine, code);
      PopLeaves(old@emitted(Snap()), code);
      blocks, conts := blocks[..|blocks| - 1], conts[..|conts| - 1];
    }

    /** The block that a break or continue is about; None is a syntax error. */
    method FindBreakBlock(name: Option<string>, isBreak: bool) returns (k: Option<nat>)
      ensures k.Some? ==> k.value < |blocks| && IsTarget(blocks, name, isBreak, k.value)
      ensures k.None? ==> forall j :: !IsTarget(blocks, name, isBreak, j)
    {
      var i: nat := |blocks|;
      while i > 0
        invariant i <= |blocks| && forall j :: i <= j < |blocks| ==> !Matches(blocks[j], name, isBreak)
      {
        if Matches(blocks[i - 1], name, isBreak) {
          if !isBreak && !IsLoop(blocks[i - 1].typ) {
            return None;
          }
          return Some(i - 1);
        }
        i := i - 1;
      }
      return None;
    }

    /** Undoes one block on the way out. */
    method UndoBlock(j: nat, ghost u: View)
      requires Mid(u, Snap(), {}) && |blocks| == |u.blocks| && j < |blocks| && Now(Snap()) == Frames(blocks[..j + 1])
      requires LoopsOk(blocks, conts)
      modifies `code, `shapes, `blocks, `owner
      ensures Mid(u, Snap(), {}) && SameKinds(old(blocks), blocks) && LoopsOk(blocks, conts)
      ensures Now(Snap()) == Frames(blocks[..j]) && code == old(code) + Undo(blocks[j].typ) && Undoes(old(Snap()), Snap(), j)
    {
      hide Emits, Undoes, Fills;
      hide Inv, Ext, BranchBlocks.Kept, LoopsOk, Mid, InstrOk;
      ExtAtMid(u, Snap(), {});
      var b := blocks[j];
      ghost var next, v0 := Frames(blocks[..j]), Snap();
      assert blocks[..j + 1][..j] == blocks[..j];
      if IsScope(b.typ) {
        MidAddBreak(u, Snap(), {}, j, next);
        ScopeUndone(v0, j, next);
        ShapesByKind(blocks, blocks[j := WithBreak(b, |code|)]);
        LoopsOkSame(Snap(), Added(Snap(), j, WithBreak(b, |code|), next));
        blocks, owner := blocks[j := WithBreak(b, |code|)], owner[|code| := j];
        code, shapes := code + [Hole], shapes + [next];
      } else if b.typ.BlockTry? {
        Emit(LeaveTry, next, u, {});
        EmittedUndoes(v0, Snap(), j, LeaveTry);
      } else if b.typ.BlockWith? {
        Emit(LeaveWith, next, u, {});
        EmittedUndoes(v0, Snap(), j, LeaveWith);
      } else if b.typ.BlockLoopEnum? {
        Emit(EnumPopClose, next, u, {});
        EmittedUndoes(v0, Snap(), j, EnumPopClose);
      } else {
        NothingUndone(v0, j);
      }
    }

    /** Undoes all blocks between a break or continue and the block it is about, innermost first. */
    method EmitBlockExitCode(name: Option<string>, isBreak: bool, ghost u: View) returns (k: Option<nat>)
      requires Ready(Snap()) && Mid(u, Snap(), {}) && |blocks| == |u.blocks|
      modifies `code, `shapes, `blocks, `owner
      ensures k.None? ==> forall j :: !IsTarget(old(blocks), name, isBreak, j)
      ensures k.Some? ==> IsTarget(old(blocks), name, isBreak, k.value) && Mid(u, Snap(), {}) && SameKinds(old(blocks), blocks)
      ensures k.Some? ==> code == old(code) + UndoFrom(old(blocks), Remaining(old(blocks), k.value, isBreak))
      ensures k.Some? ==> OnWayOut(old(Snap()), Snap(), Remaining(old(blocks), k.value, isBreak), name, isBreak)
      ensures k.Some? ==> Now(Snap()) == (if isBreak then BreakShape(blocks, k.value) else conts[k.value])
    {
      hide OnWayOut, Undoes, GoesPast, ExitAt, Fills;
      hide Inv, Ext, BranchBlocks.Kept, Mid, LoopsOk, Frames, IsTarget, Undo, UndoFrom, Matches;
      k := FindBreakBlock(name, isBreak);
      if k.None? {
        return;
      }
      var contForLoop := !isBreak && blocks[k.value].typ.BlockLoop?;
      ghost var n := Remaining(blocks, k.value, isBreak);
      ghost var b0, v0, whole := blocks, Snap(), code + UndoFrom(blocks, n);
      WayOutBegins(v0, name, isBreak);
      var j := |blocks|;
      assert blocks[..j] == blocks;
      while j - 1 != k.value
        invariant k.value < j <= |blocks| && n <= j
        invariant SameKinds(b0, blocks) && LoopsOk(blocks, conts) && Mid(u, Snap(), {}) && |blocks| == |u.blocks|
        invariant Now(Snap()) == Frames(blocks[..j])
        invariant code + UndoFrom(b0[..j], n) == whole && OnWayOut(v0, Snap(), j, name, isBreak)
      {
        if contForLoop && j - 2 == k.value && blocks[j - 1].typ.BlockIterScope? {
          break;
        }
        UndoneOne(code, whole, b0, blocks, j, n);
        ghost var b1, v1 := blocks, Snap();
        PastTarget(b0, v1, k.value, j - 1, name, isBreak);
        UndoBlock(j - 1, u);
        WayOutGoesOn(v0, v1, Snap(), j - 1, name, isBreak);
        SameKindsTrans(b0, b1, blocks);
        j := j - 1;
      }
      assert j == n;
      AllUndone(b0, n);
      StillLandsRight(b0, blocks, conts, k.value, name, isBreak);
    }

    /** break and continue: the exit code, and a placeholder on the list of the block they are about. */
    method CompileBranch(name: Option<string>, isBreak: bool) returns (ok: bool, ghost k: nat)
      requires Ready(Snap())
      modifies this
      ensures ok == (exists j :: IsTarget(old(blocks), name, isBreak, j)) == LegalBranch(name, isBreak, EnvOf(old(blocks)))
      ensures ok ==> Ready(Snap()) && Grown(old(Snap()), Snap()) && IsTarget(old(blocks), name, isBreak, k)
      ensures ok ==> code == old(code) + UndoFrom(old(blocks), Remaining(old(blocks), k, isBreak)) + [Hole]
      ensures ok ==> Makes(old(Snap()), Snap(), Branch(isBreak, name))
      ensures ok ==> |code| - 1 in (if isBreak then blocks[k].breaks else blocks[k].conts)
    {
      hide Emits, EmitsOp, Opens, Writes, Keeps, Enters, EntersTwo, Leaves, LeavesScope, Fills, Undoes, OnWayOut, AddsJump, Makes, ExitAt;
      hide Inv, Ext, BranchBlocks.Kept, Frames, IsTarget, UndoFrom, LoopsOk;
      ghost var u := Snap();
      k := 0;
      MidStart(u);
      TargetIffLegalHere(blocks, conts, name, isBreak);
      var target := EmitBlockExitCode(name, isBreak, u);
      if target.None? {
        return false, k;
      }
      var t := target.value;
      k := t;
      ghost var next := Frames(blocks);
      TargetKinds(u.blocks, blocks, conts, name, isBreak, t);
      FramesByKind(u.blocks, blocks);
      ghost var v := Snap();
      if isBreak {
        BreakAdds(v, t, next);
        MidAddBreak(u, Snap(), {}, t, next);
        blocks := blocks[t := WithBreak(blocks[t], |code|)];
      } else {
        ContAdds(v, t, next);
        MidAddCont(u, Snap(), {}, t, next);
        blocks := blocks[t := WithCont(blocks[t], |code|)];
      }
      code, shapes, owner := code + [Hole], shapes + [next], owner[|code| := t];
      MidEnd(u, Snap());
      TargetMade(u, v, Snap(), conts, t, name, isBreak);
      return true, t;
    }

    /** Leaves the block of the statement that began at u, and with it the statement. */
    method FinishBlock(ghost u: View)
      requires Ready(u) && Mid(u, Snap(), {}) && |blocks| == |u.blocks| + 1 && |shapes| == |code| + 1 && |conts| == |blocks|
      requires !IsScope(blocks[|blocks| - 1].typ) && !blocks[|blocks| - 1].typ.BlockLoopEnum? && Now(Snap()) == Frames(u.blocks)
      requires var b := blocks[|blocks| - 1]; b.typ.BlockLoop? ==> HasShape(shapes, b.cont, conts[|blocks| - 1])
      modifies `code, `blocks, `conts
      ensures Ready(Snap()) && Grown(u, Snap()) && |blocks| == |u.blocks| && |code| == old(|code|)
      ensures var b := old(blocks)[|u.blocks|]; PatchedTo(code, b.breaks, |code|) && PatchedTo(code, b.conts, b.cont)
      ensures Leaves(old(Snap()), Snap(), LastTarget(old(Snap())))
    {
      hide Inv, Ext, BranchBlocks.Kept, Frames, LoopsOk, Mid, Grown, Left, PatchedTo;
      MidOuter(u, Snap(), {});
      LeaveBlock(u, {});
      MidEnd(u, Snap());
    }

    method CompileStatement(s: Stmt, ghost e: Env) returns (ok: bool)
      requires Ready(Snap()) && Plain(s)
      requires EnvOf(blocks) == e
      modifies this
      ensures ok ==> Ready(Snap()) && Grown(old(Snap()), Snap()) && Makes(old(Snap()), Snap(), s)
      ensures ok == Legal(s, e)
      decreases s, 6
    {
      hide Emits, EmitsOp, Opens, Writes, Keeps, Enters, EntersTwo, Leaves, LeavesScope, Fills, Makes, MakesBlock, MakesLoop;
      hide Inv, Ext, BranchBlocks.Kept, Frames, LoopsOk, Mid, EnvOf, LegalLoop;
      ghost var u := Snap();
      match s
      case Expression(id) =>
        MidStart(u);
        Emit(Op(id), Now(u), u, {});
        ExpressionMade(u, Snap(), id);
        MidEnd(u, Snap());
        ok := true;
      case Sequence(lexical, list) =>
        ok := CompileSequence(s, lexical, list, e);
        if ok {
          SequenceMade(u, Snap(), s);
        }
      case If(_, _, _) => ok := CompileIf(s, e);
      case With(_, _) => ok := CompileWith(s, e);
      case TryStmt(_, _, _) => ok := CompileTry(s, e);
      case Switch(_, _, _, _) => ok := CompileSwitch(s, e);
      case Labelled(name, t) => ok := CompileLabelled(name, t, e);
      case Branch(isBreak, name) =>
        ghost var k;
        ok, k := CompileBranch(name, isBreak);
      case _ =>
        ok := CompileLoop(s, None, e);
        if ok {
          LoopIsStatement(u, Snap(), s);
        }
    }

    /** A loop, with its label if it has one. */
    method CompileLoop(s: Stmt, name: Option<string>, ghost e: Env) returns (ok: bool)
      requires Ready(Snap()) && Plain(s) && Loop(s)
      requires EnvOf(blocks) == e
      modifies this
      ensures ok ==> Ready(Snap()) && Grown(old(Snap()), Snap()) && MakesLoop(old(Snap()), Snap(), s, name)
      ensures ok == LegalLoop(s, name, e)
      decreases s, 4
    {
      hide Inv, Ext, BranchBlocks.Kept, Frames, LoopsOk, Mid, EnvOf, Legal, LegalLoop, AllLegal;
      ghost var inside, cont;
      if s.While? {
        ok, inside := CompileWhile(s, name, e);
      } else if s.DoWhile? {
        ok, inside := CompileDoWhile(s, name, e);
      } else if s.ForInOf? {
        ok, inside, cont := CompileForInOf(s, name, e);
      } else if s.lexical {
        ok, inside, cont := CompileForLexical(s, name, e);
      } else {
        ok, inside, cont := CompileFor(s, name, e);
      }
    }

    /** A labelled statement; a label that is in use already is a syntax error. */
    method CompileLabelled(name: string, s: Stmt, ghost e: Env) returns (ok: bool)
      requires Ready(Snap()) && Plain(s)
      requires EnvOf(blocks) == e
      modifies this
      ensures ok ==> Ready(Snap()) && Grown(old(Snap()), Snap()) && Makes(old(Snap()), Snap(), Labelled(name, s))
      ensures ok ==> forall k :: 0 <= k < |old(blocks)| ==> old(blocks)[k].name != Some(name)
      ensures ok == (name !in e.labels && if Loop(s) then LegalLoop(s, Some(name), e) else Legal(s, Within(e, BlockLabel, Some(name))))
      decreases s, 9
    {
      hide Emits, EmitsOp, Opens, Writes, Keeps, Enters, EntersTwo, Leaves, LeavesScope, Fills, Makes, MakesLoop;
      hide Inv, Ext, BranchBlocks.Kept, Frames, LoopsOk, Mid, Grown, Plain, EnvOf, Legal, LegalLoop, AllLegal;
      LabelIffNamedHere(blocks, conts, name);
      for i := 0 to |blocks|
        invariant forall k :: 0 <= k < i ==> blocks[k].name != Some(name)
      {
        if blocks[i].name == Some(name) {
          return false;
        }
      }
      ghost var u := Snap();
      if s.While? || s.DoWhile? || s.For? || s.ForInOf? {
        ok := CompileLoop(s, Some(name), e);
        if ok {
          LabelledLoopMade(u, Snap(), name, s);
        }
        return;
      }
      MidStart(u);
      PushBlock(BlockLabel, Some(name), u, {});
      ghost var v := Snap();
      ok := CompileNested(s, u, {}, Within(e, BlockLabel, Some(name)));
      if ok {
        GrownBlock(v, Snap(), |u.blocks|);
        ghost var w := Snap();
        FinishBlock(u);
        LabelMade(u, v, w, Snap(), name, s);
      }
    }

    /** A statement inside of the one that compilation is at. */
    method CompileNested(s: Stmt, ghost u: View, ghost mine: set<nat>, ghost e: Env) returns (ok: bool)
      requires Mid(u, Snap(), mine) && LoopsOk(blocks, conts) && Now(Snap()) == Frames(blocks) && Plain(s)
      requires EnvOf(blocks) == e
      modifies this
      ensures ok ==> Mid(u, Snap(), mine) && LoopsOk(blocks, conts) && Now(Snap()) == Frames(blocks)
      ensures ok ==> Frames(blocks) == old(Frames(blocks)) && SameKinds(old(blocks), blocks) && Grown(old(Snap()), Snap())
      ensures ok ==> |shapes| == |code| + 1 && old(|code|) <= |code| && Makes(old(Snap()), Snap(), s)
      ensures ok == Legal(s, e)
      ensures ok ==> EnvOf(blocks) == e
      decreases s, 8
    {
      ghost var v := Snap();
      ok := CompileStatement(s, e);
      if ok {
        MidGrown(u, v, Snap(), mine);
        EnvByKind(v.blocks, blocks);
      }
    }

    method CompileStatements(list: seq<Stmt>, ghost parent: Stmt, ghost e: Env) returns (ok: bool)
      requires Ready(Snap()) && AllPlain(list, parent)
      requires EnvOf(blocks) == e
      modifies this
      ensures ok ==> Ready(Snap()) && Grown(old(Snap()), Snap()) && MakesList(old(Snap()), Snap(), list, parent)
      ensures ok == AllLegal(list, e)
      decreases parent, 0
    {
      hide Emits, EmitsOp, Opens, Writes, Keeps, Enters, EntersTwo, Leaves, LeavesScope, Fills, Makes, MakesMarked, MakesList;
      hide Inv, Ext, BranchBlocks.Kept, Frames, LoopsOk, EnvOf, Legal, LegalLoop;
      ghost var u := Snap();
      ghost var marks: seq<nat> := [|code|];
      ReadySelf(u);
      MarkedNone(u, list, parent);
      for i := 0 to |list|
        invariant Ready(Snap()) && Grown(u, Snap()) && forall k :: 0 <= k < i ==> Legal(list[k], e)
        invariant MakesMarked(u, Snap(), marks, list, i, parent)
      {
        ghost var v := Snap();
        GrownEnv(u, v);
        ok := CompileStatement(list[i], e);
        if !ok {
          return;
        }
        GrownTrans(u, v, Snap());
        MarkedOneMore(u, v, Snap(), marks, list, i, parent);
        marks := marks + [|code|];
      }
      MarkedAll(u, Snap(), marks, list, parent);
      return true;
    }

    /** A block of statements, in a scope of its own if it declares anything. */
    method CompileSequence(ghost parent: Stmt, lexical: bool, list: seq<Stmt>, ghost e: Env) returns (ok: bool)
      requires Ready(Snap()) && AllPlain(list, parent)
      requires EnvOf(blocks) == e
      modifies this
      ensures ok ==> Ready(Snap()) && Grown(old(Snap()), Snap()) && MakesBlock(old(Snap()), Snap(), lexical, list, parent)
      ensures ok == AllLegal(list, e)
      decreases parent, 1
    {
      hide Emits, EmitsOp, Opens, Writes, Keeps, Enters, EntersTwo, Leaves, LeavesScope, Fills, MakesBlock, MakesList;
      hide Inv, Ext, BranchBlocks.Kept, Frames, LoopsOk, AllPlain, EnvOf, Legal, LegalLoop, AllLegal;
      ghost var u := Snap();
      if !lexical {
        ok := CompileStatements(list, parent, e);
        if ok {
          ListIsBlock(u, Snap(), list, parent);
        }
        return;
      }
      MidStart(u);
      PushBlock(BlockScope, None, u, {});
      ghost var v0 := Snap();
      Emit(EnterBlock, Now(u) + [ScopeKind], u, {});
      ghost var v := Snap();
      ok := CompileStatements(list, parent, e);
      if !ok {
        return;
      }
      MidGrown(u, v, Snap(), {});
      ghost var w := Snap();
      LeaveScopeBlock(Now(u), u, {});
      ScopeMade(u, v0, v, w, Snap(), list, parent);
      MidEnd(u, Snap());
    }

    method CompileIf(s: Stmt, ghost e: Env) returns (ok: bool)
      requires Ready(Snap()) && s.If? && Plain(s.consequent) && (s.alternate.Some? ==> Plain(s.alternate.value))
      requires EnvOf(blocks) == e
      modifies this
      ensures ok ==> Ready(Snap()) && Grown(old(Snap()), Snap()) && Makes(old(Snap()), Snap(), s)
      ensures ok == (Legal(s.consequent, e) && (s.alternate.Some? ==> Legal(s.alternate.value, e)))
      decreases s, 2
    {
      hide Emits, EmitsOp, Opens, Writes, Keeps, Enters, EntersTwo, Leaves, LeavesScope, Fills, Makes, MakesElse;
      hide Inv, Ext, BranchBlocks.Kept, Frames, LoopsOk, Mid, Grown;
      hide PatchedTo, Plain, Ready, EnvOf, Legal, LegalLoop, AllLegal;
      ghost var u := Snap();
      ghost var here := Now(u);
      MidStart(u);
      Emit(Op(s.condition), here, u, {});
      ghost var v1 := Snap();
      var jmp := |code|;
      EmitOpen(Hole, here, u, {});
      assert {} + {jmp} == {jmp};
      ghost var v := Snap();
      ok := CompileNested(s.consequent, u, {jmp}, e);
      if !ok {
        return;
      }
      GrownAt(v, Snap(), jmp);
      GrownAt(v, Snap(), jmp + 1);
      ghost var w := Snap();
      if s.alternate.None? {
        Rewrite(jmp, JumpUnless(|code| - jmp), u, {jmp});
        assert {jmp} - {jmp} == {};
        IfMade(u, v1, v, w, Snap(), s);
      } else {
        ok := CompileElse(s.alternate.value, jmp, u, e);
        if !ok {
          return;
        }
        IfElseMade(u, v1, v, w, Snap(), s);
      }
      MidEnd(u, Snap());
    }

    /** The alternate of an if, whose test jumps from jmp. */
    method CompileElse(s: Stmt, jmp: nat, ghost u: View, ghost e: Env) returns (ok: bool)
      requires Mid(u, Snap(), {jmp}) && LoopsOk(blocks, conts) && Now(Snap()) == Frames(blocks) && Plain(s)
      requires |shapes| == |code| + 1 && jmp < |code| && shapes[jmp] == shapes[jmp + 1] == Frames(blocks)
      requires EnvOf(blocks) == e
      modifies this
      ensures ok ==> Mid(u, Snap(), {}) && LoopsOk(blocks, conts) && Now(Snap()) == Frames(blocks)
      ensures ok ==> Frames(blocks) == old(Frames(blocks)) && |blocks| == old(|blocks|) && MakesElse(old(Snap()), Snap(), jmp, s)
      ensures ok == Legal(s, e)
      decreases s, 9
    {
      hide Emits, EmitsOp, Opens, Writes, Keeps, Enters, EntersTwo, Leaves, LeavesScope, Fills, Makes, MakesElse;
      hide Inv, Ext, BranchBlocks.Kept, Frames, LoopsOk, Mid, Grown;
      hide PatchedTo, Plain, Ready, EnvOf, Legal, LegalLoop, AllLegal;
      ghost var here, v0 := Now(Snap()), Snap();
      var jmp1 := |code|;
      EmitOpen(Hole, here, u, {jmp});
      ghost var v1 := Snap();
      assert {jmp} + {jmp1} == {jmp, jmp1};
      Rewrite(jmp, JumpUnless(|code| - jmp), u, {jmp, jmp1});
      assert {jmp, jmp1} - {jmp} == {jmp1};
      ghost var v := Snap();
      ok := CompileNested(s, u, {jmp1}, e);
      if ok {
        GrownAt(v, Snap(), jmp1);
        ghost var w := Snap();
        Rewrite(jmp1, Jump(|code| - jmp1), u, {jmp1});
        ElseMade(v0, v1, v, w, Snap(), jmp, s);
        assert {jmp1} - {jmp1} == {};
      }
    }

    method CompileWith(s: Stmt, ghost e: Env) returns (ok: bool)
      requires Ready(Snap()) && s.With? && Plain(s.body)
      requires EnvOf(blocks) == e
      modifies this
      ensures ok ==> Ready(Snap()) && Grown(old(Snap()), Snap()) && Makes(old(Snap()), Snap(), s)
      ensures ok == Legal(s.body, e)
      decreases s, 2
    {
      hide Emits, EmitsOp, Opens, Writes, Keeps, Enters, EntersTwo, Leaves, LeavesScope, Fills, Makes;
      hide Inv, Ext, BranchBlocks.Kept, Frames, LoopsOk, Mid, Grown, InstrOk;
      hide PatchedTo, Plain, Ready, EnvOf, Legal, LegalLoop, AllLegal;
      ghost var u := Snap();
      ghost var here := Now(u);
      MidStart(u);
      Emit(Op(s.subject), here, u, {});
      ghost var v1 := Snap();
      Emit(EnterWith, here + [WithKind], u, {});
      ghost var v2 := Snap();
      PushBlock(BlockWith, None, u, {});
      ghost var v3 := Snap();
      ok := CompileNested(s.body, u, {}, e);
      if !ok {
        return;
      }
      ghost var v4 := Snap();
      ghost var v5 := CloseWith(u);
      WithMade(u, v1, v2, v3, v4, v5, Snap(), s);
    }

    method CloseWith(ghost u: View) returns (ghost v: View)
      requires Ready(u) && Mid(u, Snap(), {}) && |blocks| == |u.blocks| + 1 && |shapes| == |code| + 1 && |conts| == |blocks|
      requires Now(Snap()) == Frames(blocks) == Frames(u.blocks) + [WithKind] && blocks[|u.blocks|].typ.BlockWith? && blocks[|u.blocks|].name.None?
      modifies `code, `shapes, `blocks, `conts
      ensures Ready(Snap()) && Grown(u, Snap()) && |blocks| == |u.blocks|
      ensures Emits(old(Snap()), v, LeaveWith) && Leaves(v, Snap(), Target(BlockWith, None, |code|, 0))
    {
      hide Inv, Ext, BranchBlocks.Kept, Frames, LoopsOk, Mid, Grown, PatchedTo, SameKinds, EnvOf;
      Emit(LeaveWith, Frames(u.blocks), u, {});
      v := Snap();
      FinishBlock(u);
    }

    method SetCont(k: nat, pos: nat, ghost u: View, ghost mine: set<nat>)
      requires Mid(u, Snap(), mine) && |u.blocks| <= k < |blocks|
      modifies `blocks
      ensures Snap() == WithContAt(old(Snap()), k, pos) && Mid(u, Snap(), mine) && Frames(blocks) == Frames(old(blocks))
      ensures old(LoopsOk(blocks, conts)) ==> LoopsOk(blocks, conts)
      ensures EnvOf(blocks) == EnvOf(old(blocks)) && Keeps(old(Snap()), Snap())
    {
      hide Inv, Mid, LoopsOk, Frames;
      MidSetCont(u, Snap(), mine, k, pos);
      SetContKeeps(Snap(), k, pos);
      EnvByKind(blocks, blocks[k := blocks[k].(cont := pos)]);
      blocks := blocks[k := blocks[k].(cont := pos)];
    }

    /** The test of a loop, unless it is constantly true, with a placeholder for the jump out. */
    method EmitTest(test: Option<nat>, ghost u: View, ghost mine: set<nat>) returns (j: nat)
      requires Mid(u, Snap(), mine) && |shapes| == |code| + 1
      modifies `code, `shapes, `open
      ensures Mid(u, Snap(), if test.None? then mine else mine + {j}) && |shapes| == |code| + 1 && |u.code| <= |code|
      ensures old(shapes) <= shapes && old(|code|) <= |code| && Now(Snap()) == old(Now(Snap()))
      ensures OpensTest(old(Snap()), Snap(), test, j)
      ensures test.Some? ==> old(|code|) < j && j + 1 == |code| && shapes[j] == shapes[j + 1] == Now(Snap()) && j !in mine
    {
      hide Inv, BranchBlocks.Kept, Mid;
      ghost var here, v0 := Now(Snap()), Snap();
      ghost var v1 := v0;
      j := 0;
      if test.Some? {
        Emit(Op(test.value), here, u, mine);
        v1 := Snap();
        j := |code|;
        EmitOpen(Hole, here, u, mine);
      } else {
        ExtAtMid(u, Snap(), mine);
      }
      TestOpened(v0, v1, Snap(), test, j);
    }

    /** The jump out of a loop, to the position to come. */
    method CloseTest(test: Option<nat>, j: nat, ghost u: View, ghost mine: set<nat>)
      requires Mid(u, Snap(), if test.None? then mine else mine + {j}) && |shapes| == |code| + 1
      requires test.Some? ==> j < |code| && shapes[j] == shapes[j + 1] == Now(Snap()) && j !in mine
      modifies `code, `open
      ensures Mid(u, Snap(), mine) && |code| == old(|code|) && |u.code| <= |code|
      ensures ClosesTest(old(Snap()), Snap(), test, j)
      ensures forall pc :: 0 <= pc < |code| && pc != j ==> code[pc] == old(code)[pc]
    {
      hide Inv, BranchBlocks.Kept, Mid;
      ghost var v0 := Snap();
      ExtAtMid(u, Snap(), if test.None? then mine else mine + {j});
      if test.Some? {
        Rewrite(j, JumpUnless(|code| - j), u, mine + {j});
        assert mine + {j} - {j} == mine;
      }
      TestClosed(v0, Snap(), test, j);
    }

    /** The test of a loop and its body. */
    method CompileTestAndBody(test: Option<nat>, s: Stmt, ghost u: View, ghost mine: set<nat>, ghost e: Env) returns (ok: bool, j: nat)
      requires Mid(u, Snap(), mine) && LoopsOk(blocks, conts) && Now(Snap()) == Frames(blocks) && Plain(s)
      requires |shapes| == |code| + 1
      requires EnvOf(blocks) == e
      modifies this
      ensures ok ==> MakesTested(old(Snap()), Snap(), test, j, s)
      ensures ok ==> Mid(u, Snap(), if test.None? then mine else mine + {j}) && |shapes| == |code| + 1 && old(shapes) <= shapes
      ensures ok ==> Now(Snap()) == Frames(blocks) == old(Frames(blocks)) && |blocks| == |conts| == old(|blocks|)
      ensures ok && test.Some? ==> old(|code|) < j < |code| && shapes[j] == shapes[j + 1] == Now(Snap()) && j !in mine
      ensures ok ==> forall k :: 0 <= k < |blocks| ==> SameBlock(old(blocks)[k], blocks[k]) && conts[k] == old(conts)[k]
      ensures ok == Legal(s, e)
      decreases s, 9
    {
      hide Emits, EmitsOp, Opens, Writes, Keeps, Enters, EntersTwo, Leaves, LeavesScope, Fills, OpensTest, MakesTested, Makes;
      hide Inv, Ext, BranchBlocks.Kept, Frames, LoopsOk, Mid, Grown;
      hide SameBlock, Plain, InstrOk, EnvOf, Legal, LegalLoop, AllLegal;
      ghost var v0 := Snap();
      j := EmitTest(test, u, mine);
      ghost var v := Snap();
      ok := CompileNested(s, u, if test.None? then mine else mine + {j}, e);
      if !ok {
        return;
      }
      GrownShapes(v, Snap());
      TestedMade(v0, v, Snap(), test, j, s);
      ExtAtMid(u, v, if test.None? then mine else mine + {j});
      forall k | 0 <= k < |blocks| ensures SameBlock(v.blocks[k], blocks[k]) && conts[k] == v.conts[k] {
        GrownBlock(v, Snap(), k);
      }
    }

    /** The test of a while loop, its body, and the jump back. */
    method CompileRound(test: Option<nat>, s: Stmt, ghost u: View, ghost e: Env) returns (ok: bool)
      requires Mid(u, Snap(), {}) && LoopsOk(blocks, conts) && Now(Snap()) == Frames(blocks) && Plain(s)
      requires |shapes| == |code| + 1 && blocks != []
      requires EnvOf(blocks) == e
      modifies this
      ensures ok ==> Mid(u, Snap(), {}) && |shapes| == |code| + 1 && old(|code|) <= |code|
      ensures ok ==> Now(Snap()) == old(Frames(blocks)) && shapes[old(|code|)] == old(Frames(blocks))
      ensures ok ==> |blocks| == |conts| == old(|blocks|) && SameBlock(old(blocks[|blocks| - 1]), blocks[|blocks| - 1])
      ensures ok ==> conts[|blocks| - 1] == old(conts[|blocks| - 1]) && MakesRound(old(Snap()), Snap(), test, None, s)
      ensures ok == Legal(s, e)
      decreases s, 10
    {
      hide Inv, Ext, BranchBlocks.Kept, Frames, LoopsOk, Mid, Grown;
      hide SameBlock, Plain, InstrOk, EnvOf, Legal, LegalLoop, AllLegal;
      ghost var v0 := Snap();
      var start := |code|;
      var j;
      ok, j := CompileTestAndBody(test, s, u, {}, e);
      if !ok {
        return;
      }
      assert {} + {j} == {j};
      ghost var v1 := Snap();
      CompileBack(start, test, j, u, if test.None? then {} else {j});
      RoundMade(v0, v1, v1, Snap(), Snap(), test, None, j, s);
    }

    /** while. The ghost result is the state before the loop is left. */
    method CompileWhile(s: Stmt, name: Option<string>, ghost e: Env) returns (ok: bool, ghost inside: View)
      requires Ready(Snap()) && s.While? && Plain(s.body)
      requires EnvOf(blocks) == e
      modifies this
      ensures ok ==> Ready(Snap()) && Grown(old(Snap()), Snap()) && MakesLoop(old(Snap()), Snap(), s, name)
      ensures ok ==> LoopExits(inside, code, |blocks|, name, |code|, old(|code|))
      ensures ok == LegalLoop(s, name, e)
      decreases s, 2
    {
      hide Emits, EmitsOp, Opens, Writes, Keeps, Enters, EntersTwo, Leaves, LeavesScope, Fills, MakesRound, MakesLoop;
      hide Inv, Ext, BranchBlocks.Kept, Frames, LoopsOk, Mid, Grown, PatchedTo, Plain, Ready, EnvOf, Legal, AllLegal;
      ghost var u := Snap();
      inside := u;
      MidStart(u);
      PushBlock(BlockLoop, name, u, {});
      ghost var v1 := Snap();
      var start := |code|;
      SetCont(|blocks| - 1, start, u, {});
      ghost var v2 := Snap();
      ok := CompileRound(s.test, s.body, u, Within(e, BlockLoop, name));
      if !ok {
        return;
      }
      inside := Snap();
      FinishBlock(u);
      WhileMade(u, v1, v2, inside, Snap(), s, name);
    }

    /** do-while. */
    method CompileDoWhile(s: Stmt, name: Option<string>, ghost e: Env) returns (ok: bool, ghost inside: View)
      requires Ready(Snap()) && s.DoWhile? && Plain(s.body)
      requires EnvOf(blocks) == e
      modifies this
      ensures ok ==> Ready(Snap()) && Grown(old(Snap()), Snap()) && MakesLoop(old(Snap()), Snap(), s, name)
      ensures ok ==> |code| >= 2 && LoopExits(inside, code, |blocks|, name, |code|, |code| - 2)
      ensures ok == LegalLoop(s, name, e)
      decreases s, 2
    {
      hide Emits, EmitsOp, Opens, Writes, Keeps, Enters, EntersTwo, Leaves, LeavesScope, Fills, Makes, MakesLoop;
      hide Inv, Ext, BranchBlocks.Kept, Frames, LoopsOk, Mid, Grown, PatchedTo;
      hide Plain, Ready, SameBlock, InstrOk, EnvOf, Legal, AllLegal, SameKinds;
      ghost var u := Snap();
      inside := u;
      ghost var here := Now(u);
      MidStart(u);
      PushBlock(BlockLoop, name, u, {});
      var start := |code|;
      ghost var v := Snap();
      ok := CompileNested(s.body, u, {}, Within(e, BlockLoop, name));
      if !ok {
        return;
      }
      GrownAt(v, Snap(), start);
      GrownBlock(v, Snap(), |blocks| - 1);
      ghost var w := Snap();
      ghost var v3, v4;
      inside, v3, v4 := CloseDoWhile(s.until, start, u);
      DoWhileMade(u, v, w, v3, v4, inside, Snap(), s, name);
    }

    /** The test of a do-while loop. */
    method CloseDoWhile(until: nat, start: nat, ghost u: View) returns (ghost inside: View, ghost v3: View, ghost v4: View)
      requires Ready(u) && Mid(u, Snap(), {}) && |blocks| == |u.blocks| + 1 && |shapes| == |code| + 1 && |conts| == |blocks|
      requires Now(Snap()) == Frames(u.blocks) == conts[|u.blocks|] && HasShape(shapes, start, Now(Snap()))
      requires blocks[|u.blocks|].typ.BlockLoop?
      modifies this
      ensures Ready(Snap()) && Grown(u, Snap()) && |blocks| == |u.blocks| && |code| == old(|code|) + 2
      ensures Keeps(old(Snap()), v3) && |v3.code| == old(|code|) && Emits(v3, v4, Op(until)) && Emits(v4, inside, JumpIf(start - |v4.code|))
      ensures Leaves(inside, Snap(), Target(BlockLoop, old(blocks[|u.blocks|].name), |code|, old(|code|)))
      ensures |inside.blocks| == |blocks| + 1 && inside.blocks[|blocks|].typ.BlockLoop?
      ensures var b := inside.blocks[|blocks|];
        b.name == old(blocks[|u.blocks|].name) && PatchedTo(code, b.breaks, |code|) && PatchedTo(code, b.conts, |code| - 2)
    {
      hide Inv, Ext, BranchBlocks.Kept, Frames, LoopsOk, Mid, Grown, PatchedTo, SameKinds, Within, EnvOf;
      ghost var here := Now(Snap());
      SetCont(|blocks| - 1, |code|, u, {});
      ExtAtMid(u, Snap(), {});
      v3 := Snap();
      Emit(Op(until), here, u, {});
      v4 := Snap();
      Emit(JumpIf(start - |code|), here, u, {});
      inside := Snap();
      FinishBlock(u);
    }

    /** An expression that may be missing. */
    method EmitOptional(op: Option<nat>, ghost u: View, ghost mine: set<nat>)
      requires Mid(u, Snap(), mine) && |shapes| == |code| + 1
      modifies `code, `shapes
      ensures Mid(u, Snap(), mine) && Ext(old(Snap()), Snap()) && EmitsOp(old(Snap()), Snap(), op) && Now(Snap()) == old(Now(Snap()))
      ensures |shapes| == |code| + 1 && |u.code| <= |code| == old(|code|) + OpSize(op) && old(shapes) <= shapes
    {
      hide Inv, BranchBlocks.Kept, Mid;
      if op.Some? {
        Emit(Op(op.value), Now(Snap()), u, mine);
      } else {
        ExtAtMid(u, Snap(), mine);
      }
    }

    /** A for loop without declarations of its own. */
    method CompileFor(s: Stmt, name: Option<string>, ghost e: Env) returns (ok: bool, ghost inside: View, ghost cont: nat)
      requires Ready(Snap()) && s.For? && !s.lexical && Plain(s.body)
      requires EnvOf(blocks) == e
      modifies this
      ensures ok ==> Ready(Snap()) && Grown(old(Snap()), Snap()) && MakesLoop(old(Snap()), Snap(), s, name)
      ensures ok ==> LoopExits(inside, code, |blocks|, name, |code|, cont)
      ensures ok == LegalLoop(s, name, e)
      decreases s, 2
    {
      hide Emits, EmitsOp, Opens, Writes, Keeps, Enters, EntersTwo, Leaves, LeavesScope, Fills, MakesRound, MakesLoop;
      hide Inv, Ext, BranchBlocks.Kept, Frames, LoopsOk, Mid, Grown, PatchedTo, Plain, Ready, EnvOf, Legal, AllLegal;
      ghost var u := Snap();
      inside, cont := u, 0;
      MidStart(u);
      PushBlock(BlockLoop, name, u, {});
      ghost var v1 := Snap();
      EmitOptional(s.init, u, {});
      ghost var v2 := Snap();
      ok := CompileForRound(s, u, Within(e, BlockLoop, name));
      if !ok {
        return;
      }
      inside, cont := Snap(), blocks[|blocks| - 1].cont;
      FinishBlock(u);
      ForMade(u, v1, v2, inside, Snap(), s, name);
    }

    /** The test, body and update of such a loop, and the jump back. */
    method CompileForRound(s: Stmt, ghost u: View, ghost e: Env) returns (ok: bool)
      requires Mid(u, Snap(), {}) && LoopsOk(blocks, conts) && Now(Snap()) == Frames(blocks)
      requires s.For? && Plain(s.body) && |shapes| == |code| + 1 && |blocks| == |u.blocks| + 1
      requires EnvOf(blocks) == e
      modifies this
      ensures ok ==> Mid(u, Snap(), {}) && |shapes| == |code| + 1
      ensures ok ==> Now(Snap()) == old(Frames(blocks)) && |blocks| == |conts| == old(|blocks|)
      ensures ok ==> var b := blocks[|blocks| - 1];
        b.typ == old(blocks[|blocks| - 1].typ) && b.name == old(blocks[|blocks| - 1].name) && HasShape(shapes, b.cont, old(Frames(blocks)))
      ensures ok ==> conts[|blocks| - 1] == old(conts[|blocks| - 1]) && MakesRound(old(Snap()), Snap(), s.test, s.update, s.body)
      ensures ok ==> blocks[|blocks| - 1].cont + OpSize(s.update) + 1 == |code|
      ensures ok == Legal(s.body, e)
      decreases s, 1
    {
      hide Emits, EmitsOp, Opens, Writes, Keeps, Enters, EntersTwo, Leaves, LeavesScope, Fills, MakesRound, MakesTested, GoesBack;
      hide Inv, Ext, BranchBlocks.Kept, Frames, LoopsOk, Mid, Grown;
      hide Plain, Ready, InstrOk, EnvOf, Legal, LegalLoop, AllLegal;
      ghost var v0 := Snap();
      var start := |code|;
      var j;
      ok, j := CompileTestAndBody(s.test, s.body, u, {}, e);
      if !ok {
        return;
      }
      ghost var mine := if s.test.None? then {} else {j};
      assert {} + {j} == {j};
      ghost var v1 := Snap();
      var cont := |code|;
      EmitOptional(s.update, u, mine);
      ghost var v2 := Snap();
      CompileBack(start, s.test, j, u, mine);
      ghost var v3 := Snap();
      SetCont(|blocks| - 1, cont, u, {});
      RoundMade(v0, v1, v2, v3, Snap(), s.test, s.update, j, s.body);
    }

    /** The blocks of a for loop with declarations of its own: the loop's, and in it that of its variables. */
    method PushForBlocks(name: Option<string>, ghost u: View)
      requires Mid(u, Snap(), {}) && LoopsOk(blocks, conts)
      modifies `blocks, `conts
      ensures Mid(u, Snap(), {}) && LoopsOk(blocks, conts) && Frames(blocks) == Frames(old(blocks)) + [ScopeKind]
      ensures blocks == old(blocks) + [Block(BlockLoop, name, 0, [], []), Block(BlockIterScope, None, 0, [], [])]
      ensures |conts| == |blocks| && conts[|blocks| - 2] == Frames(blocks)
      ensures EnvOf(blocks) == Within(EnvOf(old(blocks)), BlockLoop, name) && EntersTwo(old(Snap()), Snap())
    {
      hide Inv, Mid, LoopsOk, Frames;
      var b, c := Block(BlockLoop, name, 0, [], []), Block(BlockIterScope, None, 0, [], []);
      MidPushFor(u, Snap(), {}, b, c);
      EnvPushed(blocks, b);
      EnvPushed(blocks + [b], c);
      PushForLoopsOk(Snap(), b, c);
      ExtAtMid(u, Snap(), {});
      ghost var v0, v1 := Snap(), Pushed(Snap(), b, Frames(blocks) + [ScopeKind]);
      PushEnters(v0, b, Frames(blocks) + [ScopeKind]);
      PushEnters(v1, c, []);
      TwoEntered(v0, v1, Pushed(v1, c, []));
      ghost var cs := conts + [Frames(blocks) + [ScopeKind]] + [[]];
      blocks, conts := blocks + [b] + [c], cs;
      assert blocks == old(blocks) + [b, c];
    }

    /** The update of such a loop, and the instructions before the first test and before the update that copy
        the loop's scope if need be. */
    method CompileUpdate(update: Option<nat>, needStash: bool, c0: nat, ghost u: View, ghost mine: set<nat>) returns (cont: nat)
      requires Mid(u, Snap(), mine + {c0}) && c0 !in mine
      requires |shapes| == |code| + 1 && c0 < |code| && shapes[c0] == shapes[c0 + 1] == Now(Snap())
      requires Now(Snap()) != [] && Now(Snap())[|Now(Snap())| - 1] == ScopeKind
      modifies `code, `shapes, `open
      ensures Mid(u, Snap(), mine) && |shapes| == |code| + 1 && old(|code|) < |code| && HasShape(shapes, cont, old(Now(Snap())))
      ensures old(shapes) <= shapes && Now(Snap()) == old(Now(Snap())) && Updates(old(Snap()), Snap(), update, needStash, c0)
      ensures cont == (if needStash then old(|code|) else old(|code|) + 1) && |code| == old(|code|) + 1 + OpSize(update)
    {
      hide Emits, EmitsOp, Opens, Writes, Keeps, Enters, EntersTwo, Leaves, LeavesScope, Fills, Updates;
      hide Inv, Ext, BranchBlocks.Kept, Mid, InstrOk;
      ghost var here := Now(Snap());
      ghost var was, v0 := shapes, Snap();
      cont := |code|;
      EmitOpen(Jump(1), here, u, mine + {c0});
      ghost var v1 := Snap();
      EmitOptional(update, u, mine + {c0} + {cont});
      ghost var v2 := Snap();
      WaitingMore(was, shapes, {c0}, cont, here);
      RewriteCopy(c0, needStash, here, u, mine + {c0} + {cont});
      assert mine + {c0} + {cont} - {c0} == mine + {cont};
      ghost var v3 := Snap();
      RewriteCopy(cont, needStash, here, u, mine + {cont});
      assert mine + {cont} - {cont} == mine;
      UpdateMade(v0, v1, v2, v3, Snap(), update, needStash, c0);
      if !needStash {
        cont := cont + 1;
      }
    }

    /** Where a round begins, the variables are copied if a stash holds them. */
    method RewriteCopy(pc: nat, needStash: bool, ghost here: Shape, ghost u: View, ghost mine: set<nat>)
      requires Mid(u, Snap(), mine) && |shapes| == |code| + 1 && pc in mine && pc < |code|
      requires shapes[pc] == shapes[pc + 1] == here && here != [] && here[|here| - 1] == ScopeKind
      modifies `code, `open
      ensures Mid(u, Snap(), mine - {pc}) && |code| == old(|code|) && Writes(old(Snap()), Snap(), pc, Copy(needStash))
    {
      hide Inv, Ext, BranchBlocks.Kept, Mid;
      Rewrite(pc, if needStash then CopyStash else Jump(1), u, mine);
    }

    /** The jump back to the head of a loop, and the jump out. */
    method CompileBack(start: nat, test: Option<nat>, j: nat, ghost u: View, ghost mine: set<nat>)
      requires mine == if test.None? then {} else {j}
      requires Mid(u, Snap(), mine) && |shapes| == |code| + 1 && HasShape(shapes, start, Now(Snap()))
      requires test.Some? ==> j < |code| && shapes[j] == shapes[j + 1] == Now(Snap())
      modifies `code, `shapes, `open
      ensures Mid(u, Snap(), {}) && |shapes| == |code| + 1 && Now(Snap()) == old(Now(Snap()))
      ensures shapes == old(shapes) + [Now(Snap())] && GoesBack(old(Snap()), Snap(), start, test, j) && blocks == old(blocks)
      ensures |code| == old(|code|) + 1
    {
      hide Inv, Ext, BranchBlocks.Kept, Mid;
      ghost var v0 := Snap();
      Emit(Jump(start - |code|), Now(Snap()), u, mine);
      ghost var v1 := Snap();
      assert mine == if test.None? then {} else {} + {j};
      CloseTest(test, j, u, {});
      WentBack(v0, v1, Snap(), start, test, j);
    }

    /** A for loop with declarations of its own, whose scope is shared by the iterations and copied between them. */
    method CompileForLexical(s: Stmt, name: Option<string>, ghost e: Env) returns (ok: bool, ghost inside: View, ghost cont: nat)
      requires Ready(Snap()) && s.For? && s.lexical && Plain(s.body)
      requires EnvOf(blocks) == e
      modifies this
      ensures ok ==> Ready(Snap()) && Grown(old(Snap()), Snap()) && MakesLoop(old(Snap()), Snap(), s, name)
      ensures ok ==> LoopExits(inside, code, |blocks|, name, |code|, cont)
      ensures ok == LegalLoop(s, name, e)
      decreases s, 2
    {
      hide Emits, EmitsOp, Opens, Writes, Keeps, Enters, EntersTwo, Leaves, LeavesScope, Fills, MakesLexicalRound, MakesLoop;
      hide Inv, Ext, BranchBlocks.Kept, Frames, LoopsOk, Mid, Grown, PatchedTo;
      hide Plain, Ready, InstrOk, EnvOf, Legal, AllLegal, Left;
      ghost var u := Snap();
      inside, cont := u, 0;
      ghost var v1, v2 := OpenForLexical(s.init, name, u);
      ghost var v3 := Snap();
      var at;
      ok, at := CompileForLexicalRound(s, u, Within(e, BlockLoop, name));
      if !ok {
        return;
      }
      cont := at;
      ghost var v4 := Snap();
      ghost var v5;
      inside, v5 := CloseForLexical(at, u);
      ForLexicalMade(u, v1, v2, v3, v4, v5, inside, Snap(), s, name);
    }

    /** Enters the loop and the scope of its variables, and initialises them. */
    method OpenForLexical(init: Option<nat>, name: Option<string>, ghost u: View) returns (ghost v1: View, ghost v2: View)
      requires u == Snap() && Ready(u)
      modifies this
      ensures Mid(u, Snap(), {}) && LoopsOk(blocks, conts) && Now(Snap()) == Frames(blocks) == Frames(u.blocks) + [ScopeKind]
      ensures blocks == u.blocks + [Block(BlockLoop, name, 0, [], []), Block(BlockIterScope, None, 0, [], [])]
      ensures |shapes| == |code| + 1 && |conts| == |blocks| && conts[|blocks| - 2] == Frames(blocks)
      ensures EnvOf(blocks) == Within(EnvOf(u.blocks), BlockLoop, name)
      ensures EntersTwo(u, v1) && Emits(v1, v2, EnterBlock) && EmitsOp(v2, Snap(), init)
    {
      hide Emits, EmitsOp, EntersTwo, Fills, Within;
      hide Inv, Ext, BranchBlocks.Kept, Frames, LoopsOk, Mid, InstrOk, EnvOf;
      MidStart(u);
      PushForBlocks(name, u);
      v1 := Snap();
      Emit(EnterBlock, Frames(blocks), u, {});
      v2 := Snap();
      EmitOptional(init, u, {});
    }

    method CloseForLexical(at: nat, ghost u: View) returns (ghost inside: View, ghost v5: View)
      requires Ready(u) && Mid(u, Snap(), {}) && |blocks| == |u.blocks| + 2 && |shapes| == |code| + 1 && |conts| == |blocks|
      requires Now(Snap()) == Frames(blocks) == Frames(u.blocks) + [ScopeKind] == conts[|u.blocks|] && HasShape(shapes, at, Now(Snap()))
      requires blocks[|u.blocks|].typ.BlockLoop? && blocks[|u.blocks| + 1].typ.BlockIterScope? && blocks[|u.blocks| + 1].name.None?
      modifies this
      ensures Ready(Snap()) && Grown(u, Snap()) && |blocks| == |u.blocks|
      ensures Keeps(old(Snap()), v5) && |v5.code| == old(|code|) && LeavesScope(v5, inside, IterScopeTarget)
      ensures Leaves(inside, Snap(), Target(BlockLoop, old(blocks[|u.blocks|].name), |code|, at))
      ensures |inside.blocks| == |blocks| + 1 && inside.blocks[|blocks|].typ.BlockLoop?
      ensures var b := inside.blocks[|blocks|];
        b.name == old(blocks[|u.blocks|].name) && PatchedTo(code, b.breaks, |code|) && PatchedTo(code, b.conts, at)
    {
      hide Inv, Ext, BranchBlocks.Kept, Frames, LoopsOk, Mid, Grown, PatchedTo, InstrOk, Left, EnvOf, Within, SameKinds;
      SetCont(|blocks| - 2, at, u, {});
      v5 := Snap();
      LeaveScopeBlock(Now(u), u, {});
      MidOuter(u, Snap(), {});
      inside := Snap();
      FinishBlock(u);
    }

    /** From the head of such a loop to the jump back. */
    method CompileForLexicalRound(s: Stmt, ghost u: View, ghost e: Env) returns (ok: bool, cont: nat)
      requires Mid(u, Snap(), {}) && LoopsOk(blocks, conts) && Now(Snap()) == Frames(blocks)
      requires s.For? && Plain(s.body) && |shapes| == |code| + 1 && |blocks| >= 2
      requires Now(Snap()) != [] && Now(Snap())[|Now(Snap())| - 1] == ScopeKind
      requires EnvOf(blocks) == e
      modifies this
      ensures ok ==> Mid(u, Snap(), {}) && |shapes| == |code| + 1 && |blocks| == |conts| == old(|blocks|)
      ensures ok ==> Now(Snap()) == old(Frames(blocks)) == Frames(blocks) && HasShape(shapes, cont, old(Frames(blocks)))
      ensures ok ==> MakesLexicalRound(old(Snap()), Snap(), s)
      ensures ok ==> var q := |code| - 1 - OpSize(s.update); q >= 1 && cont == if s.needStash then q - 1 else q
      ensures ok ==> SameKinds(old(blocks), blocks) && conts[|blocks| - 2] == old(conts[|blocks| - 2])
      ensures ok == Legal(s.body, e)
      decreases s, 1
    {
      hide Emits, EmitsOp, Opens, Writes, Keeps, Enters, EntersTwo, Leaves, LeavesScope, Fills, MakesLexicalRound, MakesTested, Updates, GoesBack;
      hide Inv, Ext, BranchBlocks.Kept, Frames, LoopsOk, Mid, Grown;
      hide Plain, Ready, InstrOk, EnvOf, Legal, LegalLoop, AllLegal;
      cont := 0;
      ghost var v0 := Snap();
      var c0 := |code|;
      EmitOpen(Jump(1), Now(Snap()), u, {});
      assert {} + {c0} == {c0};
      ghost var v1 := Snap();
      var j;
      ok, j := CompileTestAndBody(s.test, s.body, u, {c0}, e);
      if !ok {
        return;
      }
      ghost var v2 := Snap();
      ghost var mine := if s.test.None? then {} else {j};
      assert (if s.test.None? then {c0} else {c0} + {j}) == mine + {c0};
      cont := CompileUpdate(s.update, s.needStash, c0, u, mine);
      ghost var v3 := Snap();
      CompileBack(c0 + 1, s.test, j, u, mine);
      LexicalRoundMade(v0, v1, v2, v3, Snap(), s, j);
    }

    /** Leaves a scope that turned out to be unnecessary, and out of which nothing branches. */
    method DropBlock(ghost u: View, ghost mine: set<nat>)
      requires Inv(u) && Mid(u, Snap(), mine) && |blocks| > |u.blocks| && IsScope(blocks[|blocks| - 1].typ)
      requires blocks[|blocks| - 1].breaks == [] && blocks[|blocks| - 1].conts == []
      modifies `blocks, `conts
      ensures Mid(u, Snap(), mine) && blocks == old(blocks)[..old(|blocks|) - 1] && conts == old(conts)[..|blocks|]
      ensures code == old(code) && Leaves(old(Snap()), Snap(), LastTarget(old(Snap())))
    {
      hide Inv, Ext, BranchBlocks.Kept;
      MidLeave(u, Snap(), mine, code);
      PopLeaves(Snap(), code);
      blocks, conts := blocks[..|blocks| - 1], conts[..|conts| - 1];
    }

    /** The source of a for-in or for-of loop; names the loop declares are in scope, though not initialised. */
    method CompileSource(s: Stmt, ghost u: View)
      requires s.ForInOf? && Ready(u) && Mid(u, Snap(), {}) && |blocks| > |u.blocks| && |shapes| == |code| + 1
      modifies this
      ensures Mid(u, Snap(), {}) && blocks == old(blocks) && conts == old(conts) && |shapes| == |code| + 1
      ensures Now(Snap()) == old(Now(Snap())) && MakesSource(old(Snap()), Snap(), s)
    {
      hide Inv, Ext, BranchBlocks.Kept, Frames, LoopsOk, Mid, Left, InstrOk, Within;
      ghost var here, v0 := Now(Snap()), Snap();
      if !s.declares {
        Emit(Op(s.source), here, u, {});
        PlainSourceMade(v0, Snap(), s);
        return;
      }
      CompileSourceInScope(s, u);
    }

    method CompileSourceInScope(s: Stmt, ghost u: View)
      requires s.ForInOf? && s.declares && Ready(u) && Mid(u, Snap(), {}) && |blocks| > |u.blocks| && |shapes| == |code| + 1
      modifies this
      ensures Mid(u, Snap(), {}) && blocks == old(blocks) && conts == old(conts) && |shapes| == |code| + 1
      ensures Now(Snap()) == old(Now(Snap())) && MakesSource(old(Snap()), Snap(), s)
    {
      hide Emits, EmitsOp, Opens, Writes, Keeps, Enters, EntersTwo, Leaves, LeavesScope, Fills, MakesSource;
      hide Inv, Ext, BranchBlocks.Kept, Frames, LoopsOk, Mid, Left, InstrOk, Within, SameKinds, EnvOf;
      ghost var here, v0 := Now(Snap()), Snap();
      ExtAtMid(u, Snap(), {});
      PushBlock(BlockScope, None, u, {});
      ghost var v1 := Snap();
      ghost var inside := if s.headUsed then here + [ScopeKind] else here;
      var enterPos := |code|;
      EmitOpen(Jump(1), inside, u, {});
      ghost var v2 := Snap();
      assert {} + {enterPos} == {enterPos} && {enterPos} - {enterPos} == {};
      Emit(Op(s.source), inside, u, {enterPos});
      ghost var v3, v4 := Snap(), Snap();
      if s.headUsed {
        Rewrite(enterPos, EnterBlock, u, {enterPos});
        v4 := Snap();
        LeaveScopeBlock(here, u, {});
      } else {
        Rewrite(enterPos, Jump(1), u, {enterPos});
        v4 := Snap();
        DropBlock(u, {});
      }
      ScopedSourceMade(v0, v1, v2, v3, v4, Snap(), s);
    }

    /** The way out of a for-in or for-of loop at its end, and that of its breaks, which close the iteration. */
    method FinishIteration(ghost u: View) returns (ghost inside: View)
      requires Ready(u) && Mid(u, Snap(), {}) && |blocks| == |u.blocks| + 1 && |shapes| == |code| + 1 && |conts| == |blocks|
      requires Now(Snap()) == Frames(u.blocks) + [IterKind] == conts[|u.blocks|]
      requires var b := blocks[|u.blocks|]; b.typ.BlockLoopEnum? && HasShape(shapes, b.cont, Now(Snap()))
      modifies this
      ensures Ready(Snap()) && Grown(u, Snap()) && |blocks| == |u.blocks|
      ensures EndsIteration(old(Snap()), Snap(), Target(BlockLoopEnum, old(blocks[|u.blocks|].name), old(|code|) + 2, old(blocks[|u.blocks|].cont)))
      ensures |code| == old(|code|) + 3 && code[|code| - 1] == EnumPopClose
      ensures |inside.blocks| == |blocks| + 1 && inside.blocks[|blocks|] == old(blocks[|u.blocks|])
      ensures var b := inside.blocks[|blocks|]; PatchedTo(code, b.breaks, |code| - 1) && PatchedTo(code, b.conts, b.cont)
    {
      hide Emits, EmitsOp, Opens, Writes, Keeps, Enters, EntersTwo, Leaves, LeavesScope, Fills, EndsIteration;
      hide Inv, Ext, BranchBlocks.Kept, Frames, LoopsOk, Mid, Grown, PatchedTo, Left, InstrOk;
      ghost var v0 := Snap();
      Emit(EnumPop, Frames(u.blocks), u, {});
      ghost var v1 := Snap();
      var over := |code|;
      EmitOpen(Jump(2), Frames(u.blocks) + [IterKind], u, {});
      assert {} + {over} == {over} && {over} - {over} == {};
      MidOuter(u, Snap(), {over});
      inside := Snap();
      ghost var v3, v4 := CloseIteration(over, u);
      IterationEnded(v0, v1, inside, v3, v4, Snap(), LastTarget(inside));
      MidEnd(u, Snap());
    }

    /** Breaks out of a for-in or for-of loop lead to the instruction that closes the iteration, which its end skips. */
    method CloseIteration(over: nat, ghost u: View) returns (ghost v3: View, ghost v4: View)
      requires Inv(u) && Mid(u, Snap(), {over}) && |blocks| == |u.blocks| + 1 && |shapes| == |code| + 1 && |conts| == |blocks|
      requires Now(Snap()) == Frames(u.blocks) + [IterKind] == BreakShape(blocks, |u.blocks|) == conts[|u.blocks|]
      requires over + 1 == |code| && code[over] == Jump(2) && shapes[over] == Frames(u.blocks)
      requires var b := blocks[|u.blocks|]; b.typ.BlockLoopEnum? && HasShape(shapes, b.cont, Now(Snap()))
      modifies `code, `shapes, `blocks, `conts, `open
      ensures Mid(u, Snap(), {}) && |blocks| == |u.blocks| && |code| == old(|code|) + 1 && code[|code| - 1] == EnumPopClose
      ensures |shapes| == |code| + 1 && Now(Snap()) == Frames(u.blocks)
      ensures Leaves(old(Snap()), v3, LastTarget(old(Snap()))) && Emits(v3, v4, EnumPopClose) && Writes(v4, Snap(), over, Jump(2))
      ensures var b := old(blocks[|u.blocks|]); PatchedTo(code, b.breaks, |code| - 1) && PatchedTo(code, b.conts, b.cont)
    {
      hide Inv, Ext, BranchBlocks.Kept, Frames, LoopsOk, Mid, Grown, PatchedTo, Left, InstrOk, SameKinds, Within, EnvOf;
      ghost var inside := Snap();
      LeaveBlock(u, {over});
      ghost var left := code;
      v3 := Snap();
      OpenStays(u, inside, {over}, left, over);
      Emit(EnumPopClose, Frames(u.blocks), u, {over});
      v4 := Snap();
      assert {over} - {over} == {};
      Rewrite(over, Jump(2), u, {over});
      assert code == left + [EnumPopClose] && code[..|left|] == left;
      PatchedStays(left, code, inside.blocks[|blocks|].breaks, |left|);
      PatchedStays(left, code, inside.blocks[|blocks|].conts, inside.blocks[|blocks|].cont);
    }

    /** for-in and for-of. */
    method CompileForInOf(s: Stmt, name: Option<string>, ghost e: Env) returns (ok: bool, ghost inside: View, ghost cont: nat)
      requires Ready(Snap()) && s.ForInOf? && Plain(s.body)
      requires EnvOf(blocks) == e
      modifies this
      ensures ok ==> Ready(Snap()) && Grown(old(Snap()), Snap()) && MakesLoop(old(Snap()), Snap(), s, name)
      ensures ok ==> |code| >= 1 && code[|code| - 1] == EnumPopClose
      ensures ok ==> LoopExits(inside, code, |blocks|, name, |code| - 1, cont)
      ensures ok == LegalLoop(s, name, e)
      decreases s, 3
    {
      hide Emits, EmitsOp, Opens, Writes, Keeps, Enters, EntersTwo, Leaves, LeavesScope, Fills, MakesSource, MakesIteration, EndsIteration, MakesLoop;
      hide Inv, Ext, BranchBlocks.Kept, Frames, LoopsOk, Mid, Grown, PatchedTo, Plain, Ready, EnvOf, Legal, AllLegal;
      ghost var u := Snap();
      inside, cont := u, 0;
      MidStart(u);
      ghost var v1, v2 := OpenIteration(s, name, u);
      ghost var v3 := Snap();
      ok := CompileIteration(s, u, Within(e, BlockLoopEnum, name));
      if !ok {
        return;
      }
      cont := blocks[|blocks| - 1].cont;
      ghost var v4 := Snap();
      inside := FinishIteration(u);
      ForInOfMade(u, v1, v2, v3, v4, Snap(), s, name);
    }

    method OpenIteration(s: Stmt, name: Option<string>, ghost u: View) returns (ghost v1: View, ghost v2: View)
      requires s.ForInOf? && Ready(u) && u == Snap() && Mid(u, u, {})
      modifies this
      ensures Mid(u, Snap(), {}) && LoopsOk(blocks, conts) && Now(Snap()) == Frames(blocks) == Frames(u.blocks) + [IterKind]
      ensures |shapes| == |code| + 1 && |conts| == |blocks| && blocks == u.blocks + [Block(BlockLoopEnum, name, 0, [], [])]
      ensures Enters(u, v1) && MakesSource(v1, v2, s) && Emits(v2, Snap(), Iterate)
      ensures conts[|u.blocks|] == Frames(blocks) && EnvOf(blocks) == Within(EnvOf(u.blocks), BlockLoopEnum, name)
    {
      hide Inv, Ext, BranchBlocks.Kept, Frames, LoopsOk, Mid, Within, EnvOf, SameKinds;
      PushBlock(BlockLoopEnum, name, u, {});
      v1 := Snap();
      CompileSource(s, u);
      v2 := Snap();
      Emit(Iterate, Now(u) + [IterKind], u, {});
    }

    /** The body of such a loop, in a scope of its own if the loop declares anything, and the jump back. */
    method CompileIteration(s: Stmt, ghost u: View, ghost e: Env) returns (ok: bool)
      requires Ready(u) && Mid(u, Snap(), {}) && LoopsOk(blocks, conts) && Now(Snap()) == Frames(blocks)
      requires s.ForInOf? && Plain(s.body) && |blocks| == |u.blocks| + 1 && blocks[|u.blocks|].typ.BlockLoopEnum?
      requires |shapes| == |code| + 1 && Now(Snap()) != [] && Now(Snap())[|Now(Snap())| - 1] == IterKind
      requires EnvOf(blocks) == e
      modifies this
      ensures ok ==> Mid(u, Snap(), {}) && |shapes| == |code| + 1 && |conts| == |blocks| == old(|blocks|)
      ensures ok ==> Now(Snap()) == old(Now(Snap())) && MakesIteration(old(Snap()), Snap(), s)
      ensures ok ==> conts[|u.blocks|] == old(conts[|u.blocks|])
      ensures ok ==> var b := blocks[|u.blocks|];
        && b.typ.BlockLoopEnum? && b.name == old(blocks[|u.blocks|].name)
        && HasShape(shapes, b.cont, old(Now(Snap()))) && b.cont == old(|code|) < |code| && code[b.cont].IterNext?
      ensures ok == Legal(s.body, e)
      decreases s, 2
    {
      hide Emits, EmitsOp, Opens, Writes, Keeps, Enters, EntersTwo, Leaves, LeavesScope, Fills, MakesElement, MakesIteration;
      hide Inv, Ext, BranchBlocks.Kept, Frames, LoopsOk, Mid, Grown;
      hide Plain, Left, InstrOk, EnvOf, Legal, LegalLoop, AllLegal;
      ghost var here, v0 := Now(Snap()), Snap();
      var start := |code|;
      SetCont(|blocks| - 1, start, u, {});
      ghost var v1 := Snap();
      EmitOpen(Hole, here, u, {});
      assert {} + {start} == {start} && {start} - {start} == {};
      ghost var v := Snap();
      ok := CompileBody(s, u, {start}, e);
      if !ok {
        return;
      }
      assert shapes[start] == v.shapes[start] && shapes[start + 1] == v.shapes[start + 1];
      ghost var v3 := Snap();
      Emit(Jump(start - |code|), here, u, {start});
      ghost var v4 := Snap();
      Rewrite(start, IterNext(|code| - start), u, {start});
      IterationMade(v0, v1, v, v3, v4, Snap(), s);
    }

    method CompileBody(s: Stmt, ghost u: View, ghost mine: set<nat>, ghost e: Env) returns (ok: bool)
      requires Ready(u) && Mid(u, Snap(), mine) && LoopsOk(blocks, conts) && Now(Snap()) == Frames(blocks)
      requires s.ForInOf? && Plain(s.body) && |blocks| == |u.blocks| + 1 && blocks[|u.blocks|].typ.BlockLoopEnum?
      requires EnvOf(blocks) == e
      modifies this
      ensures ok ==> Mid(u, Snap(), mine) && |shapes| == |code| + 1 && old(shapes) <= shapes
      ensures ok ==> MakesElement(old(Snap()), Snap(), s)
      ensures ok ==> |conts| == |blocks| == old(|blocks|) && Now(Snap()) == old(Now(Snap()))
      ensures ok ==> SameBlock(old(blocks)[|u.blocks|], blocks[|u.blocks|]) && conts[|u.blocks|] == old(conts[|u.blocks|])
      ensures ok == Legal(s.body, e)
      decreases s, 1
    {
      hide Inv, Ext, BranchBlocks.Kept, Frames, LoopsOk, Mid, Grown, Plain;
      hide Left, SameBlock, InstrOk, EnvOf, Legal, LegalLoop, AllLegal;
      ghost var here, v0 := Now(Snap()), Snap();
      ExtAtMid(u, Snap(), mine);
      if !s.declares {
        Emit(Op(s.into), here, u, mine);
        ghost var v := Snap();
        ok := CompileNested(s.body, u, mine, e);
        if ok {
          GrownBlock(v, Snap(), |u.blocks|);
          GrownShapes(v, Snap());
          PlainElementMade(v0, v, Snap(), s);
        }
        return;
      }
      ok := CompileScopedBody(s, u, mine, e);
    }

    /** Enters the scope of an iteration and assigns to what the loop declares. */
    method EnterIterScope(into: nat, ghost u: View, ghost mine: set<nat>) returns (ghost v1: View, ghost v2: View)
      requires Mid(u, Snap(), mine) && LoopsOk(blocks, conts) && Now(Snap()) == Frames(blocks)
      requires |blocks| > 0 && blocks[|blocks| - 1].typ.BlockLoopEnum?
      modifies `code, `shapes, `blocks, `conts
      ensures Mid(u, Snap(), mine) && LoopsOk(blocks, conts) && Now(Snap()) == Frames(blocks) == old(Now(Snap())) + [ScopeKind]
      ensures Enters(old(Snap()), v1) && Emits(v1, v2, EnterBlock) && Emits(v2, Snap(), Op(into))
      ensures |shapes| == |code| + 1 && old(shapes) <= shapes && EnvOf(blocks) == EnvOf(old(blocks))
      ensures blocks == old(blocks) + [Block(BlockIterScope, None, 0, [], [])] && old(conts) <= conts && |conts| == old(|conts|) + 1
    {
      hide Inv, Ext, BranchBlocks.Kept, Frames, LoopsOk, Mid, EnvOf, SameKinds;
      ghost var here := Now(Snap());
      PushBlock(BlockIterScope, None, u, mine);
      v1 := Snap();
      Emit(EnterBlock, here + [ScopeKind], u, mine);
      v2 := Snap();
      Emit(Op(into), here + [ScopeKind], u, mine);
    }

    method CompileScopedBody(s: Stmt, ghost u: View, ghost mine: set<nat>, ghost e: Env) returns (ok: bool)
      requires Ready(u) && Mid(u, Snap(), mine) && LoopsOk(blocks, conts) && Now(Snap()) == Frames(blocks)
      requires s.ForInOf? && s.declares && Plain(s.body) && |blocks| == |u.blocks| + 1 && blocks[|u.blocks|].typ.BlockLoopEnum?
      requires EnvOf(blocks) == e
      modifies this
      ensures ok ==> Mid(u, Snap(), mine) && |shapes| == |code| + 1 && old(shapes) <= shapes
      ensures ok ==> MakesElement(old(Snap()), Snap(), s)
      ensures ok ==> |conts| == |blocks| == old(|blocks|) && Now(Snap()) == old(Now(Snap()))
      ensures ok ==> SameBlock(old(blocks)[|u.blocks|], blocks[|u.blocks|]) && conts[|u.blocks|] == old(conts[|u.blocks|])
      ensures ok == Legal(s.body, e)
      decreases s, 0
    {
      hide Emits, EmitsOp, Opens, Writes, Keeps, Enters, EntersTwo, Leaves, LeavesScope, Fills, Makes, MakesElement;
      hide Inv, Ext, BranchBlocks.Kept, Frames, LoopsOk, Mid, Grown, Plain;
      hide Left, SameBlock, InstrOk, EnvOf, Legal, LegalLoop, AllLegal, SameKinds;
      ghost var here, v0 := Now(Snap()), Snap();
      ghost var v1, v2 := EnterIterScope(s.into, u, mine);
      ghost var v := Snap();
      ok := CompileNested(s.body, u, mine, e);
      if !ok {
        return;
      }
      GrownBlock(v, Snap(), |u.blocks|);
      GrownBlock(v, Snap(), |u.blocks| + 1);
      GrownShapes(v, Snap());
      ghost var w := Snap();
      LeaveScopeBlock(here, u, mine);
      ScopedElementMade(v0, v1, v2, v, w, Snap(), s);
    }

    /** A block of statements inside of the statement that compilation is at. */
    method CompileInner(ghost parent: Stmt, lexical: bool, list: seq<Stmt>, ghost u: View, ghost mine: set<nat>, ghost e: Env) returns (ok: bool)
      requires Mid(u, Snap(), mine) && LoopsOk(blocks, conts) && Now(Snap()) == Frames(blocks) && AllPlain(list, parent)
      requires EnvOf(blocks) == e
      modifies this
      ensures ok ==> Mid(u, Snap(), mine) && LoopsOk(blocks, conts) && Now(Snap()) == Frames(blocks)
      ensures ok ==> Frames(blocks) == old(Frames(blocks)) && SameKinds(old(blocks), blocks) && Grown(old(Snap()), Snap())
      ensures ok ==> |shapes| == |code| + 1 && old(shapes) <= shapes && MakesBlock(old(Snap()), Snap(), lexical, list, parent)
      ensures ok == AllLegal(list, e)
      ensures ok ==> EnvOf(blocks) == e
      decreases parent, 2
    {
      ghost var v := Snap();
      ok := CompileSequence(parent, lexical, list, e);
      if ok {
        MidGrown(u, v, Snap(), mine);
        GrownShapes(v, Snap());
        EnvByKind(v.blocks, blocks);
      }
    }

    /** The catch clause of a try, and the jump over it. Its offset is from lbl. */
    method CompileCatch(ghost s: Stmt, c: Catch, lbl: nat, ghost u: View, ghost e: Env) returns (ok: bool, offset: int)
      requires Ready(u) && Mid(u, Snap(), {lbl}) && LoopsOk(blocks, conts) && Now(Snap()) == Frames(blocks)
      requires AllPlain(c.list, s) && |shapes| == |code| + 1 && lbl < |code| && |blocks| == |u.blocks| + 1
      requires EnvOf(blocks) == e
      modifies this
      ensures ok ==> Mid(u, Snap(), {lbl}) && |shapes| == |code| + 1 && old(shapes) <= shapes
      ensures ok ==> LoopsOk(blocks, conts) && Now(Snap()) == Frames(blocks) == old(Frames(blocks)) && SameKinds(old(blocks), blocks)
      ensures ok ==> MakesCatch(old(Snap()), Snap(), c, s) && offset == old(|code|) + 1 - lbl
      ensures ok ==> offset > 0 && HasShape(shapes, lbl + offset, old(Frames(blocks)))
      ensures ok == AllLegal(c.list, e)
      ensures ok ==> EnvOf(blocks) == e
      decreases s, 4
    {
      hide Emits, EmitsOp, Opens, Writes, Keeps, Enters, EntersTwo, Leaves, LeavesScope, Fills, MakesCatch, MakesCatchBody, MakesBlock;
      hide Inv, Ext, BranchBlocks.Kept, Frames, LoopsOk, Mid, Grown;
      hide AllPlain, Left, EnvOf, Legal, LegalLoop, AllLegal;
      ghost var here, v0 := Now(Snap()), Snap();
      var lbl2 := |code|;
      EmitOpen(Hole, here, u, {lbl});
      ghost var v1 := Snap();
      offset := |code| - lbl;
      ghost var mine := {lbl, lbl2};
      assert {lbl} + {lbl2} == mine && mine - {lbl2} == {lbl};
      ghost var was := shapes;
      ok := CompileCatchBody(s, c, u, mine, e);
      if !ok {
        return;
      }
      assert shapes[lbl2] == was[lbl2] && shapes[lbl2 + 1] == was[lbl2 + 1];
      ghost var v2 := Snap();
      Rewrite(lbl2, Jump(|code| - lbl2), u, mine);
      CatchMade(v0, v1, v2, Snap(), c, s);
    }

    /** The body of a catch clause; without a parameter, the exception is dropped. */
    method CompileCatchBody(ghost s: Stmt, c: Catch, ghost u: View, ghost mine: set<nat>, ghost e: Env) returns (ok: bool)
      requires Ready(u) && Mid(u, Snap(), mine) && LoopsOk(blocks, conts) && Now(Snap()) == Frames(blocks)
      requires AllPlain(c.list, s) && |shapes| == |code| + 1 && |blocks| > |u.blocks|
      requires EnvOf(blocks) == e
      modifies this
      ensures ok ==> Mid(u, Snap(), mine) && |shapes| == |code| + 1 && old(shapes) <= shapes
      ensures ok ==> LoopsOk(blocks, conts) && Now(Snap()) == Frames(blocks) == old(Frames(blocks)) && SameKinds(old(blocks), blocks)
      ensures ok ==> MakesCatchBody(old(Snap()), Snap(), c, s)
      ensures ok == AllLegal(c.list, e)
      ensures ok ==> EnvOf(blocks) == e
      decreases s, 3
    {
      hide Emits, Fills, MakesCatchBody, MakesBlock;
      hide Inv, Ext, BranchBlocks.Kept, Frames, LoopsOk, Mid, Grown;
      hide AllPlain, Left, EnvOf, Legal, LegalLoop, AllLegal;
      if c.parameter {
        ok := CompileScopedCatch(s, c, u, mine, e);
      } else {
        ghost var v0 := Snap();
        Emit(Pop, Now(v0), u, mine);
        ghost var v := Snap();
        ok := CompileInner(s, c.lexical, c.list, u, mine, e);
        if ok {
          PlainCatchMade(v0, v, Snap(), c, s);
        }
      }
    }

    /** The body of a catch clause, in the scope of its parameter. */
    method CompileScopedCatch(ghost s: Stmt, c: Catch, ghost u: View, ghost mine: set<nat>, ghost e: Env) returns (ok: bool)
      requires Ready(u) && Mid(u, Snap(), mine) && LoopsOk(blocks, conts) && Now(Snap()) == Frames(blocks)
      requires AllPlain(c.list, s) && |shapes| == |code| + 1 && |blocks| > |u.blocks|
      requires EnvOf(blocks) == e && c.parameter
      modifies this
      ensures ok ==> Mid(u, Snap(), mine) && |shapes| == |code| + 1 && old(shapes) <= shapes
      ensures ok ==> LoopsOk(blocks, conts) && Now(Snap()) == Frames(blocks) == old(Frames(blocks)) && SameKinds(old(blocks), blocks)
      ensures ok ==> MakesCatchBody(old(Snap()), Snap(), c, s)
      ensures ok == AllLegal(c.list, e)
      ensures ok ==> EnvOf(blocks) == e
      decreases s, 2
    {
      hide Emits, EmitsOp, Opens, Writes, Keeps, Enters, EntersTwo, Leaves, LeavesScope, Fills, MakesCatchBody, MakesBlock, MakesList;
      hide Inv, Ext, BranchBlocks.Kept, Frames, LoopsOk, Mid, Grown;
      hide AllPlain, Left, EnvOf, Legal, LegalLoop, AllLegal;
      ghost var here, was, v0 := Now(Snap()), blocks, Snap();
      PushBlock(BlockScope, None, u, mine);
      ghost var v1 := Snap();
      Emit(EnterBlock, here + [ScopeKind], u, mine);
      ghost var v := Snap();
      ok := CompileStatements(c.list, s, e);
      if !ok {
        return;
      }
      MidGrown(u, v, Snap(), mine);
      GrownShapes(v, Snap());
      PopLoopsOk(blocks, conts);
      ghost var w := Snap();
      LeaveScopeBlock(here, u, mine);
      ScopeMade(v0, v1, v, w, Snap(), c.list, s);
      ScopedCatchMade(v0, Snap(), c, s);
      ShapesByKind(was, blocks);
      EnvByKind(was, blocks);
    }

    method CompileTry(s: Stmt, ghost e: Env) returns (ok: bool)
      requires Ready(Snap()) && Plain(s) && s.TryStmt?
      requires EnvOf(blocks) == e
      modifies this
      ensures ok ==> Ready(Snap()) && Grown(old(Snap()), Snap()) && Makes(old(Snap()), Snap(), s)
      ensures ok == Legal(s, e)
      decreases s, 5
    {
      hide Emits, EmitsOp, Opens, Writes, Keeps, Enters, EntersTwo, Leaves, LeavesScope, Fills, MakesEnd, MakesCatch, Makes;
      hide Inv, Ext, BranchBlocks.Kept, Frames, LoopsOk, Mid, Grown, PatchedTo, InstrOk;
      hide EnvOf, Legal, LegalLoop, AllLegal;
      ghost var u := Snap();
      MidStart(u);
      LegalTry(s, e);
      PushBlock(BlockTry, None, u, {});
      ghost var v1 := Snap();
      var lbl := |code|;
      EmitOpen(Hole, Frames(blocks), u, {});
      assert {} + {lbl} == {lbl} && {lbl} - {lbl} == {};
      ghost var v := Snap();
      ok := CompileNested(s.block, u, {lbl}, e);
      if !ok {
        return;
      }
      GrownShapes(v, Snap());
      ghost var v3 := Snap();
      var catchOffset := 0;
      if s.catch_.Some? {
        assert AllPlain(s.catch_.value.list, s);
        ok, catchOffset := CompileCatch(s, s.catch_.value, lbl, u, e);
        if !ok {
          return;
        }
      }
      ghost var v4 := Snap();
      ok := CompileFinally(s, lbl, catchOffset, u, e);
      if ok {
        ghost var v5 := Snap();
        FinishBlock(u);
        TryMade(u, v1, v, v3, v4, v5, Snap(), s);
      }
    }

    /** The end of a try: its finally block, or the instruction that leaves it; and the instruction at lbl
        that enters it. */
    method CompileFinally(s: Stmt, lbl: nat, catchOffset: int, ghost u: View, ghost e: Env) returns (ok: bool)
      requires Ready(u) && Mid(u, Snap(), {lbl}) && LoopsOk(blocks, conts) && Now(Snap()) == Frames(blocks)
      requires s.TryStmt? && (s.finally_.Some? ==> AllPlain(s.finally_.value.list, s))
      requires |shapes| == |code| + 1 && lbl < |code| && |blocks| == |u.blocks| + 1
      requires blocks[|u.blocks|].typ.BlockTry? && Frames(blocks) == Frames(u.blocks) + [TryKind]
      requires shapes[lbl] == Frames(u.blocks) && shapes[lbl + 1] == Frames(blocks)
      requires catchOffset > 0 ==> HasShape(shapes, lbl + catchOffset, Frames(blocks))
      requires EnvOf(blocks) == e
      modifies this
      ensures ok ==> Mid(u, Snap(), {}) && |shapes| == |code| + 1 && |conts| == |blocks|
      ensures ok ==> |blocks| == |u.blocks| + 1 && blocks[|u.blocks|].typ.BlockTry? && Now(Snap()) == Frames(u.blocks)
      ensures ok ==> MakesEnd(old(Snap()), Snap(), lbl, catchOffset, s) && blocks[|u.blocks|].name == old(blocks[|u.blocks|].name)
      ensures ok == (s.finally_.Some? ==> AllLegal(s.finally_.value.list, e))
      decreases s, 4
    {
      hide Emits, EmitsOp, Opens, Writes, Keeps, Enters, EntersTwo, Leaves, LeavesScope, Fills, MakesEnd, MakesBlock;
      hide Inv, Ext, BranchBlocks.Kept, Frames, LoopsOk, Mid, Grown;
      hide AllPlain, Ready, EnvOf, Legal, LegalLoop, AllLegal;
      ghost var here, was, v0 := Frames(u.blocks), shapes, Snap();
      ghost var v1, v2 := v0, v0;
      var finallyOffset := 0;
      if s.finally_.Some? {
        Emit(EnterFinally, here + [TryKind], u, {lbl});
        v1 := Snap();
        finallyOffset := |code| - lbl;
        ok := CompileInner(s, s.finally_.value.lexical, s.finally_.value.list, u, {lbl}, e);
        if !ok {
          return;
        }
        v2 := Snap();
        Emit(LeaveFinally, here, u, {lbl});
      } else {
        Emit(LeaveTry, here, u, {lbl});
      }
      assert shapes[lbl] == was[lbl] && shapes[lbl + 1] == was[lbl + 1];
      ghost var v3 := Snap();
      Rewrite(lbl, Try(catchOffset, finallyOffset), u, {lbl});
      EndMade(v0, v1, v2, v3, Snap(), lbl, catchOffset, s);
      assert {lbl} - {lbl} == {};
      ExtAtMid(u, Snap(), {});
      ok := true;
    }

    /** Compares the value of a switch with that of a case; a placeholder for the jump to the case is at pos. */
    method EmitCaseTest(lexical: bool, id: nat, ghost u: View, ghost mine: set<nat>) returns (pos: nat)
      requires Mid(u, Snap(), mine) && |shapes| == |code| + 1
      modifies `code, `shapes, `open
      ensures Mid(u, Snap(), mine + {pos}) && |shapes| == |code| + 1 && old(shapes) <= shapes && Now(Snap()) == old(Now(Snap()))
      ensures MakesHead(old(Snap()), Snap(), lexical, id) && pos + 1 == |code|
      ensures old(|code|) <= pos < |code| && shapes[pos] == shapes[pos + 1] == Now(Snap()) && pos !in mine
    {
      hide Emits, EmitsOp, Opens, Writes, Keeps, Enters, EntersTwo, Leaves, LeavesScope, Fills, MakesHead;
      hide Inv, Ext, BranchBlocks.Kept, Mid;
      ghost var here, v0 := Now(Snap()), Snap();
      Emit(Op(id), here, u, mine);
      ghost var v1 := Snap();
      var test := |code|;
      EmitOpen(JumpUnless(if lexical then 2 else 3), here, u, mine);
      ghost var v2 := Snap();
      if !lexical {
        Emit(Pop, here, u, mine + {test});
      }
      ghost var v3 := Snap();
      pos := |code|;
      EmitOpen(Hole, here, u, mine + {test});
      ghost var v4 := Snap();
      Rewrite(test, JumpUnless(if lexical then 2 else 3), u, mine + {test} + {pos});
      HeadMade(v0, v1, v2, v3, v4, Snap(), lexical, id);
      assert mine + {test} + {pos} - {test} == mine + {pos};
    }

    /** The tests of a switch, in order, and the jump taken if none succeeds. */
    method EmitCaseTests(s: Stmt, ghost u: View) returns (jumps: seq<int>, ghost mine: set<nat>)
      requires Mid(u, Snap(), {}) && |shapes| == |code| + 1 && s.Switch? && -1 <= s.default_ < |s.cases|
      modifies `code, `shapes, `open
      ensures MakesTests(old(Snap()), Snap(), s, jumps) && blocks == old(blocks)
      ensures |jumps| == |s.cases| + 1 && Pending(jumps, 0, mine) && Mid(u, Snap(), mine) && |shapes| == |code| + 1
      ensures forall i :: 0 <= i <= |s.cases| && (i == |s.cases| ==> s.default_ == -1) && (i == 0 ==> s.default_ != 0) ==> jumps[i] >= 0
      ensures old(shapes) <= shapes && Now(Snap()) == old(Now(Snap()))
      ensures Waiting(shapes, mine, Now(Snap()))
    {
      hide Emits, EmitsOp, Opens, Writes, Keeps, Enters, EntersTwo, Leaves, LeavesScope, Fills, MakesHeads, MakesHead, MakesTests;
      hide Inv, Ext, BranchBlocks.Kept, Mid, Pending, Waiting, InstrOk;
      var n, default := |s.cases|, s.default_;
      ghost var here, v0 := Now(Snap()), Snap();
      jumps := seq(n + 1, i => -1);
      HeadsNone(v0, s, jumps);
      mine := {};
      PendingStart(jumps);
      WaitingNone(shapes, here);
      for i := 0 to n
        invariant |jumps| == n + 1 && Pending(jumps, 0, mine) && Mid(u, Snap(), mine) && |shapes| == |code| + 1
        invariant forall k :: 0 <= k < i && k != default ==> jumps[k] >= 0
        invariant forall k :: 0 <= k <= n && (k >= i || k == default) ==> jumps[k] == -1
        invariant old(shapes) <= shapes && Now(Snap()) == here
        invariant Waiting(shapes, mine, here) && MakesHeads(v0, Snap(), s, i, jumps)
      {
        if i == default {
          HeadsSkip(v0, Snap(), s, i, jumps);
        } else {
          ghost var was, v := shapes, Snap();
          var pos := EmitCaseTest(s.lexical, s.cases[i].test, u, mine);
          HeadsOneMore(v0, v, Snap(), s, i, jumps);
          PendingMore(jumps, mine, i, pos);
          WaitingMore(was, shapes, mine, pos, here);
          mine := mine + {pos};
          jumps := jumps[i := pos];
        }
      }
      ghost var was, v1, js := shapes, Snap(), jumps;
      if !s.lexical {
        Emit(Pop, here, u, mine);
      }
      ghost var v2 := Snap();
      WaitingStays(was, shapes, mine, here);
      if default != 0 {
        jumps, mine := EmitDefaultJump(jumps, if default == -1 then n else default, u, mine);
      }
      TestsMade(v0, v1, v2, Snap(), s, js, jumps);
    }

    /** The jump taken if no test succeeds. */
    method EmitDefaultJump(jumps: seq<int>, last: nat, ghost u: View, ghost mine: set<nat>) returns (js: seq<int>, ghost more: set<nat>)
      requires Mid(u, Snap(), mine) && |shapes| == |code| + 1 && last < |jumps| && jumps[last] == -1 && Pending(jumps, 0, mine)
      modifies `code, `shapes, `open
      ensures js == jumps[last := old(|code|)] && more == mine + {old(|code|)} && Pending(js, 0, more) && Mid(u, Snap(), more)
      ensures old(shapes) <= shapes && |shapes| == |code| + 1 && |code| == old(|code|) + 1
      ensures old(Waiting(shapes, mine, Now(Snap()))) ==> Waiting(shapes, more, Now(Snap()))
      ensures Now(Snap()) == old(Now(Snap())) && Opens(old(Snap()), Snap())
    {
      hide Inv, Ext, BranchBlocks.Kept, Mid, Pending;
      ghost var pos := |code|;
      js, more := jumps[last := |code|], mine + {|code|};
      EmitOpen(Hole, Now(Snap()), u, mine);
      PendingMore(jumps, mine, last, pos);
    }

    /** The bodies of the cases, in order, each the target of its jump. */
    method CompileCases(s: Stmt, jumps: seq<int>, ghost pending: set<nat>, ghost u: View, ghost e: Env) returns (ok: bool, ghost marks: seq<nat>)
      requires s.Switch? && (forall i :: 0 <= i < |s.cases| ==> AllPlain(s.cases[i].list, s)) && -1 <= s.default_ < |s.cases|
      requires |jumps| == |s.cases| + 1 && Pending(jumps, 0, pending)
      requires forall i :: 0 <= i <= |s.cases| && (i == |s.cases| ==> s.default_ == -1) && (i == 0 ==> s.default_ != 0) ==> jumps[i] >= 0
      requires Mid(u, Snap(), pending) && LoopsOk(blocks, conts) && Now(Snap()) == Frames(blocks) && |shapes| == |code| + 1
      requires Waiting(shapes, pending, Now(Snap()))
      requires EnvOf(blocks) == e
      modifies this
      ensures ok ==> Mid(u, Snap(), {}) && LoopsOk(blocks, conts) && Now(Snap()) == Frames(blocks) && |shapes| == |code| + 1
      ensures ok ==> Frames(blocks) == old(Frames(blocks)) && SameKinds(old(blocks), blocks)
      ensures ok ==> MakesAllCases(old(Snap()), Snap(), s, jumps, marks)
      ensures ok == (forall i :: 0 <= i < |s.cases| ==> AllLegal(s.cases[i].list, e))
      decreases s, 3
    {
      hide Emits, EmitsOp, Opens, Writes, Keeps, Enters, EntersTwo, Leaves, LeavesScope, Fills, MakesCases, MakesAllCases, MakesBlock;
      hide Inv, Ext, BranchBlocks.Kept, Frames, LoopsOk, Mid, Grown;
      hide AllPlain, Pending, EnvOf, Legal, LegalLoop, AllLegal;
      ghost var here, was := Frames(blocks), blocks;
      ghost var mine: set<nat> := pending;
      ghost var v0 := Snap();
      var n := |s.cases|;
      marks := [|code|];
      CasesNone(v0, s, jumps);
      for i := 0 to n
        invariant Mid(u, Snap(), mine) && LoopsOk(blocks, conts) && |shapes| == |code| + 1
        invariant Now(Snap()) == Frames(blocks) == here && SameKinds(was, blocks) && Pending(jumps, i, mine)
        invariant EnvOf(blocks) == e && forall k :: 0 <= k < i ==> AllLegal(s.cases[k].list, e)
        invariant Waiting(shapes, mine, here) && MakesCases(v0, Snap(), s, i, jumps, marks)
      {
        ghost var v := Snap();
        mine := EnterCase(jumps, i, here, u, mine);
        ghost var b1, v1 := blocks, Snap();
        ok := CompileInner(s, false, s.cases[i].list, u, mine, e);
        if !ok {
          return;
        }
        SameKindsTrans(was, b1, blocks);
        CasesOneMore(v0, v, v1, Snap(), s, i, jumps, marks);
        marks := marks + [|code|];
      }
      ghost var v := Snap();
      mine := EnterCase(jumps, n, here, u, mine);
      AllCasesMade(v0, v, Snap(), s, jumps, marks);
      PendingNone(jumps, mine);
      ok := true;
    }

    /** The jump to a case, if there is one, goes to the position to come. */
    method EnterCase(jumps: seq<int>, i: nat, ghost here: Shape, ghost u: View, ghost mine: set<nat>) returns (ghost rest: set<nat>)
      requires Mid(u, Snap(), mine) && |shapes| == |code| + 1 && i < |jumps| && Pending(jumps, i, mine) && Now(Snap()) == here
      requires Waiting(shapes, mine, here)
      modifies `code, `open
      ensures if jumps[i] >= 0 then Writes(old(Snap()), Snap(), jumps[i], Jump(|code| - jumps[i])) else Snap() == old(Snap())
      ensures Mid(u, Snap(), rest) && Pending(jumps, i + 1, rest) && |code| == old(|code|) && rest <= mine
    {
      hide Inv, Ext, BranchBlocks.Kept, Mid, Pending;
      PendingNext(jumps, i, mine);
      rest := mine;
      if jumps[i] >= 0 {
        var pos: nat := jumps[i];
        rest := mine - {pos};
        assert pos in mine ==> pos < |code| && shapes[pos] == shapes[pos + 1];
        assert pos in mine;
        assert shapes[pos] == here;
        Rewrite(pos, Jump(|code| - pos), u, mine);
      }
    }

    method CompileTestsAndCases(s: Stmt, ghost u: View, ghost e: Env) returns (ok: bool, ghost marks: seq<nat>)
      requires s.Switch? && (forall i :: 0 <= i < |s.cases| ==> AllPlain(s.cases[i].list, s)) && -1 <= s.default_ < |s.cases|
      requires Mid(u, Snap(), {}) && LoopsOk(blocks, conts) && Now(Snap()) == Frames(blocks) && |shapes| == |code| + 1
      requires EnvOf(blocks) == e
      modifies this
      ensures ok ==> Mid(u, Snap(), {}) && Now(Snap()) == Frames(blocks) && |shapes| == |code| + 1 && |conts| == |blocks|
      ensures ok ==> Frames(blocks) == old(Frames(blocks)) && SameKinds(old(blocks), blocks)
      ensures ok ==> MakesSwitched(old(Snap()), Snap(), s, marks)
      ensures ok == (forall i :: 0 <= i < |s.cases| ==> AllLegal(s.cases[i].list, e))
      decreases s, 4
    {
      hide Inv, Ext, BranchBlocks.Kept, Frames, LoopsOk, Mid, Grown;
      hide AllPlain, Pending, EnvOf, Legal, LegalLoop, AllLegal;
      ghost var v0 := Snap();
      var jumps;
      ghost var mine;
      jumps, mine := EmitCaseTests(s, u);
      ghost var v1 := Snap();
      ok, marks := CompileCases(s, jumps, mine, u, e);
      if ok {
        SwitchedMade(v0, v1, Snap(), s, jumps, marks);
        ExtAtMid(u, Snap(), {});
      }
    }

    /** The discriminant, and the scope of the cases if they declare anything. */
    method OpenSwitch(s: Stmt, ghost u: View) returns (ghost v1: View, ghost v2: View, ghost v3: View)
      requires Ready(u) && u == Snap() && Mid(u, u, {}) && s.Switch?
      modifies this
      ensures Mid(u, Snap(), {}) && LoopsOk(blocks, conts) && Now(Snap()) == Frames(blocks) && |shapes| == |code| + 1
      ensures blocks == u.blocks + [Block(BlockSwitch, None, 0, [], [])] + if s.lexical then [Block(BlockScope, None, 0, [], [])] else []
      ensures Frames(blocks) == (if s.lexical then Now(u) + [ScopeKind] else Now(u)) && EnvOf(blocks) == Within(EnvOf(u.blocks), BlockSwitch, None)
      ensures Enters(u, v1) && Emits(v1, v2, Op(s.discriminant))
      ensures if s.lexical then Enters(v2, v3) && Emits(v3, Snap(), EnterBlock) else v2 == Snap()
    {
      hide Emits, Enters, Fills;
      hide Inv, Ext, BranchBlocks.Kept, Frames, LoopsOk, Mid, EnvOf;
      ghost var here := Now(u);
      PushBlock(BlockSwitch, None, u, {});
      v1 := Snap();
      Emit(Op(s.discriminant), here, u, {});
      v2, v3 := Snap(), Snap();
      if s.lexical {
        PushBlock(BlockScope, None, u, {});
        v3 := Snap();
        Emit(EnterBlock, here + [ScopeKind], u, {});
      }
    }

    method CompileSwitch(s: Stmt, ghost e: Env) returns (ok: bool)
      requires Ready(Snap()) && s.Switch? && (forall i :: 0 <= i < |s.cases| ==> AllPlain(s.cases[i].list, s)) && -1 <= s.default_ < |s.cases|
      requires EnvOf(blocks) == e
      modifies this
      ensures ok ==> Ready(Snap()) && Grown(old(Snap()), Snap()) && Makes(old(Snap()), Snap(), s)
      ensures ok == (forall i :: 0 <= i < |s.cases| ==> AllLegal(s.cases[i].list, Within(e, BlockSwitch, None)))
      decreases s, 5
    {
      hide Emits, EmitsOp, Opens, Writes, Keeps, Enters, EntersTwo, Leaves, LeavesScope, Fills, MakesSwitched, Makes;
      hide Inv, Ext, BranchBlocks.Kept, Frames, LoopsOk, Mid, Grown, PatchedTo;
      hide Left, AllPlain, Plain, EnvOf, Legal, LegalLoop, AllLegal;
      ghost var u := Snap();
      ghost var here := Now(u);
      MidStart(u);
      ghost var v1, v2, v3 := OpenSwitch(s, u);
      ghost var v4 := Snap();
      ghost var marks;
      ok, marks := CompileTestsAndCases(s, u, Within(e, BlockSwitch, None));
      if !ok {
        return;
      }
      ghost var v5 := Snap();
      if s.lexical {
        LeaveScopeBlock(here, u, {});
        ExtAtMid(u, Snap(), {});
      }
      ghost var v6 := Snap();
      FinishBlock(u);
      if s.lexical {
        ScopedSwitchMade(u, v1, v2, v3, v4, v5, v6, Snap(), s, marks);
      } else {
        PlainSwitchMade(u, v1, v2, v5, Snap(), s, marks);
      }
    }
  }

  /** Compiles a program. If it is not a syntax error, the code and the shapes of its positions agree; it starts
      and ends inside of nothing. */
  method Compile(s: Stmt) returns (ok: bool, code: seq<Instr>, ghost shapes: seq<Shape>)
    requires Plain(s)
    ensures ok == Legal(s, Env(map[], false, false))
    ensures ok ==> CodeOk(code, shapes) && shapes[0] == [] && shapes[|code|] == []
    ensures ok ==> Layout(code, 0, |code|, s, [])
  {
    hide Plain, Legal;
    var c := new Compiler();
    ghost var u := c.Snap();
    ok := c.CompileStatement(s, Env(map[], false, false));
    code, shapes := c.code, c.shapes;
    if ok {
      GrownAt(u, c.Snap(), 0);
      NothingWaits(c.Snap());
      assert forall pc :: 0 <= pc < |code| ==> InstrOk(shapes, pc, code[pc]);
      ProgramMade(u, c.Snap(), s);
    }
  }

  lemma NothingWaits(v: View)
    requires Ready(v) && v.blocks == [] && v.open == {}
    ensures CodeOk(v.code, v.shapes) && v.shapes[|v.code|] == []
  {
    forall pc | 0 <= pc < |v.code| ensures InstrOk(v.shapes, pc, v.code[pc]) {
      assert PcOk(v, pc);
    }
  }

  /** No run of compiled code loses track of what it is inside of, nor meets a placeholder; where it ends, it is
      inside of nothing; and wherever two runs meet, they are inside of the same. */
  lemma CompiledCodeKeepsTrack(code: seq<Instr>, shapes: seq<Shape>, cs: seq<Choice>, ds: seq<Choice>)
    requires CodeOk(code, shapes) && shapes[0] == [] && shapes[|code|] == []
    ensures var a := Run(code, Running(0, []), cs);
      !a.Stuck? && (a.Running? ==> a.pc <= |code| && ShapeOf(a.frames) == shapes[a.pc] && (a.pc == |code| ==> a.frames == []))
    ensures var a, b := Run(code, Running(0, []), cs), Run(code, Running(0, []), ds);
      a.Running? && b.Running? && a.pc == b.pc ==> ShapeOf(a.frames) == ShapeOf(b.frames)
  {
    hide Run;
    RunKeepsTrack(code, shapes, Running(0, []), cs);
    var a, b := Run(code, Running(0, []), cs), Run(code, Running(0, []), ds);
    if a.Running? && b.Running? && a.pc == b.pc {
      SameInsideAtSamePlace(code, shapes, cs, ds);
    }
  }
}
