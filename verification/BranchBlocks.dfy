/** The chain of blocks the compiler is inside of, with the placeholders that wait for the end of each. */
module BranchBlocks {
  import opened Options
  import opened BranchSpec

  datatype BlockType = BlockLoop | BlockLoopEnum | BlockTry | BlockLabel | BlockSwitch | BlockWith | BlockScope | BlockIterScope

  /** breaks and conts are positions of placeholders. */
  datatype Block = Block(typ: BlockType, name: Option<string>, cont: nat, breaks: seq<nat>, conts: seq<nat>)

  /** What execution is inside of in a block. */
  function Enter(s: Shape, t: BlockType): Shape {
    match t
    case BlockLoopEnum => s + [IterKind]
    case BlockTry => s + [TryKind]
    case BlockWith => s + [WithKind]
    case BlockScope => s + [ScopeKind]
    case BlockIterScope => s + [ScopeKind]
    case _ => s
  }

  function Frames(blocks: seq<Block>): Shape {
    if blocks == [] then [] else Enter(Frames(blocks[..|blocks| - 1]), blocks[|blocks| - 1].typ)
  }

  predicate IsScope(t: BlockType) { t.BlockScope? || t.BlockIterScope? }

  predicate IsLoop(t: BlockType) { t.BlockLoop? || t.BlockLoopEnum? }

  /** Where a break out of block k lands: still inside of the iteration of a for-in or for-of loop, to close it. */
  function BreakShape(blocks: seq<Block>, k: nat): Shape
    requires k < |blocks|
  {
    if blocks[k].typ.BlockLoopEnum? then Frames(blocks[..k]) + [IterKind] else Frames(blocks[..k])
  }

  /** Where a continue of loop k lands; the scope of the variables of a for loop lasts through its iterations. */
  function ContShape(blocks: seq<Block>, k: nat): Shape
    requires k < |blocks|
  {
    if blocks[k].typ.BlockLoopEnum? then Frames(blocks[..k]) + [IterKind]
    else if k + 1 < |blocks| && blocks[k + 1].typ.BlockIterScope? then Frames(blocks[..k]) + [ScopeKind]
    else Frames(blocks[..k])
  }

  lemma FramesPushed(blocks: seq<Block>, b: Block)
    ensures Frames(blocks + [b]) == Enter(Frames(blocks), b.typ)
  {
    assert (blocks + [b])[..|blocks|] == blocks;
  }

  predicate SameKinds(a: seq<Block>, b: seq<Block>) {
    |a| == |b| && forall k :: 0 <= k < |a| ==> a[k].typ == b[k].typ && a[k].name == b[k].name
  }

  lemma {:induction false} FramesByKind(a: seq<Block>, b: seq<Block>)
    requires SameKinds(a, b)
    ensures Frames(a) == Frames(b)
  {
    if a != [] {
      FramesByKind(a[..|a| - 1], b[..|b| - 1]);
    }
  }

  lemma ShapesByKind(a: seq<Block>, b: seq<Block>)
    requires SameKinds(a, b)
    ensures Frames(a) == Frames(b)
    ensures forall k :: 0 <= k < |a| ==> Frames(a[..k]) == Frames(b[..k])
    ensures forall k :: 0 <= k < |a| ==> BreakShape(a, k) == BreakShape(b, k) && ContShape(a, k) == ContShape(b, k)
  {
    FramesByKind(a, b);
    forall k | 0 <= k < |a| ensures Frames(a[..k]) == Frames(b[..k]) {
      FramesByKind(a[..k], b[..k]);
    }
    hide Frames;
  }

  /** The compiler's state: the code so far with the shape of each position and of the one to come; the blocks;
      where a continue of each lands; the positions still to be rewritten by whoever emitted them; and the
      block on whose lists each other placeholder is. */
  datatype View = View(code: seq<Instr>, shapes: seq<Shape>, blocks: seq<Block>, conts: seq<Shape>, open: set<nat>, owner: map<nat, nat>)

  predicate InLists(b: Block, pc: nat) { pc in b.breaks || pc in b.conts }

  ghost predicate PcOk(v: View, pc: nat)
    requires |v.shapes| == |v.code| + 1 && pc < |v.code|
  {
    if pc in v.open then true
    else if v.code[pc].Hole? then pc in v.owner && v.owner[pc] < |v.blocks| && InLists(v.blocks[v.owner[pc]], pc)
    else InstrOk(v.shapes, pc, v.code[pc])
  }

  predicate Waits(v: View, k: nat, pc: nat)
    requires |v.shapes| == |v.code| + 1
  {
    pc < |v.code| && v.code[pc].Hole? && pc !in v.open && pc in v.owner && v.owner[pc] == k
  }

  predicate BreakOk(v: View, k: nat, pc: nat)
    requires |v.shapes| == |v.code| + 1 && k < |v.blocks|
  {
    && Waits(v, k, pc) && pc !in v.blocks[k].conts
    && (if IsScope(v.blocks[k].typ) then v.shapes[pc] == v.shapes[pc + 1] + [ScopeKind] else v.shapes[pc] == BreakShape(v.blocks, k))
  }

  predicate ContOk(v: View, k: nat, pc: nat)
    requires |v.shapes| == |v.code| + 1 && k < |v.conts|
  {
    Waits(v, k, pc) && v.shapes[pc] == v.conts[k]
  }

  ghost predicate BlockOk(v: View, k: nat)
    requires |v.shapes| == |v.code| + 1 && |v.conts| == |v.blocks| && k < |v.blocks|
  {
    && (forall pc :: pc in v.blocks[k].breaks ==> BreakOk(v, k, pc))
    && (forall pc :: pc in v.blocks[k].conts ==> ContOk(v, k, pc))
    && (v.blocks[k].conts != [] ==> IsLoop(v.blocks[k].typ))
  }

  ghost predicate Sized(v: View) {
    |v.shapes| == |v.code| + 1 && |v.conts| == |v.blocks|
    && (forall pc :: pc in v.open ==> pc < |v.code|)
    && (forall pc :: pc in v.owner ==> pc < |v.code|)
  }

  ghost predicate Inv(v: View) {
    && Sized(v)
    && (forall pc :: 0 <= pc < |v.code| ==> PcOk(v, pc))
    && (forall k :: 0 <= k < |v.blocks| ==> BlockOk(v, k))
  }

  /** The shape of the position to come. */
  function Now(v: View): Shape {
    if v.shapes == [] then [] else v.shapes[|v.shapes| - 1]
  }

  /** A continue of each loop lands where it should, and only what can be branched out of has a label. */
  ghost predicate LoopsOk(blocks: seq<Block>, conts: seq<Shape>) {
    && |conts| == |blocks|
    && (forall k :: 0 <= k < |blocks| && IsLoop(blocks[k].typ) ==> conts[k] == ContShape(blocks, k))
    && (forall k :: 0 <= k < |blocks| && blocks[k].name.Some? ==> IsLoop(blocks[k].typ) || blocks[k].typ.BlockLabel?)
  }

  /** Between statements, the position to come is inside of what the blocks say. */
  ghost predicate Ready(v: View) {
    Inv(v) && LoopsOk(v.blocks, v.conts) && Now(v) == Frames(v.blocks)
  }

  /** Compilation goes on from one state to another without touching what was there. */
  ghost predicate Ext(u: View, v: View) {
    && |u.shapes| == |u.code| + 1 && |v.shapes| == |v.code| + 1 && |u.code| <= |v.code|
    && (forall pc :: 0 <= pc < |u.code| ==> v.code[pc] == u.code[pc])
    && (forall pc :: 0 <= pc < |u.shapes| ==> v.shapes[pc] == u.shapes[pc])
    && (forall pc :: pc in u.owner ==> pc in v.owner && v.owner[pc] == u.owner[pc])
  }

  predicate SameBlock(b: Block, c: Block) {
    b.typ == c.typ && b.name == c.name && b.cont == c.cont && b.breaks <= c.breaks && b.conts <= c.conts
  }

  /** Enclosing blocks only gain placeholders. */
  ghost predicate Kept(u: View, v: View) {
    && |u.conts| == |u.blocks| <= |v.blocks| == |v.conts|
    && (forall k :: 0 <= k < |u.blocks| ==> SameBlock(u.blocks[k], v.blocks[k]) && v.conts[k] == u.conts[k])
  }

  ghost predicate Grown(u: View, v: View) {
    Ext(u, v) && Kept(u, v) && |v.blocks| == |u.blocks| && v.open == u.open
  }

  lemma ExtTrans(u: View, v: View, w: View)
    requires Ext(u, v) && Ext(v, w)
    ensures Ext(u, w)
  {
    forall pc | 0 <= pc < |u.shapes| ensures w.shapes[pc] == u.shapes[pc] {
      assert v.shapes[pc] == u.shapes[pc];
    }
    forall pc | 0 <= pc < |u.code| ensures w.code[pc] == u.code[pc] {
      assert v.code[pc] == u.code[pc];
    }
  }

  lemma KeptTrans(u: View, v: View, w: View)
    requires Kept(u, v) && Kept(v, w)
    ensures Kept(u, w)
  {
    forall k | 0 <= k < |u.blocks| ensures SameBlock(u.blocks[k], w.blocks[k]) && w.conts[k] == u.conts[k] {
      assert SameBlock(u.blocks[k], v.blocks[k]) && SameBlock(v.blocks[k], w.blocks[k]);
    }
  }

  lemma GrownTrans(u: View, v: View, w: View)
    requires Grown(u, v) && Grown(v, w)
    ensures Grown(u, w)
  {
    ExtTrans(u, v, w);
    KeptTrans(u, v, w);
  }

  // ---- what the compiler does to its state

  function Appended(v: View, i: Instr, next: Shape): View {
    v.(code := v.code + [i], shapes := v.shapes + [next])
  }

  lemma InstrOkGrows(shapes: seq<Shape>, next: Shape, pc: nat, i: Instr)
    requires pc + 1 < |shapes| && InstrOk(shapes, pc, i)
    ensures InstrOk(shapes + [next], pc, i)
  {
  }

  lemma AppendedOthers(v: View, i: Instr, next: Shape)
    requires Inv(v)
    ensures var w := Appended(v, i, next);
      && Sized(w) && Ext(v, w) && (forall pc :: 0 <= pc < |v.code| ==> PcOk(w, pc))
      && (forall k :: 0 <= k < |w.blocks| ==> BlockOk(w, k))
  {
    hide InstrOk, BreakShape;
    var w := Appended(v, i, next);
    forall pc | 0 <= pc < |v.code| ensures PcOk(w, pc) {
      assert PcOk(v, pc);
      if pc !in v.open && !v.code[pc].Hole? {
        InstrOkGrows(v.shapes, next, pc, v.code[pc]);
      }
    }
    forall k | 0 <= k < |w.blocks| ensures BlockOk(w, k) {
      assert BlockOk(v, k);
    }
  }

  lemma AppendKeeps(v: View, i: Instr, next: Shape)
    requires Inv(v) && !i.Hole? && InstrOk(v.shapes + [next], |v.code|, i)
    ensures Inv(Appended(v, i, next)) && Ext(v, Appended(v, i, next))
    ensures Now(Appended(v, i, next)) == next
  {
    AppendedOthers(v, i, next);
    hide InstrOk, BlockOk, Ext;
    var w := Appended(v, i, next);
    forall pc | 0 <= pc < |w.code| ensures PcOk(w, pc) {
      if pc == |v.code| {
        assert |v.code| in v.open ==> |v.code| < |v.code|;
      }
    }
  }

  function AppendedOpen(v: View, i: Instr, next: Shape): View {
    Appended(v, i, next).(open := v.open + {|v.code|})
  }

  /** An instruction that whoever emits it will rewrite or declare finished. */
  lemma AppendOpenKeeps(v: View, i: Instr, next: Shape)
    requires Inv(v)
    ensures Inv(AppendedOpen(v, i, next)) && Ext(v, AppendedOpen(v, i, next)) && Now(AppendedOpen(v, i, next)) == next
  {
    AppendedOthers(v, i, next);
    hide InstrOk, BreakShape;
    var u, w := Appended(v, i, next), AppendedOpen(v, i, next);
    forall pc | 0 <= pc < |w.code| ensures PcOk(w, pc) {
      if pc < |v.code| {
        assert PcOk(u, pc);
      }
    }
    forall k | 0 <= k < |w.blocks| ensures BlockOk(w, k) {
      assert BlockOk(v, k) && BlockOk(u, k);
      forall pc | InLists(w.blocks[k], pc) ensures pc != |v.code| {
        assert Waits(v, k, pc);
      }
    }
  }

  function Rewritten(v: View, pc: nat, i: Instr): View
    requires pc < |v.code|
  {
    v.(code := v.code[pc := i], open := v.open - {pc})
  }

  lemma RewriteKeeps(v: View, pc: nat, i: Instr)
    requires Inv(v) && pc in v.open && !i.Hole? && InstrOk(v.shapes, pc, i)
    ensures Inv(Rewritten(v, pc, i))
    ensures forall u :: Ext(u, v) && |u.code| <= pc ==> Ext(u, Rewritten(v, pc, i))
  {
    hide InstrOk, BreakShape;
    var w := Rewritten(v, pc, i);
    forall p | 0 <= p < |w.code| ensures PcOk(w, p) {
      assert PcOk(v, p);
    }
    forall k | 0 <= k < |w.blocks| ensures BlockOk(w, k) {
      assert BlockOk(v, k);
      forall p | InLists(w.blocks[k], p) ensures p != pc {
        assert Waits(v, k, p);
      }
    }
  }

  function Pushed(v: View, b: Block, cont: Shape): View {
    v.(blocks := v.blocks + [b], conts := v.conts + [cont])
  }

  /** Blocks further in do not change where a break lands. */
  lemma BreakShapePushed(blocks: seq<Block>, b: Block, k: nat)
    requires k < |blocks|
    ensures BreakShape(blocks + [b], k) == BreakShape(blocks, k)
  {
    assert (blocks + [b])[..k] == blocks[..k];
  }

  lemma PushKeeps(v: View, b: Block, cont: Shape)
    requires Inv(v) && b.breaks == [] && b.conts == []
    ensures Inv(Pushed(v, b, cont)) && Kept(v, Pushed(v, b, cont)) && Ext(v, Pushed(v, b, cont))
  {
    hide InstrOk;
    var w := Pushed(v, b, cont);
    forall p | 0 <= p < |w.code| ensures PcOk(w, p) {
      assert PcOk(v, p);
    }
    forall k | 0 <= k < |w.blocks| ensures BlockOk(w, k) {
      if k < |v.blocks| {
        assert BlockOk(v, k);
        BreakShapePushed(v.blocks, b, k);
      }
    }
  }

  /** A placeholder on one of the lists of block k, which becomes c. */
  function Added(v: View, k: nat, c: Block, next: Shape): View
    requires k < |v.blocks|
  {
    Appended(v, Hole, next).(blocks := v.blocks[k := c], owner := v.owner[|v.code| := k])
  }

  function WithBreak(b: Block, pc: nat): Block { b.(breaks := b.breaks + [pc]) }

  function WithCont(b: Block, pc: nat): Block { b.(conts := b.conts + [pc]) }

  predicate OneMore(b: Block, c: Block, pc: nat) { c == WithBreak(b, pc) || c == WithCont(b, pc) }

  lemma AddedPcs(v: View, k: nat, c: Block, next: Shape)
    requires Inv(v) && k < |v.blocks| && OneMore(v.blocks[k], c, |v.code|)
    ensures var w := Added(v, k, c, next); Sized(w) && Ext(v, w) && forall pc :: 0 <= pc < |w.code| ==> PcOk(w, pc)
  {
    var u, w := Appended(v, Hole, next), Added(v, k, c, next);
    AppendedOthers(v, Hole, next);
    hide InstrOk, BlockOk;
    assert InLists(c, |v.code|);
    forall pc | 0 <= pc < |w.code| ensures PcOk(w, pc) {
      if pc < |v.code| {
        assert PcOk(u, pc);
      }
    }
  }

  lemma StillWaits(v: View, k: nat, c: Block, next: Shape, j: nat, pc: nat)
    requires Sized(v) && k < |v.blocks| && Waits(v, j, pc)
    ensures Waits(Added(v, k, c, next), j, pc)
  {
  }

  lemma AddedOtherBlocks(v: View, k: nat, c: Block, next: Shape, j: nat)
    requires Inv(v) && k < |v.blocks| && j < |v.blocks| && OneMore(v.blocks[k], c, |v.code|)
    ensures var w := Added(v, k, c, next);
      && (forall pc :: pc in v.blocks[j].breaks ==> BreakOk(w, j, pc))
      && (forall pc :: pc in v.blocks[j].conts ==> ContOk(w, j, pc))
  {
    var w := Added(v, k, c, next);
    ShapesByKind(v.blocks, w.blocks);
    hide BreakShape, PcOk, Waits;
    assert BlockOk(v, j);
    forall pc | pc in v.blocks[j].breaks ensures BreakOk(w, j, pc) {
      assert BreakOk(v, j, pc);
      StillWaits(v, k, c, next, j, pc);
      assert pc < |v.code| by {
        WaitsInside(v, j, pc);
      }
    }
    forall pc | pc in v.blocks[j].conts ensures ContOk(w, j, pc) {
      assert ContOk(v, j, pc);
      StillWaits(v, k, c, next, j, pc);
      assert pc < |v.code| by {
        WaitsInside(v, j, pc);
      }
    }
  }

  lemma WaitsInside(v: View, k: nat, pc: nat)
    requires |v.shapes| == |v.code| + 1 && Waits(v, k, pc)
    ensures pc < |v.code|
  {
  }

  lemma AddBreakKeeps(v: View, k: nat, next: Shape)
    requires Inv(v) && k < |v.blocks|
    requires if IsScope(v.blocks[k].typ) then Now(v) == next + [ScopeKind] else Now(v) == BreakShape(v.blocks, k)
    ensures var w := Added(v, k, WithBreak(v.blocks[k], |v.code|), next);
      Inv(w) && Ext(v, w) && Kept(v, w) && Now(w) == next && SameKinds(v.blocks, w.blocks)
  {
    var c := WithBreak(v.blocks[k], |v.code|);
    var w := Added(v, k, c, next);
    AddedPcs(v, k, c, next);
    ShapesByKind(v.blocks, w.blocks);
    ItemsInside(v, k);
    assert |v.code| !in v.open && |v.code| !in v.blocks[k].conts;
    assert BreakOk(w, k, |v.code|);
    hide BreakOk, ContOk, PcOk, BreakShape;
    forall j | 0 <= j < |w.blocks| ensures BlockOk(w, j) {
      AddedOtherBlocks(v, k, c, next, j);
      assert BlockOk(v, j);
    }
  }

  lemma AddContKeeps(v: View, k: nat, next: Shape)
    requires Inv(v) && k < |v.blocks| && IsLoop(v.blocks[k].typ) && Now(v) == v.conts[k]
    ensures var w := Added(v, k, WithCont(v.blocks[k], |v.code|), next);
      Inv(w) && Ext(v, w) && Kept(v, w) && Now(w) == next && SameKinds(v.blocks, w.blocks)
  {
    var c := WithCont(v.blocks[k], |v.code|);
    var w := Added(v, k, c, next);
    AddedPcs(v, k, c, next);
    assert |v.code| !in v.open;
    assert ContOk(w, k, |v.code|);
    hide BreakOk, ContOk, PcOk, BreakShape;
    forall j | 0 <= j < |w.blocks| ensures BlockOk(w, j) {
      AddedOtherBlocks(v, k, c, next, j);
      assert BlockOk(v, j);
    }
  }

  // ---- leaving a block

  /** The placeholders on a list have become jumps to one position. */
  ghost predicate PatchedTo(code: seq<Instr>, items: seq<nat>, target: nat) {
    forall pc :: pc in items ==> pc < |code| && code[pc] == Jump(target - pc)
  }

  ghost predicate PatchedWith(code: seq<Instr>, items: seq<nat>, i: Instr) {
    forall pc :: pc in items ==> pc < |code| && code[pc] == i
  }

  ghost predicate SameOutside(old_: seq<Instr>, new_: seq<Instr>, b: Block) {
    |new_| == |old_| && forall pc :: 0 <= pc < |old_| && !InLists(b, pc) ==> new_[pc] == old_[pc]
  }

  /** Where a block is left, its breaks go to the position to come, and its continues to the one set for them. */
  ghost predicate Left(v: View, code: seq<Instr>) {
    v.blocks != [] &&
    var b := v.blocks[|v.blocks| - 1];
    && SameOutside(v.code, code, b)
    && (if IsScope(b.typ) then PatchedWith(code, b.breaks, LeaveBlock) else PatchedTo(code, b.breaks, |v.code|))
    && PatchedTo(code, b.conts, b.cont)
  }

  function Popped(v: View, code: seq<Instr>): View
    requires v.blocks != [] && v.conts != []
  {
    v.(code := code, blocks := v.blocks[..|v.blocks| - 1], conts := v.conts[..|v.conts| - 1])
  }

  lemma LeaveKeepsPc(v: View, code: seq<Instr>, pc: nat)
    requires Inv(v) && Left(v, code) && pc < |v.code|
    requires var b := v.blocks[|v.blocks| - 1];
      && (!IsScope(b.typ) ==> Now(v) == BreakShape(v.blocks, |v.blocks| - 1))
      && (b.conts != [] ==> HasShape(v.shapes, b.cont, v.conts[|v.blocks| - 1]))
    ensures PcOk(Popped(v, code), pc)
  {
    var k := |v.blocks| - 1;
    var b := v.blocks[k];
    assert PcOk(v, pc) && BlockOk(v, k);
    if pc in b.breaks {
      assert Waits(v, k, pc);
    } else if pc in b.conts {
      assert Waits(v, k, pc);
    }
  }

  lemma LeaveKeeps(v: View, code: seq<Instr>)
    requires Inv(v) && Left(v, code)
    requires var b := v.blocks[|v.blocks| - 1];
      && (!IsScope(b.typ) ==> Now(v) == BreakShape(v.blocks, |v.blocks| - 1))
      && (b.conts != [] ==> HasShape(v.shapes, b.cont, v.conts[|v.blocks| - 1]))
    ensures Inv(Popped(v, code))
  {
    var w, k := Popped(v, code), |v.blocks| - 1;
    forall pc | 0 <= pc < |w.code| ensures PcOk(w, pc) {
      LeaveKeepsPc(v, code, pc);
    }
    hide PcOk, PatchedTo, PatchedWith;
    forall j | 0 <= j < |w.blocks| ensures BlockOk(w, j) {
      assert BlockOk(v, j) && BlockOk(v, k);
      assert w.blocks[..j] == v.blocks[..j];
      forall pc | InLists(w.blocks[j], pc) ensures Waits(w, j, pc) {
        assert Waits(v, j, pc);
        assert InLists(v.blocks[k], pc) ==> Waits(v, k, pc);
      }
    }
  }

  // ---- compiling a statement

  /** Compilation of a statement that started at u is at v; mine are its own positions still to be rewritten. */
  ghost predicate Mid(u: View, v: View, mine: set<nat>) {
    && |v.shapes| == |v.code| + 1 && |v.conts| == |v.blocks| && |u.code| <= |v.code|
    && Inv(v) && Ext(u, v) && Kept(u, v)
    && v.open == u.open + mine
    && (forall pc :: pc in u.open ==> pc < |u.code|)
    && (forall pc :: pc in mine ==> pc >= |u.code|)
  }

  lemma MidStart(u: View)
    requires Ready(u)
    ensures Mid(u, u, {}) && |u.shapes| == |u.code| + 1 && LoopsOk(u.blocks, u.conts) && Now(u) == Frames(u.blocks)
  {
  }

  lemma LoopsOkSame(u: View, v: View)
    requires LoopsOk(u.blocks, u.conts) && SameKinds(u.blocks, v.blocks) && u.conts == v.conts
    ensures LoopsOk(v.blocks, v.conts)
  {
    ShapesByKind(u.blocks, v.blocks);
  }

  lemma KeptKinds(u: View, v: View)
    requires Kept(u, v) && |v.blocks| == |u.blocks|
    ensures SameKinds(u.blocks, v.blocks) && u.conts == v.conts
  {
  }

  lemma MidEnd(u: View, v: View)
    requires Ready(u) && Mid(u, v, {}) && |v.blocks| == |u.blocks|
    requires Now(v) == Frames(u.blocks) || Now(v) == Frames(v.blocks)
    ensures Ready(v) && Grown(u, v)
  {
    hide Inv, LoopsOk, Ext;
    KeptKinds(u, v);
    LoopsOkSame(u, v);
    ShapesByKind(u.blocks, v.blocks);
  }

  /** A nested statement has been compiled. */
  lemma MidGrown(u: View, v: View, w: View, mine: set<nat>)
    requires Mid(u, v, mine) && Grown(v, w) && Ready(w)
    ensures Mid(u, w, mine) && Frames(w.blocks) == Frames(v.blocks) && |w.blocks| == |v.blocks|
    ensures |w.shapes| == |w.code| + 1 && |v.code| <= |w.code|
    ensures SameKinds(v.blocks, w.blocks)
  {
    ExtTrans(u, v, w);
    KeptTrans(u, v, w);
    KeptKinds(v, w);
    ShapesByKind(v.blocks, w.blocks);
  }

  lemma ExtAt(u: View, v: View, pc: nat)
    requires Ext(u, v) && pc < |u.shapes|
    ensures |v.shapes| == |v.code| + 1 && |u.code| <= |v.code| && pc < |v.shapes| && v.shapes[pc] == u.shapes[pc]
    ensures pc < |u.code| ==> v.code[pc] == u.code[pc]
  {
  }

  lemma MidAppend(u: View, v: View, mine: set<nat>, i: Instr, next: Shape)
    requires Mid(u, v, mine) && !i.Hole? && InstrOk(v.shapes + [next], |v.code|, i)
    ensures Mid(u, Appended(v, i, next), mine) && Now(Appended(v, i, next)) == next
  {
    hide Inv, InstrOk;
    AppendKeeps(v, i, next);
    ExtTrans(u, v, Appended(v, i, next));
  }

  lemma MidAppendOpen(u: View, v: View, mine: set<nat>, i: Instr, next: Shape)
    requires Mid(u, v, mine)
    ensures Mid(u, AppendedOpen(v, i, next), mine + {|v.code|}) && Now(AppendedOpen(v, i, next)) == next
    ensures |v.code| !in mine
  {
    AppendOpenKeeps(v, i, next);
    assert |v.code| !in v.open;
    hide Inv, InstrOk;
    ExtTrans(u, v, AppendedOpen(v, i, next));
    assert |u.code| <= |v.code|;
    assert v.open + {|v.code|} == u.open + (mine + {|v.code|});
  }

  lemma MidRewrite(u: View, v: View, mine: set<nat>, pc: nat, i: Instr)
    requires Mid(u, v, mine) && pc in mine && Sized(v) && pc < |v.code| && !i.Hole? && InstrOk(v.shapes, pc, i)
    ensures Mid(u, Rewritten(v, pc, i), mine - {pc}) && Now(Rewritten(v, pc, i)) == Now(v)
  {
    hide InstrOk;
    RewriteKeeps(v, pc, i);
    hide Inv;
    assert pc !in u.open;
    assert v.open - {pc} == u.open + (mine - {pc});
  }

  lemma MidPush(u: View, v: View, mine: set<nat>, b: Block, cont: Shape)
    requires Mid(u, v, mine) && b.breaks == [] && b.conts == []
    requires IsLoop(b.typ) ==> cont == Enter(Frames(v.blocks), b.typ)
    requires b.name.Some? ==> IsLoop(b.typ) || b.typ.BlockLabel?
    requires !b.typ.BlockIterScope? || v.blocks == [] || !v.blocks[|v.blocks| - 1].typ.BlockLoop?
    ensures Mid(u, Pushed(v, b, cont), mine) && Frames(Pushed(v, b, cont).blocks) == Enter(Frames(v.blocks), b.typ)
    ensures Now(Pushed(v, b, cont)) == Now(v)
    ensures LoopsOk(v.blocks, v.conts) ==> LoopsOk(Pushed(v, b, cont).blocks, Pushed(v, b, cont).conts)
  {
    var w := Pushed(v, b, cont);
    PushKeeps(v, b, cont);
    FramesPushed(v.blocks, b);
    hide Inv;
    ExtTrans(u, v, w);
    KeptTrans(u, v, w);
    if LoopsOk(v.blocks, v.conts) {
      PushLoopsOk(v, b, cont);
    }
  }

  lemma PushLoopsOk(v: View, b: Block, cont: Shape)
    requires LoopsOk(v.blocks, v.conts)
    requires IsLoop(b.typ) ==> cont == Enter(Frames(v.blocks), b.typ)
    requires b.name.Some? ==> IsLoop(b.typ) || b.typ.BlockLabel?
    requires !b.typ.BlockIterScope? || v.blocks == [] || !v.blocks[|v.blocks| - 1].typ.BlockLoop?
    ensures LoopsOk(Pushed(v, b, cont).blocks, Pushed(v, b, cont).conts)
  {
    var w := Pushed(v, b, cont);
    forall k | 0 <= k < |w.blocks| && IsLoop(w.blocks[k].typ) ensures w.conts[k] == ContShape(w.blocks, k) {
      assert w.blocks[..k] == v.blocks[..k];
    }
  }

  /** A for loop with a lexical declaration: the block of the loop, and in it that of its variables. */
  lemma MidPushFor(u: View, v: View, mine: set<nat>, b: Block, c: Block)
    requires Mid(u, v, mine) && b.typ.BlockLoop? && c.typ.BlockIterScope?
    requires b.breaks == [] && b.conts == [] && c.breaks == [] && c.conts == []
    ensures var w := Pushed(Pushed(v, b, Frames(v.blocks) + [ScopeKind]), c, []);
      Mid(u, w, mine) && Frames(w.blocks) == Frames(v.blocks) + [ScopeKind] && Now(w) == Now(v)
  {
    var cont := Frames(v.blocks) + [ScopeKind];
    var m := Pushed(v, b, cont);
    var w := Pushed(m, c, []);
    PushKeeps(v, b, cont);
    PushKeeps(m, c, []);
    FramesPushed(v.blocks, b);
    FramesPushed(m.blocks, c);
    hide Inv;
    ExtTrans(u, v, m);
    ExtTrans(u, m, w);
    KeptTrans(u, v, m);
    KeptTrans(u, m, w);
  }

  lemma PushForLoopsOk(v: View, b: Block, c: Block)
    requires LoopsOk(v.blocks, v.conts) && b.typ.BlockLoop? && c.typ.BlockIterScope? && c.name.None?
    ensures var w := Pushed(Pushed(v, b, Frames(v.blocks) + [ScopeKind]), c, []); LoopsOk(w.blocks, w.conts)
  {
    hide Frames;
    var w, n := Pushed(Pushed(v, b, Frames(v.blocks) + [ScopeKind]), c, []), |v.blocks|;
    assert w.blocks[n] == b && w.blocks[n + 1] == c && w.blocks[..n] == v.blocks;
    forall k | 0 <= k < n ensures w.blocks[k] == v.blocks[k] && w.blocks[..k] == v.blocks[..k] && w.conts[k] == v.conts[k] {
    }
    assert w.conts[n] == ContShape(w.blocks, n);
  }

  /** Leaving the last block, which was entered since u, touches nothing that was there at u. */
  lemma LeaveSince(u: View, v: View, code: seq<Instr>)
    requires Inv(u) && Inv(v) && Ext(u, v) && Kept(u, v) && |v.blocks| > |u.blocks| && Left(v, code) && u.open <= v.open
    ensures Ext(u, Popped(v, code)) && Kept(u, Popped(v, code))
  {
    var k := |v.blocks| - 1;
    var b := v.blocks[k];
    assert BlockOk(v, k);
    forall pc | 0 <= pc < |u.code| ensures !InLists(b, pc) {
      assert PcOk(u, pc);
      assert InLists(b, pc) ==> Waits(v, k, pc);
    }
    hide Inv, BlockOk, PcOk;
  }

  lemma MidLeave(u: View, v: View, mine: set<nat>, code: seq<Instr>)
    requires Inv(u) && Mid(u, v, mine) && |v.blocks| > |u.blocks| && Left(v, code)
    requires var b := v.blocks[|v.blocks| - 1];
      && (!IsScope(b.typ) ==> Now(v) == BreakShape(v.blocks, |v.blocks| - 1))
      && (b.conts != [] ==> HasShape(v.shapes, b.cont, v.conts[|v.blocks| - 1]))
    ensures Mid(u, Popped(v, code), mine) && Now(Popped(v, code)) == Now(v)
  {
    LeaveKeeps(v, code);
    LeaveSince(u, v, code);
  }

  /** Where a continue lands, in all loops but those of for statements that have just left the scope of
      their variables. */
  lemma PopLoopsOk(blocks: seq<Block>, conts: seq<Shape>)
    requires LoopsOk(blocks, conts) && |blocks| >= 1
    requires blocks[|blocks| - 1].typ.BlockIterScope? && |blocks| >= 2 ==> !blocks[|blocks| - 2].typ.BlockLoop?
    ensures LoopsOk(blocks[..|blocks| - 1], conts[..|conts| - 1])
  {
    hide Frames;
    var bs, cs := blocks[..|blocks| - 1], conts[..|conts| - 1];
    forall k | 0 <= k < |bs| && IsLoop(bs[k].typ) ensures cs[k] == ContShape(bs, k) {
      assert bs[..k] == blocks[..k];
    }
  }

  lemma MidAddBreak(u: View, v: View, mine: set<nat>, k: nat, next: Shape)
    requires Mid(u, v, mine) && k < |v.blocks|
    requires if IsScope(v.blocks[k].typ) then Now(v) == next + [ScopeKind] else Now(v) == BreakShape(v.blocks, k)
    ensures var w := Added(v, k, WithBreak(v.blocks[k], |v.code|), next);
      Mid(u, w, mine) && Now(w) == next && SameKinds(v.blocks, w.blocks)
  {
    AddBreakKeeps(v, k, next);
    hide Inv;
    var w := Added(v, k, WithBreak(v.blocks[k], |v.code|), next);
    ExtTrans(u, v, w);
    KeptTrans(u, v, w);
  }

  lemma MidAddCont(u: View, v: View, mine: set<nat>, k: nat, next: Shape)
    requires Mid(u, v, mine) && k < |v.blocks| && IsLoop(v.blocks[k].typ) && |v.conts| == |v.blocks| && Now(v) == v.conts[k]
    ensures var w := Added(v, k, WithCont(v.blocks[k], |v.code|), next);
      Mid(u, w, mine) && Now(w) == next && SameKinds(v.blocks, w.blocks)
  {
    AddContKeeps(v, k, next);
    hide Inv;
    var w := Added(v, k, WithCont(v.blocks[k], |v.code|), next);
    ExtTrans(u, v, w);
    KeptTrans(u, v, w);
  }

  lemma ItemsInside(v: View, k: nat)
    requires Inv(v) && k < |v.blocks|
    ensures forall pc :: pc in v.blocks[k].breaks || pc in v.blocks[k].conts ==> pc < |v.code|
    ensures forall pc :: pc in v.blocks[k].breaks ==> pc !in v.blocks[k].conts
    ensures !IsLoop(v.blocks[k].typ) ==> v.blocks[k].conts == []
  {
    assert BlockOk(v, k);
  }

  /** The blocks there were at u are inside of the same as then. */
  lemma MidOuter(u: View, v: View, mine: set<nat>)
    requires Mid(u, v, mine)
    ensures |u.blocks| <= |v.blocks| && SameKinds(u.blocks, v.blocks[..|u.blocks|])
    ensures Frames(v.blocks[..|u.blocks|]) == Frames(u.blocks)
    ensures |v.blocks| == |u.blocks| + 1 ==> Frames(v.blocks) == Enter(Frames(u.blocks), v.blocks[|u.blocks|].typ)
  {
    hide Inv, Ext;
    FramesByKind(u.blocks, v.blocks[..|u.blocks|]);
  }

  lemma GrownAt(u: View, v: View, pc: nat)
    requires Grown(u, v) && pc < |u.shapes|
    ensures |v.shapes| == |v.code| + 1 && |u.code| <= |v.code| && pc < |v.shapes| && v.shapes[pc] == u.shapes[pc]
    ensures pc < |u.code| ==> v.code[pc] == u.code[pc]
  {
    ExtAt(u, v, pc);
  }

  lemma ReadySelf(u: View)
    requires Ready(u)
    ensures Grown(u, u)
  {
  }

  lemma GrownBlock(u: View, v: View, k: nat)
    requires Grown(u, v) && k < |u.blocks|
    ensures |v.blocks| == |u.blocks| && |v.conts| == |v.blocks| && |u.conts| == |u.blocks|
    ensures SameBlock(u.blocks[k], v.blocks[k]) && v.conts[k] == u.conts[k]
  {
  }

  function WithContAt(v: View, k: nat, pos: nat): View
    requires k < |v.blocks|
  {
    v.(blocks := v.blocks[k := v.blocks[k].(cont := pos)])
  }

  /** Setting where the continues of a block that was entered since u will go. */
  lemma MidSetCont(u: View, v: View, mine: set<nat>, k: nat, pos: nat)
    requires Mid(u, v, mine) && |u.blocks| <= k < |v.blocks|
    ensures Mid(u, WithContAt(v, k, pos), mine) && SameKinds(v.blocks, WithContAt(v, k, pos).blocks)
    ensures Frames(WithContAt(v, k, pos).blocks) == Frames(v.blocks)
    ensures LoopsOk(v.blocks, v.conts) ==> LoopsOk(WithContAt(v, k, pos).blocks, v.conts)
  {
    hide InstrOk;
    var w := WithContAt(v, k, pos);
    ShapesByKind(v.blocks, w.blocks);
    hide Frames, BreakShape, ContShape;
    forall pc | 0 <= pc < |w.code| ensures PcOk(w, pc) {
      assert PcOk(v, pc);
    }
    forall j | 0 <= j < |w.blocks| ensures BlockOk(w, j) {
      assert BlockOk(v, j);
    }
  }

  lemma ExtAtMid(u: View, v: View, mine: set<nat>)
    requires Mid(u, v, mine)
    ensures |v.shapes| == |v.code| + 1 && |u.code| <= |v.code| && |v.conts| == |v.blocks|
  {
  }

  lemma GrownExt(u: View, v: View, w: View)
    requires Grown(u, v) && Ext(v, w)
    ensures Ext(u, w)
  {
    ExtTrans(u, v, w);
  }

  lemma AppendExt(v: View, i: Instr, next: Shape)
    requires |v.shapes| == |v.code| + 1
    ensures Ext(v, Appended(v, i, next))
  {
  }

  lemma ExtSelf(u: View)
    requires |u.shapes| == |u.code| + 1
    ensures Ext(u, u)
  {
  }

  lemma GrownShapes(u: View, v: View)
    requires Grown(u, v)
    ensures u.shapes <= v.shapes && |u.code| <= |v.code| && |v.shapes| == |v.code| + 1
  {
  }

  /** Leaving a block does not touch positions that are still to be rewritten. */
  lemma OpenStays(u: View, v: View, mine: set<nat>, code: seq<Instr>, pc: nat)
    requires Mid(u, v, mine) && Left(v, code) && pc in mine && pc < |v.code|
    ensures |code| == |v.code| && code[pc] == v.code[pc]
  {
    assert BlockOk(v, |v.blocks| - 1);
  }
}
