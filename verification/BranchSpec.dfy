/** The instructions that enter and leave scopes, try statements and iterations, the machine that executes
    them, and the condition under which no run of it ever loses track of what it is inside of. */
module BranchSpec {
  /** What execution can be inside of; a shape lists these, outermost first. */
  datatype Kind = ScopeKind | WithKind | TryKind | IterKind

  type Shape = seq<Kind>

  /** Hole is a placeholder still to be patched. Op stands for the instructions that evaluate one expression, told apart by its
      id; JumpIf and JumpUnless take the value off the stack, and Pop drops one. IterNext jumps when the iteration is over. */
  datatype Instr =
    | Hole
    | Op(id: nat)
    | Pop
    | Jump(offset: int)
    | JumpIf(offset: int)
    | JumpUnless(offset: int)
    | EnterBlock
    | LeaveBlock
    | Try(catchOffset: int, finallyOffset: int)
    | LeaveTry
    | EnterFinally
    | LeaveFinally
    | EnterWith
    | LeaveWith
    | Iterate
    | IterNext(offset: int)
    | EnumPop
    | EnumPopClose
    | CopyStash

  /** The scope, try and iterator stacks of the machine, merged in the order in which they were entered.
      Positions are -1 where there is none. */
  datatype Frame =
    | ScopeFrame
    | WithFrame
    | IterFrame
    | TryFrame(catchPos: int, finallyPos: int, finallyRet: int, exception: bool)

  datatype State =
    | Running(pc: nat, frames: seq<Frame>)
    | Thrown    // an exception nobody catches
    | Stuck     // a placeholder, or leaving what execution is not inside of

  /** What the environment decides at an instruction: to throw, or how a test comes out. */
  datatype Choice = Throw | Go(yes: bool)

  function KindOf(f: Frame): Kind {
    match f
    case ScopeFrame => ScopeKind
    case WithFrame => WithKind
    case IterFrame => IterKind
    case TryFrame(_, _, _, _) => TryKind
  }

  function ShapeOf(frames: seq<Frame>): (s: Shape)
    ensures |s| == |frames| && forall i :: 0 <= i < |s| ==> s[i] == KindOf(frames[i])
  {
    if frames == [] then [] else ShapeOf(frames[..|frames| - 1]) + [KindOf(frames[|frames| - 1])]
  }

  function Handle(frames: seq<Frame>): State {
    if frames == [] then Thrown
    else
      var rest, f := frames[..|frames| - 1], frames[|frames| - 1];
      if f.TryFrame? && f.catchPos >= 0 then Running(f.catchPos, rest + [f.(catchPos := -1)])
      else if f.TryFrame? && f.finallyPos >= 0 then
        Running(f.finallyPos, rest + [f.(finallyPos := -1, finallyRet := -1, exception := true)])
      else Handle(rest)
  }

  function LeaveTop(k: Kind, pc: int, frames: seq<Frame>): State {
    if pc >= 0 && frames != [] && KindOf(frames[|frames| - 1]) == k then Running(pc, frames[..|frames| - 1]) else Stuck
  }

  function At(pc: int, frames: seq<Frame>): State {
    if pc >= 0 then Running(pc, frames) else Stuck
  }

  function Position(pc: nat, offset: int): int {
    if offset > 0 then pc + offset else -1
  }

  /** One instruction. */
  function Exec(i: Instr, pc: nat, frames: seq<Frame>, yes: bool): State {
    var top := if frames == [] then ScopeFrame else frames[|frames| - 1];
    match i
    case Hole => Stuck
    case Op(_) => Running(pc + 1, frames)
    case Pop => Running(pc + 1, frames)
    case Jump(d) => At(pc + d, frames)
    case JumpIf(d) => At(if yes then pc + d else pc + 1, frames)
    case JumpUnless(d) => At(if yes then pc + 1 else pc + d, frames)
    case EnterBlock => Running(pc + 1, frames + [ScopeFrame])
    case LeaveBlock => LeaveTop(ScopeKind, pc + 1, frames)
    case Try(c, f) => Running(pc + 1, frames + [TryFrame(Position(pc, c), Position(pc, f), -1, false)])
    case LeaveTry =>
      if top.TryFrame? && top.finallyPos >= 0 then
        Running(top.finallyPos,
                frames[..|frames| - 1] + [top.(catchPos := -1, finallyPos := -1, finallyRet := pc + 1)])
      else LeaveTop(TryKind, pc + 1, frames)
    case EnterFinally =>
      if top.TryFrame? then Running(pc + 1, frames[..|frames| - 1] + [top.(finallyPos := -1)]) else Stuck
    case LeaveFinally =>
      if !top.TryFrame? then Stuck
      else if top.exception then Handle(frames[..|frames| - 1])
      else At(if top.finallyRet != -1 then top.finallyRet else pc + 1, frames[..|frames| - 1])
    case EnterWith => Running(pc + 1, frames + [WithFrame])
    case LeaveWith => LeaveTop(WithKind, pc + 1, frames)
    case Iterate => Running(pc + 1, frames + [IterFrame])
    case IterNext(d) => if top.IterFrame? then At(if yes then pc + d else pc + 1, frames) else Stuck
    case EnumPop => LeaveTop(IterKind, pc + 1, frames)
    case EnumPopClose => LeaveTop(IterKind, pc + 1, frames)
    case CopyStash => if top.ScopeFrame? then Running(pc + 1, frames) else Stuck
  }

  /** One step; any instruction may throw. Execution stays at the end of the code once it is there. */
  function Step(code: seq<Instr>, s: State, c: Choice): State {
    if !s.Running? || s.pc == |code| then s
    else if s.pc > |code| then Stuck
    else if c.Throw? then Handle(s.frames)
    else Exec(code[s.pc], s.pc, s.frames, c.yes)
  }

  function Run(code: seq<Instr>, s: State, cs: seq<Choice>): State
    decreases |cs|
  {
    if cs == [] then s else Run(code, Step(code, s, cs[0]), cs[1..])
  }

  // ---- which shape belongs to which position

  predicate InRange(shapes: seq<Shape>, pc: int) { 0 <= pc < |shapes| }

  predicate HasShape(shapes: seq<Shape>, pc: int, s: Shape) {
    InRange(shapes, pc) && shapes[pc] == s
  }

  /** The instruction at pc agrees with the shapes at pc and at wherever execution goes from there. */
  predicate InstrOk(shapes: seq<Shape>, pc: nat, i: Instr)
    requires pc + 1 < |shapes|
  {
    var s, next := shapes[pc], shapes[pc + 1];
    match i
    case Hole => false
    case Op(_) => next == s
    case Pop => next == s
    case Jump(d) => HasShape(shapes, pc + d, s)
    case JumpIf(d) => next == s && HasShape(shapes, pc + d, s)
    case JumpUnless(d) => next == s && HasShape(shapes, pc + d, s)
    case EnterBlock => next == s + [ScopeKind]
    case LeaveBlock => s == next + [ScopeKind]
    case Try(c, f) => next == s + [TryKind] && (c > 0 ==> HasShape(shapes, pc + c, next)) && (f > 0 ==> HasShape(shapes, pc + f, next))
    case LeaveTry => s == next + [TryKind]
    case EnterFinally => next == s && s != [] && s[|s| - 1] == TryKind
    case LeaveFinally => s == next + [TryKind]
    case EnterWith => next == s + [WithKind]
    case LeaveWith => s == next + [WithKind]
    case Iterate => next == s + [IterKind]
    case IterNext(d) => next == s && s != [] && s[|s| - 1] == IterKind && HasShape(shapes, pc + d, s)
    case EnumPop => s == next + [IterKind]
    case EnumPopClose => s == next + [IterKind]
    case CopyStash => next == s && s != [] && s[|s| - 1] == ScopeKind
  }

  ghost predicate CodeOk(code: seq<Instr>, shapes: seq<Shape>) {
    |shapes| == |code| + 1 && forall pc :: 0 <= pc < |code| ==> InstrOk(shapes, pc, code[pc])
  }

  /** Where a frame may send execution agrees with the shapes. below is what the frame is inside of. */
  predicate FrameOk(shapes: seq<Shape>, below: Shape, f: Frame) {
    f.TryFrame? ==>
      && (f.catchPos >= 0 ==> HasShape(shapes, f.catchPos, below + [TryKind]))
      && (f.finallyPos >= 0 ==> HasShape(shapes, f.finallyPos, below + [TryKind]))
      && (f.finallyRet != -1 ==> HasShape(shapes, f.finallyRet, below))
  }

  predicate FramesOk(shapes: seq<Shape>, frames: seq<Frame>) {
    if frames == [] then true
    else
      var rest, f := frames[..|frames| - 1], frames[|frames| - 1];
      FramesOk(shapes, rest) && FrameOk(shapes, ShapeOf(rest), f)
  }

  /** Execution is inside of exactly what its position says. */
  ghost predicate OnTrack(shapes: seq<Shape>, s: State) {
    match s
    case Running(pc, frames) => HasShape(shapes, pc, ShapeOf(frames)) && FramesOk(shapes, frames)
    case Thrown => true
    case Stuck => false
  }

  lemma ShapeOfPushed(frames: seq<Frame>, f: Frame)
    ensures ShapeOf(frames + [f]) == ShapeOf(frames) + [KindOf(f)]
  {
    assert (frames + [f])[..|frames|] == frames;
  }

  lemma FramesPushed(shapes: seq<Shape>, frames: seq<Frame>, f: Frame)
    requires FramesOk(shapes, frames) && FrameOk(shapes, ShapeOf(frames), f)
    ensures FramesOk(shapes, frames + [f])
  {
    assert (frames + [f])[..|frames|] == frames;
  }

  lemma {:induction false} HandleKeepsTrack(shapes: seq<Shape>, frames: seq<Frame>)
    requires FramesOk(shapes, frames)
    ensures OnTrack(shapes, Handle(frames))
    decreases |frames|
  {
    if frames != [] {
      var rest, f := frames[..|frames| - 1], frames[|frames| - 1];
      if f.TryFrame? && f.catchPos >= 0 {
        var g := f.(catchPos := -1);
        ShapeOfPushed(rest, g);
        FramesPushed(shapes, rest, g);
      } else if f.TryFrame? && f.finallyPos >= 0 {
        var g := f.(finallyPos := -1, finallyRet := -1, exception := true);
        ShapeOfPushed(rest, g);
        FramesPushed(shapes, rest, g);
      } else {
        HandleKeepsTrack(shapes, rest);
      }
    }
  }

  /** What the top of the frames is, if the shape has a top. */
  lemma TopOf(frames: seq<Frame>, s: Shape, k: Kind)
    requires ShapeOf(frames) == s + [k]
    ensures frames != [] && KindOf(frames[|frames| - 1]) == k && ShapeOf(frames[..|frames| - 1]) == s
  {
    assert ShapeOf(frames)[|frames| - 1] == k;
    assert (s + [k])[..|s|] == s;
    assert (ShapeOf(frames[..|frames| - 1]) + [KindOf(frames[|frames| - 1])])[..|s|] == ShapeOf(frames[..|frames| - 1]);
  }

  lemma PushKeepsTrack(shapes: seq<Shape>, pc: nat, frames: seq<Frame>, f: Frame)
    requires FramesOk(shapes, frames) && FrameOk(shapes, ShapeOf(frames), f)
    requires HasShape(shapes, pc, ShapeOf(frames) + [KindOf(f)])
    ensures OnTrack(shapes, Running(pc, frames + [f]))
  {
    ShapeOfPushed(frames, f);
    FramesPushed(shapes, frames, f);
  }

  lemma PopKeepsTrack(shapes: seq<Shape>, pc: nat, frames: seq<Frame>, k: Kind)
    requires FramesOk(shapes, frames) && InRange(shapes, pc) && ShapeOf(frames) == shapes[pc] + [k]
    ensures OnTrack(shapes, LeaveTop(k, pc, frames))
    ensures frames != [] && OnTrack(shapes, Running(pc, frames[..|frames| - 1]))
  {
    TopOf(frames, shapes[pc], k);
  }

  /** A try frame on top may be changed as long as its positions stay right. */
  lemma ReplaceKeepsTrack(shapes: seq<Shape>, pc: nat, frames: seq<Frame>, g: Frame)
    requires FramesOk(shapes, frames) && frames != [] && frames[|frames| - 1].TryFrame? && g.TryFrame?
    requires FrameOk(shapes, ShapeOf(frames[..|frames| - 1]), g) && HasShape(shapes, pc, ShapeOf(frames))
    ensures OnTrack(shapes, Running(pc, frames[..|frames| - 1] + [g]))
  {
    PushKeepsTrack(shapes, pc, frames[..|frames| - 1], g);
  }

  lemma LeavesKeepTrack(shapes: seq<Shape>, pc: nat, i: Instr, frames: seq<Frame>, yes: bool)
    requires pc + 1 < |shapes| && InstrOk(shapes, pc, i) && OnTrack(shapes, Running(pc, frames))
    requires i.LeaveTry? || i.EnterFinally? || i.LeaveFinally?
    ensures OnTrack(shapes, Exec(i, pc, frames, yes))
  {
    var s := if i.EnterFinally? then shapes[pc][..|shapes[pc]| - 1] else shapes[pc + 1];
    assert shapes[pc] == s + [TryKind];
    TopOf(frames, s, TryKind);
    var top, rest := frames[|frames| - 1], frames[..|frames| - 1];
    if i.EnterFinally? {
      ReplaceKeepsTrack(shapes, pc + 1, frames, top.(finallyPos := -1));
    } else if i.LeaveTry? {
      if top.finallyPos >= 0 {
        ReplaceKeepsTrack(shapes, top.finallyPos, frames, top.(catchPos := -1, finallyPos := -1, finallyRet := pc + 1));
      }
    } else if top.exception {
      HandleKeepsTrack(shapes, rest);
    }
  }

  lemma ExecKeepsTrack(shapes: seq<Shape>, pc: nat, i: Instr, frames: seq<Frame>, yes: bool)
    requires pc + 1 < |shapes| && InstrOk(shapes, pc, i) && OnTrack(shapes, Running(pc, frames))
    ensures OnTrack(shapes, Exec(i, pc, frames, yes))
  {
    hide ShapeOf, FramesOk, Handle;
    if i.LeaveTry? || i.EnterFinally? || i.LeaveFinally? {
      LeavesKeepTrack(shapes, pc, i, frames, yes);
    } else if i.EnterBlock? {
      PushKeepsTrack(shapes, pc + 1, frames, ScopeFrame);
    } else if i.EnterWith? {
      PushKeepsTrack(shapes, pc + 1, frames, WithFrame);
    } else if i.Iterate? {
      PushKeepsTrack(shapes, pc + 1, frames, IterFrame);
    } else if i.Try? {
      PushKeepsTrack(shapes, pc + 1, frames, TryFrame(Position(pc, i.catchOffset), Position(pc, i.finallyOffset), -1, false));
    } else if i.LeaveBlock? {
      PopKeepsTrack(shapes, pc + 1, frames, ScopeKind);
    } else if i.LeaveWith? {
      PopKeepsTrack(shapes, pc + 1, frames, WithKind);
    } else if i.EnumPop? || i.EnumPopClose? {
      PopKeepsTrack(shapes, pc + 1, frames, IterKind);
    }
  }

  lemma StepKeepsTrack(code: seq<Instr>, shapes: seq<Shape>, s: State, c: Choice)
    requires CodeOk(code, shapes) && OnTrack(shapes, s)
    ensures OnTrack(shapes, Step(code, s, c))
  {
    hide ShapeOf, FramesOk, Exec, Handle;
    if s.Running? && s.pc < |code| {
      if c.Throw? {
        HandleKeepsTrack(shapes, s.frames);
      } else {
        ExecKeepsTrack(shapes, s.pc, code[s.pc], s.frames, c.yes);
      }
    }
  }

  /** No run of code whose instructions agree with its shapes gets stuck or loses track, whatever throws
      and whichever way the tests go. */
  lemma {:induction false} RunKeepsTrack(code: seq<Instr>, shapes: seq<Shape>, s: State, cs: seq<Choice>)
    requires CodeOk(code, shapes) && OnTrack(shapes, s)
    ensures OnTrack(shapes, Run(code, s, cs))
    decreases |cs|
  {
    hide CodeOk, OnTrack, Step;
    if cs != [] {
      StepKeepsTrack(code, shapes, s, cs[0]);
      RunKeepsTrack(code, shapes, Step(code, s, cs[0]), cs[1..]);
    }
  }

  /** Two runs that arrive at the same position, by whatever jumps, falls or exceptions, are inside of the same. */
  lemma SameInsideAtSamePlace(code: seq<Instr>, shapes: seq<Shape>, cs: seq<Choice>, ds: seq<Choice>)
    requires CodeOk(code, shapes) && shapes[0] == []
    requires var a, b := Run(code, Running(0, []), cs), Run(code, Running(0, []), ds); a.Running? && b.Running? && a.pc == b.pc
    ensures ShapeOf(Run(code, Running(0, []), cs).frames) == ShapeOf(Run(code, Running(0, []), ds).frames)
  {
    hide Run;
    RunKeepsTrack(code, shapes, Running(0, []), cs);
    RunKeepsTrack(code, shapes, Running(0, []), ds);
  }
}
