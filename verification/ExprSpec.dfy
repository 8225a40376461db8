/** Expressions, their direct evaluation, the instructions they compile to, and the code the compiler
    emits for them, as functions. */
module ExprSpec {
  import opened Options

  datatype Value =
    | Undefined | Null | NaN | Bool(b: bool) | Num(n: int) | Str(s: string)
    | Object(id: nat) | ErrorConstructor(name: string) | ErrorObject(name: string, message: Option<string>)

  predicate IsPrimitive(v: Value) {
    !v.Object? && !v.ErrorConstructor? && !v.ErrorObject?
  }

  predicate Truthy(v: Value) {
    match v
    case Undefined | Null | NaN => false
    case Bool(b) => b
    case Num(n) => n != 0
    case Str(s) => s != ""
    case _ => true
  }

  predicate Nullish(v: Value) {
    v.Undefined? || v.Null?
  }

  /** Exactly six values count as false, and two as missing. */
  lemma TruthyIs(v: Value)
    ensures Truthy(v) <==> v !in {Undefined, Null, NaN, Bool(false), Num(0), Str("")}
    ensures Nullish(v) <==> v in {Undefined, Null}
  {
  }

  datatype Result = Ok(value: Value) | Raise(error: Value)

  type Op = nat  // the binary operators

  /** The unary operators but delete, ++ and --; void is another kind of expression. */
  datatype UnaryOp = Not | BitNot | Typeof | Minus | Plus

  /** What the language gives: operators on primitive operands, operators on other operands (which may
      run user code), all other expressions, which push one value or throw, what names denote, and
      constructors other than those of errors. */
  datatype Semantics<!W> = Semantics(onPrimitives: (Op, Value, Value) -> Result,
                                     onObjects: (Op, Value, Value, W) -> (W, Result),
                                     onPrimitive: (UnaryOp, Value) -> Result,
                                     onObject: (UnaryOp, Value, W) -> (W, Result),
                                     other: (nat, W) -> (W, Result),
                                     denotes: (string, W) -> (W, Result),
                                     construct: (Value, seq<Value>, W) -> (W, Result),
                                     evalWorld: W)  // the world of the compiler's own machine

  predicate IsStandardError(v: Value) {
    v.ErrorObject? && (v.name == "TypeError" || v.name == "RangeError")
  }

  predicate PrimitiveOrError(r: Result) {
    match r case Ok(v) => IsPrimitive(v) case Raise(x) => IsStandardError(x)
  }

  /** Operators on primitives yield primitives or raise one of the two errors emitThrow knows. On the
      compiler's own machine, which runs no user code, error constructors go by their names. */
  ghost predicate Lawful<W>(sem: Semantics<W>) {
    && (forall op, a, b :: IsPrimitive(a) && IsPrimitive(b) ==> PrimitiveOrError(sem.onPrimitives(op, a, b)))
    && (forall op, a :: IsPrimitive(a) ==> PrimitiveOrError(sem.onPrimitive(op, a)))
    && (forall name :: sem.denotes(name, sem.evalWorld) == (sem.evalWorld, Ok(ErrorConstructor(name))))
  }

  function Apply<W>(sem: Semantics<W>, op: Op, a: Value, b: Value, w: W): (W, Result) {
    if IsPrimitive(a) && IsPrimitive(b) then (w, sem.onPrimitives(op, a, b)) else sem.onObjects(op, a, b, w)
  }

  function ApplyUnary<W>(sem: Semantics<W>, op: UnaryOp, a: Value, w: W): (W, Result) {
    if IsPrimitive(a) then (w, sem.onPrimitive(op, a)) else sem.onObject(op, a, w)
  }

  /** Calling a constructor, with a message or without. */
  function Construct<W>(sem: Semantics<W>, c: Value, message: Option<string>, w: W): (W, Result) {
    if c.ErrorConstructor? then (w, Ok(ErrorObject(c.name, message)))
    else sem.construct(c, if message.Some? then [Str(message.value)] else [], w)
  }

  /** What creating an error by the name of its constructor, and throwing it, throws. */
  function Rethrown<W>(sem: Semantics<W>, x: Value, w: W): (W, Value)
    requires x.ErrorObject?
  {
    match sem.denotes(x.name, w)
    case (w1, Raise(y)) => (w1, y)
    case (w1, Ok(c)) =>
      match Construct(sem, c, x.message, w1)
      case (w2, Ok(y)) => (w2, y)
      case (w2, Raise(y)) => (w2, y)
  }

  /** That is the same error. */
  ghost predicate Rebuilds<W>(sem: Semantics<W>, x: Value, w: W)
    requires x.ErrorObject?
  {
    Rethrown(sem, x, w) == (w, x)
  }

  // ---------------------------------------------------------------- expressions

  datatype Expr =
    | Literal(v: Value)
    | Other(id: nat)
    | Unary(uop: UnaryOp, operand: Expr)
    | Void(operand: Expr)
    | Binary(op: Op, left: Expr, right: Expr)
    | Conditional(test: Expr, consequent: Expr, alternate: Expr)
    | Sequence(items: seq<Expr>)
    | LogicalOr(left: Expr, right: Expr)
    | LogicalAnd(left: Expr, right: Expr)
    | Coalesce(left: Expr, right: Expr)

  /** Literals are primitive and sequences are not empty, as the parser makes them. */
  ghost predicate WellFormed(e: Expr) {
    match e
    case Literal(v) => IsPrimitive(v)
    case Other(_) => true
    case Unary(_, o) => WellFormed(o)
    case Void(o) => WellFormed(o)
    case Binary(_, l, r) => WellFormed(l) && WellFormed(r)
    case Conditional(t, c, a) => WellFormed(t) && WellFormed(c) && WellFormed(a)
    case Sequence(es) => es != [] && forall i :: 0 <= i < |es| ==> WellFormed(es[i])
    case LogicalOr(l, r) => WellFormed(l) && WellFormed(r)
    case LogicalAnd(l, r) => WellFormed(l) && WellFormed(r)
    case Coalesce(l, r) => WellFormed(l) && WellFormed(r)
  }

  /** Does a value on the left decide a logical expression? */
  predicate Decides(e: Expr, v: Value)
    requires e.LogicalOr? || e.LogicalAnd? || e.Coalesce?
  {
    match e
    case LogicalOr(_, _) => Truthy(v)
    case LogicalAnd(_, _) => !Truthy(v)
    case Coalesce(_, _) => !Nullish(v)
  }

  predicate IsLogical(e: Expr) {
    e.LogicalOr? || e.LogicalAnd? || e.Coalesce?
  }

  function Eval<W>(sem: Semantics<W>, e: Expr, w: W): (W, Result)
    decreases e, 1
  {
    match e
    case Literal(v) => (w, Ok(v))
    case Other(id) => sem.other(id, w)
    case Unary(op, o) =>
      (match Eval(sem, o, w)
       case (w1, Ok(a)) => ApplyUnary(sem, op, a, w1)
       case raised => raised)
    case Void(o) =>
      (match Eval(sem, o, w)
       case (w1, Ok(_)) => (w1, Ok(Undefined))
       case raised => raised)
    case Binary(op, l, r) =>
      (match Eval(sem, l, w)
       case (w1, Ok(a)) =>
         (match Eval(sem, r, w1)
          case (w2, Ok(b)) => Apply(sem, op, a, b, w2)
          case raised => raised)
       case raised => raised)
    case Conditional(t, c, a) =>
      (match Eval(sem, t, w)
       case (w1, Ok(v)) => if Truthy(v) then Eval(sem, c, w1) else Eval(sem, a, w1)
       case raised => raised)
    case Sequence(es) => EvalItems(sem, es, w)
    case _ =>
      match Eval(sem, e.left, w)
      case (w1, Ok(v)) => if Decides(e, v) then (w1, Ok(v)) else Eval(sem, e.right, w1)
      case raised => raised
  }

  function EvalItems<W>(sem: Semantics<W>, es: seq<Expr>, w: W): (W, Result)
    decreases es, 0
  {
    if es == [] then (w, Ok(Undefined))
    else if |es| == 1 then Eval(sem, es[0], w)
    else
      match Eval(sem, es[0], w)
      case (w1, Ok(_)) => EvalItems(sem, es[1..], w1)
      case raised => raised
  }

  // ---------------------------------------------------------------- the machine

  datatype Instr =
    | Hole  // a place to be patched
    | LoadVal(v: Value) | Pop
    | Jump(n: int) | JneP(n: int) | Jeq(n: int) | Jne(n: int) | Jcoalesc(n: int)
    | BinaryOp(op: Op) | UnaryInstr(uop: UnaryOp) | Ext(id: nat)
    | LoadDynamic(name: string) | New(args: nat) | Throw

  datatype Outcome<W> = Halted(stack: seq<Value>, w: W) | Raised(error: Value, w: W) | Stuck

  function Top(stack: seq<Value>): Value
    requires stack != []
  {
    stack[|stack| - 1]
  }

  function Drop(stack: seq<Value>): seq<Value>
    requires stack != []
  {
    stack[..|stack| - 1]
  }

  /** What one instruction does: it moves pc by n, or it ends the run. */
  datatype Effect<W> = Go(n: int, stack: seq<Value>, w: W) | End(outcome: Outcome<W>)

  function Push1<W>(stack: seq<Value>, r: (W, Result)): Effect<W> {
    match r.1
    case Ok(v) => Go(1, stack + [v], r.0)
    case Raise(x) => End(Raised(x, r.0))
  }

  function Exec<W>(sem: Semantics<W>, i: Instr, stack: seq<Value>, w: W): Effect<W> {
    match i
    case Hole => End(Stuck)
    case LoadVal(v) => Go(1, stack + [v], w)
    case Pop => if stack == [] then End(Stuck) else Go(1, Drop(stack), w)
    case Jump(n) => Go(n, stack, w)
    case JneP(n) =>
      if stack == [] then End(Stuck) else Go(if !Truthy(Top(stack)) then n else 1, Drop(stack), w)
    case Jeq(n) =>
      if stack == [] then End(Stuck) else if Truthy(Top(stack)) then Go(n, stack, w) else Go(1, Drop(stack), w)
    case Jne(n) =>
      if stack == [] then End(Stuck) else if !Truthy(Top(stack)) then Go(n, stack, w) else Go(1, Drop(stack), w)
    case Jcoalesc(n) =>
      if stack == [] then End(Stuck) else if Nullish(Top(stack)) then Go(1, Drop(stack), w) else Go(n, stack, w)
    case BinaryOp(op) =>
      if |stack| < 2 then End(Stuck)
      else
        Push1(Drop(Drop(stack)), Apply(sem, op, Top(Drop(stack)), Top(stack), w))
    case UnaryInstr(op) =>
      if stack == [] then End(Stuck) else Push1(Drop(stack), ApplyUnary(sem, op, Top(stack), w))
    case Ext(id) => Push1(stack, sem.other(id, w))
    case LoadDynamic(name) => Push1(stack, sem.denotes(name, w))
    case New(n) =>
      if |stack| < n + 1 || n > 1 || (n == 1 && !Top(stack).Str?) then End(Stuck)
      else
        Push1(stack[..|stack| - 1 - n],
          Construct(sem, stack[|stack| - 1 - n], if n == 1 then Some(Top(stack).s) else None, w))
    case Throw => if stack == [] then End(Stuck) else End(Raised(Top(stack), w))
  }

  /** Runs from pc until pc leaves the code. A jump that does not go forward is none the compiler emits
      here, and gets stuck. */
  function Run<W>(sem: Semantics<W>, code: seq<Instr>, pc: nat, stack: seq<Value>, w: W): Outcome<W>
    decreases |code| - pc
  {
    if pc >= |code| then Halted(stack, w)
    else
      match Exec(sem, code[pc], stack, w)
      case Go(n, s, w1) => if n <= 0 then Stuck else Run(sem, code, pc + n, s, w1)
      case End(outcome) => outcome
  }

  // ---------------------------------------------------------------- the emitted code

  function ThrowCode(x: Value): seq<Instr>
    requires x.ErrorObject?
  {
    match x.message
    case Some(m) => [LoadDynamic(x.name), LoadVal(Str(m)), New(1), Throw]
    case None => [LoadDynamic(x.name), New(0), Throw]
  }

  /** Folding runs the code emitted for the expression on the compiler's own machine. */
  function EvalConst<W>(sem: Semantics<W>, e: Expr): Result
    decreases e, 2
  {
    if e.Literal? then Ok(e.v)
    else
      match Run(sem, Getter(sem, e, true), 0, [], sem.evalWorld)
      case Halted(stack, _) => if stack == [] then Ok(Undefined) else Ok(Top(stack))
      case Raised(x, _) => Raise(x)
      case Stuck => Ok(Undefined)
  }

  function IsConst<W>(sem: Semantics<W>, e: Expr): bool
    decreases e, 0
  {
    match e
    case Literal(_) => true
    case Unary(_, o) => IsConst(sem, o)
    case Void(o) => IsConst(sem, o)
    case Binary(_, l, r) => IsConst(sem, l) && IsConst(sem, r)
    case Other(_) | Conditional(_, _, _) | Sequence(_) => false
    case _ =>
      IsConst(sem, e.left) &&
      match EvalConst(sem, e.left)
      case Ok(v) => Decides(e, v) || IsConst(sem, e.right)
      case Raise(_) => true
  }

  function EmitConst<W>(sem: Semantics<W>, e: Expr, putOnStack: bool): seq<Instr>
    decreases e, 3
  {
    match EvalConst(sem, e)
    case Ok(v) => if putOnStack then [LoadVal(v)] else []
    case Raise(x) => if x.ErrorObject? then ThrowCode(x) else []
  }

  function EmitExpr<W>(sem: Semantics<W>, e: Expr, putOnStack: bool): seq<Instr>
    decreases e, 4
  {
    if IsConst(sem, e) then EmitConst(sem, e, putOnStack) else Getter(sem, e, putOnStack)
  }

  /** Operands of !, ~ and typeof are compiled by emitGetter, which does not fold them. */
  predicate ByGetter(op: UnaryOp) {
    op.Not? || op.BitNot? || op.Typeof?
  }

  function OperandCode<W>(sem: Semantics<W>, e: Expr): seq<Instr>
    requires e.Unary?
    decreases e, 0
  {
    if ByGetter(e.uop) then Getter(sem, e.operand, true) else EmitExpr(sem, e.operand, true)
  }

  function PopUnless(putOnStack: bool): seq<Instr> {
    if putOnStack then [] else [Pop]
  }

  /** The jump over the right operand, taken if the value on the left decides. */
  function LogicalJump(e: Expr, n: int): Instr
    requires IsLogical(e)
  {
    match e case LogicalOr(_, _) => Jeq(n) case LogicalAnd(_, _) => Jne(n) case Coalesce(_, _) => Jcoalesc(n)
  }

  /** The left operand of a logical expression that is not constant. */
  function LeftCode<W>(sem: Semantics<W>, e: Expr): seq<Instr>
    requires IsLogical(e)
    decreases e, 0
  {
    if e.LogicalAnd? then Getter(sem, e.left, true) else EmitExpr(sem, e.left, true)
  }

  function Getter<W>(sem: Semantics<W>, e: Expr, putOnStack: bool): seq<Instr>
    decreases e, 1
  {
    match e
    case Literal(v) => if putOnStack then [LoadVal(v)] else []
    case Other(id) => [Ext(id)] + PopUnless(putOnStack)
    case Unary(op, _) => OperandCode(sem, e) + [UnaryInstr(op)] + PopUnless(putOnStack)
    case Void(o) => EmitExpr(sem, o, false) + (if putOnStack then [LoadVal(Undefined)] else [])
    case Binary(op, l, r) => EmitExpr(sem, l, true) + EmitExpr(sem, r, true) + [BinaryOp(op)] + PopUnless(putOnStack)
    case Conditional(t, c, a) =>
      var tc, cc, ac := Getter(sem, t, true), Getter(sem, c, putOnStack), Getter(sem, a, putOnStack);
      tc + [JneP(|cc| + 2)] + cc + [Jump(|ac| + 1)] + ac
    case Sequence(es) => GetterItems(sem, es, putOnStack)
    case _ =>
      if IsConst(sem, e.left) then
        match EvalConst(sem, e.left)
        case Ok(v) =>
          if !Decides(e, v) then EmitExpr(sem, e.right, putOnStack)
          // && leaves its falsy left operand even if no value is wanted
          else if putOnStack || e.LogicalAnd? then [LoadVal(v)] else []
        case Raise(x) => if x.ErrorObject? then ThrowCode(x) else []
      else
        var lc := LeftCode(sem, e);
        var rc := EmitExpr(sem, e.right, true);
        lc + [LogicalJump(e, |rc| + 1)] + rc + PopUnless(putOnStack)
  }

  function GetterItems<W>(sem: Semantics<W>, es: seq<Expr>, putOnStack: bool): seq<Instr>
    decreases es, 0
  {
    if es == [] then []
    else if |es| == 1 then Getter(sem, es[0], putOnStack)
    else Getter(sem, es[0], false) + GetterItems(sem, es[1..], putOnStack)
  }
}
