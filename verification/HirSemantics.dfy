/**
 Big-step meaning of HIR, as an interpreter whose fuel bounds loop iterations.

 Operands are evaluated left to right and by value.  Calls and branch decisions are events; a call's
 answer comes from the same oracle as in MIR.  With `contracts.check` set, a call first checks its
 `requires` conditions and a return its forge's `ensures` clauses, `result` being the returned value.
 */
module HirSemantics {
  import opened Common
  import opened Mir
  import opened MirSemantics
  import opened Hir

  type Env = map<DefId, Value>

  // MIR's interpretation, plus meanings for the operators MIR does not have.
  datatype HirInterp = HirInterp(
    mir: Interp, otherBin: (BinaryOp, Value, Value) -> Value, otherUn: (UnaryOp, Value) -> Value)

  datatype Contracts = Contracts(check: bool, clauses: Clauses)

  datatype Outcome = Normal(value: Value) | Gave(result: Option<Value>) | Failed(msg: string) | OutOfFuel

  datatype Result = Result(out: Outcome, env: Env, trace: seq<Event>)

  datatype ListResult = Values(vs: seq<Value>, env: Env, trace: seq<Event>) | Cut(cut: Result)

  function ReadVar(env: Env, v: DefId): Value {
    if v in env then env[v] else Undef
  }

  function LitValue(lit: Literal): Value {
    match lit
    case IntLit(i) => IntVal(i)
    case FloatLit(f) => FloatVal(f)
    case BoolLit(b) => BoolVal(b)
    case StrLit(s) => StrVal(s)
    case NilLit => BoolVal(false)
  }

  /** The MIR operator that means the same, if MIR has one. */
  function BinCounterpart(op: BinaryOp): Option<BinOp> {
    match op
    case OpAdd => Some(Add)
    case OpSub => Some(Sub)
    case OpMul => Some(Mul)
    case OpDiv => Some(Div)
    case OpEq => Some(Eq)
    case OpNe => Some(Ne)
    case OpLt => Some(Lt)
    case OpLe => Some(Le)
    case OpGt => Some(Gt)
    case OpGe => Some(Ge)
    case _ => None
  }

  function UnCounterpart(op: UnaryOp): Option<UnOp> {
    match op
    case OpNeg => Some(Neg)
    case OpNot => Some(Not)
    case _ => None
  }

  function ApplyBin(I: HirInterp, op: BinaryOp, a: Value, b: Value): Value {
    match BinCounterpart(op)
    case Some(m) => I.mir.bin(m, a, b)
    case None => I.otherBin(op, a, b)
  }

  function ApplyUn(I: HirInterp, op: UnaryOp, a: Value): Value {
    match UnCounterpart(op)
    case Some(m) => I.mir.un(m, a)
    case None => I.otherUn(op, a)
  }

  const UNIT := BoolVal(false)

  /** The value of a call-free operator expression; with `result` given, the name `result` stands for it. */
  function PureValue(I: HirInterp, e: Expr, env: Env, result: Option<Value>): Value {
    match e
    case Lit(lit) => LitValue(lit)
    case Ident(name, v, _) => if result.Some? && name == "result" then result.value else ReadVar(env, v)
    case Bin(op, l, r, _) => ApplyBin(I, op, PureValue(I, l, env, result), PureValue(I, r, env, result))
    case Un(op, x, _) => ApplyUn(I, op, PureValue(I, x, env, result))
    case _ => Undef
  }

  /** Every `ensures` clause is true of `result`. */
  predicate ClausesHold(I: HirInterp, clauses: seq<Expr>, env: Env, result: Value) {
    clauses == [] ||
    (Key(PureValue(I, clauses[0], env, Some(result))) != 0 && ClausesHold(I, clauses[1..], env, result))
  }

  function Eval(I: HirInterp, C: Contracts, e: Expr, env: Env, tr: seq<Event>, fuel: nat): Result
    decreases fuel, e
  {
    match e
    case Lit(lit) => Result(Normal(LitValue(lit)), env, tr)
    case Ident(_, v, _) => Result(Normal(ReadVar(env, v)), env, tr)
    case Bin(op, l, r, _) =>
      var a := Eval(I, C, l, env, tr, fuel);
      if !a.out.Normal? then a
      else
        var b := Eval(I, C, r, a.env, a.trace, fuel);
        if !b.out.Normal? then b
        else Result(Normal(ApplyBin(I, op, a.out.value, b.out.value)), b.env, b.trace)
    case Un(op, x, _) =>
      var a := Eval(I, C, x, env, tr, fuel);
      if !a.out.Normal? then a else Result(Normal(ApplyUn(I, op, a.out.value)), a.env, a.trace)
    case CallExpr(callee, args, reqs, retTy) =>
      var a := EvalList(I, C, args, env, tr, fuel);
      if a.Cut? then a.cut
      else
        var q := if C.check then EvalAsserts(I, C, reqs, a.env, a.trace, fuel)
                 else Result(Normal(UNIT), a.env, a.trace);
        if !q.out.Normal? then q
        else
          var f := CalleeName(callee);
          var v := if retTy == Prim(Void) then UNIT else I.mir.answer(q.trace, f, a.vs);
          Result(Normal(v), q.env, q.trace + [Called(f, a.vs)])
    case Given(cond, thenBlock, elseExpr, _) =>
      var c := Eval(I, C, cond, env, tr, fuel);
      if !c.out.Normal? then c
      else
        var tr' := c.trace + [Switched(Key(c.out.value))];
        if Key(c.out.value) == 1 then EvalBlock(I, C, thenBlock, c.env, tr', fuel)
        else (match elseExpr
              case None => Result(Normal(UNIT), c.env, tr')
              case Some(x) => Eval(I, C, x, c.env, tr', fuel))
    case While(cond, body) =>
      if fuel == 0 then Result(OutOfFuel, env, tr)
      else
        var c := Eval(I, C, cond, env, tr, fuel);
        if !c.out.Normal? then c
        else
          var tr' := c.trace + [Switched(Key(c.out.value))];
          if Key(c.out.value) != 1 then Result(Normal(UNIT), c.env, tr')
          else
            var b := EvalBlock(I, C, body, c.env, tr', fuel);
            if !b.out.Normal? then b else Eval(I, C, e, b.env, b.trace, fuel - 1)
    case ReturnExpr(None) => Result(Gave(None), env, tr)
    case ReturnExpr(Some(x)) =>
      var a := Eval(I, C, x, env, tr, fuel);
      if !a.out.Normal? then a
      else if C.check && !ClausesHold(I, C.clauses, a.env, a.out.value)
      then Result(Failed(POSTCONDITION), a.env, a.trace)
      else Result(Gave(Some(a.out.value)), a.env, a.trace)
    case Zone(_, b, _) => EvalBlock(I, C, b, env, tr, fuel)
  }

  function EvalList(I: HirInterp, C: Contracts, es: seq<Expr>, env: Env, tr: seq<Event>, fuel: nat): ListResult
    decreases fuel, es
  {
    if es == [] then Values([], env, tr)
    else
      var a := Eval(I, C, es[0], env, tr, fuel);
      if !a.out.Normal? then Cut(a)
      else
        var r := EvalList(I, C, es[1..], a.env, a.trace, fuel);
        if r.Cut? then r else Values([a.out.value] + r.vs, r.env, r.trace)
  }

  function EvalAsserts(I: HirInterp, C: Contracts, es: seq<Expr>, env: Env, tr: seq<Event>, fuel: nat): Result
    decreases fuel, es
  {
    if es == [] then Result(Normal(UNIT), env, tr)
    else
      var a := Eval(I, C, es[0], env, tr, fuel);
      if !a.out.Normal? then a
      else if Key(a.out.value) == 0 then Result(Failed(PRECONDITION), a.env, a.trace)
      else EvalAsserts(I, C, es[1..], a.env, a.trace, fuel)
  }

  function EvalBlock(I: HirInterp, C: Contracts, b: HBlock, env: Env, tr: seq<Event>, fuel: nat): Result
    decreases fuel, b
  {
    var r := EvalStmts(I, C, b.stmts, env, tr, fuel);
    if !r.out.Normal? then r
    else
      match b.tail
      case None => r
      case Some(e) => Eval(I, C, e, r.env, r.trace, fuel)
  }

  function EvalStmts(I: HirInterp, C: Contracts, ss: seq<Stmt>, env: Env, tr: seq<Event>, fuel: nat): (r: Result)
    ensures r.out.Normal? ==> r.out.value == UNIT
    decreases fuel, ss
  {
    if ss == [] then Result(Normal(UNIT), env, tr)
    else
      var r := EvalStmt(I, C, ss[0], env, tr, fuel);
      if !r.out.Normal? then r else EvalStmts(I, C, ss[1..], r.env, r.trace, fuel)
  }

  function EvalStmt(I: HirInterp, C: Contracts, s: Stmt, env: Env, tr: seq<Event>, fuel: nat): Result
    decreases fuel, s
  {
    match s
    case Let(_, v, _, None) => Result(Normal(UNIT), env, tr)
    case Let(_, v, _, Some(e)) => Store1(Eval(I, C, e, env, tr, fuel), v)
    case AssignStmt(v, e) => Store1(Eval(I, C, e, env, tr, fuel), v)
    case ExprStmt(e) => Eval(I, C, e, env, tr, fuel)
  }

  function Store1(r: Result, v: DefId): Result {
    if r.out.Normal? then r.(env := r.env[v := r.out.value]) else r
  }

  // ---- Whole forges ----

  function BindArgs(env: Env, ps: seq<Param>, args: seq<Value>): Env
    requires |ps| == |args|
    decreases ps
  {
    if ps == [] then env else BindArgs(env[ps[0].def := args[0]], ps[1..], args[1..])
  }

  /**
   Running a forge on `args`, with at most `fuel` iterations deep of loops.  `garbage` is what
   variables hold before they are set.  Only an explicit return has a value.
   */
  function RunForge(I: HirInterp, check: bool, f: Forge, args: seq<Value>, garbage: Env, fuel: nat): Result
    requires |f.params| == |args| && ReturnNestAll(f.ensures_) == 0
  {
    var env := BindArgs(garbage, f.params, args);
    match f.body
    case None => Result(Gave(None), env, [])
    case Some(b) =>
      var r := EvalBlock(I, Contracts(check, f.ensures_), b, env, [], fuel);
      if r.out.Normal? then r.(out := Gave(None)) else r
  }
}
