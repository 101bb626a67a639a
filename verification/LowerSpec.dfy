/**
 What `MirLowerer` computes, as functions from one lowerer state to the next.

 `Lowering` holds the fields of `MirLowerer`; the class in `Lower.dfy` is proved to follow these
 functions step by step, and the theorems about lowering are proved of them.
 */
module LowerSpec {
  import opened Common
  import opened Mir
  import opened Hir

  datatype Lowering = Lowering(
    body: MirBody,
    cur: BlockId,
    header: BlockId,
    forgeName: string,
    paramDefs: seq<DefId>,
    vars: map<DefId, Local>,
    checkContracts: bool,
    ensures_: Clauses)
  {
    ghost predicate Valid() {
      cur < |body.blocks| && header < |body.blocks|
    }

    function Cur(): BasicBlock
      requires Valid()
    {
      body.blocks[cur]
    }

    function Size(): nat {
      |body.blocks|
    }
  }

  ghost const NEW_LOWERING := Lowering(NEW_BODY, 0, 0, "", [], map[], false, [])

  type State = s: Lowering | s.Valid() ghost witness NEW_LOWERING

  // ---- Edits ----

  function WithBlock(s: State, b: BlockId, block: BasicBlock): (s': State)
    requires b < s.Size()
    ensures s'.Size() == s.Size()
  {
    s.(body := s.body.(blocks := s.body.blocks[b := block]))
  }

  function Push(s: State, ins: Instruction): (s': State)
    ensures s'.Size() == s.Size()
  {
    WithBlock(s, s.cur, s.Cur().(instrs := s.Cur().instrs + [ins]))
  }

  function Terminate(s: State, b: BlockId, term: Terminator): (s': State)
    requires b < s.Size()
    ensures s'.Size() == s.Size()
  {
    WithBlock(s, b, s.body.blocks[b].(term := Some(term)))
  }

  function AddBlock(s: State): (s': State)
    ensures s'.Size() == s.Size() + 1
  {
    s.(body := s.body.(blocks := s.body.blocks + [EMPTY_BLOCK]))
  }

  function AddEdge(s: State, src: BlockId, dst: BlockId, kind: EdgeKind): (s': State)
    ensures s'.Size() == s.Size()
  {
    s.(body := s.body.(edges := s.body.edges + [Edge(src, dst, kind)]))
  }

  function MoveTo(s: State, b: BlockId): (s': State)
    requires b < s.Size()
    ensures s'.Size() == s.Size()
  {
    s.(cur := b)
  }

  /** `new_local`: the new slot is the old number of slots. */
  function NewLocal(s: State, name: string, ty: Type): (s': State)
    ensures s'.Size() == s.Size()
  {
    s.(body := s.body.(locals := s.body.locals + [LocalData(name, ty)]))
  }

  function WriteVariable(s: State, v: DefId, l: Local): (s': State)
    ensures s'.Size() == s.Size()
  {
    s.(vars := s.vars[v := l])
  }

  function Digits(n: nat): string {
    if n < 10 then [('0' as int + n) as char] else Digits(n / 10) + [('0' as int + n % 10) as char]
  }

  function DebugDef(v: DefId): string {
    "vDefId(" + Digits(v) + ")"
  }

  /** `read_variable`: a definition seen for the first time gets a slot of unknown type. */
  function ReadVariable(s: State, v: DefId): (r: (State, Local))
    ensures r.0.Size() == s.Size()
  {
    if v in s.vars then (s, s.vars[v])
    else
      var l := |s.body.locals|;
      (WriteVariable(NewLocal(s, DebugDef(v), Error), v, l), l)
  }

  // ---- Types of slots ----

  function ConstType(c: Constant): Type {
    match c
    case IntConst(_) => Prim(I32)
    case FloatConst(_) => Prim(F64)
    case BoolConst(_) => Prim(BoolTy)
    case StrConst(_) => Prim(StrTy)
  }

  function OperandType(locals: seq<LocalData>, op: Operand): Type {
    match op
    case Const(c) => ConstType(c)
    case Copy(l) => if l < |locals| then locals[l].ty else Error
    case Move(l) => if l < |locals| then locals[l].ty else Error
  }

  function RvalueType(locals: seq<LocalData>, rv: Rvalue): Type {
    match rv
    case Use(op) => OperandType(locals, op)
    case Unary(Not, _) => Prim(BoolTy)
    case Unary(Neg, x) => OperandType(locals, x)
    case Binary(op, l, r) =>
      if op in {Eq, Ne, Lt, Le, Gt, Ge} then Prim(BoolTy)
      else
        var lt, rt := OperandType(locals, l), OperandType(locals, r);
        if lt == Prim(F64) || rt == Prim(F64) then Prim(F64)
        else if lt != Error then lt
        else if rt != Error then rt
        else Prim(I32)
    case Ref(_, _) => Pointer(Prim(I8), false)
  }

  function ExprType(e: Expr): Type {
    match e
    case Lit(IntLit(_)) => Prim(I32)
    case Lit(FloatLit(_)) => Prim(F64)
    case Lit(BoolLit(_)) => Prim(BoolTy)
    case Lit(StrLit(_)) => Prim(StrTy)
    case Lit(NilLit) => Prim(Void)
    case Ident(_, _, ty) => ty
    case Bin(_, _, _, ty) => ty
    case Un(_, _, ty) => ty
    case CallExpr(_, _, _, ty) => ty
    case Given(_, _, _, ty) => ty
    case Zone(_, _, ty) => ty
    case ReturnExpr(_) => Prim(Void)
    case While(_, _) => Error
  }

  // ---- Operators ----

  function LitConst(lit: Literal): Constant {
    match lit
    case IntLit(i) => IntConst(i)
    case FloatLit(f) => FloatConst(f)
    case BoolLit(b) => BoolConst(b)
    case StrLit(s) => StrConst(s)
    case NilLit => BoolConst(false)
  }

  /** The operators without a MIR counterpart silently become `Add`. */
  function MapBinOp(op: BinaryOp): BinOp {
    match op
    case OpAdd => Add
    case OpSub => Sub
    case OpMul => Mul
    case OpDiv => Div
    case OpEq => Eq
    case OpNe => Ne
    case OpLt => Lt
    case OpLe => Le
    case OpGt => Gt
    case OpGe => Ge
    case _ => Add
  }

  /** The operators without a MIR counterpart silently become `Neg`. */
  function MapUnOp(op: UnaryOp): UnOp {
    match op
    case OpNeg => Neg
    case OpNot => Not
    case _ => Neg
  }

  const FALSE_RV := Use(Const(BoolConst(false)))
  const ZERO_RV := Use(Const(IntConst(0)))

  predicate IsSelfTailCall(forgeName: string, e: Expr) {
    e.CallExpr? && e.callee.Ident? && e.callee.name == forgeName
  }

  // ---- `result` in an ensures clause ----

  /** `substitute_result_expr`: it does not look inside given, while, zone and return. */
  function SubstResult(e: Expr, result: Expr): Expr {
    match e
    case Ident(name, _, _) => if name == "result" then result else e
    case Bin(op, l, r, ty) => Bin(op, SubstResult(l, result), SubstResult(r, result), ty)
    case Un(op, x, ty) => Un(op, SubstResult(x, result), ty)
    case CallExpr(c, args, reqs, ty) =>
      CallExpr(SubstResult(c, result), SubstResultAll(args, result), SubstResultAll(reqs, result), ty)
    case _ => e
  }

  function SubstResultAll(es: seq<Expr>, result: Expr): seq<Expr> {
    if es == [] then [] else [SubstResult(es[0], result)] + SubstResultAll(es[1..], result)
  }

  /** Substitution adds no return that the result did not have: this is why lowering clauses terminates. */
  lemma {:induction false} SubstNest(e: Expr, result: Expr)
    ensures ReturnNest(SubstResult(e, result)) <= Max(ReturnNest(e), ReturnNest(result))
    decreases e
  {
    match e
    case Bin(_, l, r, _) => SubstNest(l, result); SubstNest(r, result);
    case Un(_, x, _) => SubstNest(x, result);
    case CallExpr(c, args, reqs, _) =>
      SubstNest(c, result);
      SubstNestAll(args, result);
      SubstNestAll(reqs, result);
    case _ =>
  }

  lemma {:induction false} SubstNestAll(es: seq<Expr>, result: Expr)
    ensures ReturnNestAll(SubstResultAll(es, result)) <= Max(ReturnNestAll(es), ReturnNest(result))
    decreases es
  {
    if es != [] {
      SubstNest(es[0], result);
      SubstNestAll(es[1..], result);
      assert SubstResultAll(es, result)[1..] == SubstResultAll(es[1..], result);
    }
  }

  // ---- Lowering ----

  /** `rvalue_to_operand`: anything but a plain use is stored in a fresh temporary, now. */
  function ToOperand(s: State, rv: Rvalue): (r: (State, Operand))
    ensures r.0.Size() == s.Size()
  {
    match rv
    case Use(op) => (s, op)
    case _ =>
      var l := |s.body.locals|;
      (Push(NewLocal(s, "tmp", RvalueType(s.body.locals, rv)), Assign(l, rv)), Move(l))
  }

  function LowerOperand(s: State, e: Expr): (r: (State, Operand))
    ensures r.0.Size() >= s.Size()
    decreases ReturnNest(e), 1, e, 2
  {
    var (s1, rv) := LowerExpr(s, e);
    ToOperand(s1, rv)
  }

  function LowerOperands(s: State, es: seq<Expr>): (r: (State, seq<Operand>))
    ensures r.0.Size() >= s.Size()
    decreases ReturnNestAll(es), 1, es
  {
    if es == [] then (s, [])
    else
      var (s1, op) := LowerOperand(s, es[0]);
      var (s2, ops) := LowerOperands(s1, es[1..]);
      (s2, [op] + ops)
  }

  /** Each condition is computed and then asserted. */
  function LowerAsserts(s: State, es: seq<Expr>, msg: string): (s': State)
    ensures s'.Size() >= s.Size()
    decreases ReturnNestAll(es), 1, es
  {
    if es == [] then s
    else
      var (s1, op) := LowerOperand(s, es[0]);
      LowerAsserts(Push(s1, Assert(op, msg)), es[1..], msg)
  }

  /** The `ensures` clauses, with `result` replaced by the returned expression itself. */
  function LowerClauses(s: State, clauses: Clauses, result: Expr): (s': State)
    ensures s'.Size() >= s.Size()
    decreases 1 + ReturnNest(result), 0, clauses
  {
    if clauses == [] then s
    else
      SubstNest(clauses[0], result);
      var (s1, op) := LowerOperand(s, SubstResult(clauses[0], result));
      LowerClauses(Push(s1, Assert(op, POSTCONDITION)), clauses[1..], result)
  }

  /** The parameters are rebound to fresh slots. */
  function Rebind(s: State, defs: seq<DefId>, ops: seq<Operand>, i: nat): (s': State)
    requires i <= |defs|
    ensures s'.Size() == s.Size() && s'.cur == s.cur && s'.header == s.header
    decreases |defs| - i
  {
    if i == |defs| then s
    else if i >= |ops| then Rebind(s, defs, ops, i + 1)
    else
      var l := |s.body.locals|;
      var s1 := Push(NewLocal(s, "tco_p" + Digits(i), Error), Assign(l, Use(ops[i])));
      Rebind(WriteVariable(s1, defs[i], l), defs, ops, i + 1)
  }

  function LowerReturn(s: State, e: Expr): (r: (State, Rvalue))
    requires e.ReturnExpr?
    ensures r.0.Size() >= s.Size()
    decreases ReturnNest(e), 1, e, 0
  {
    match e.result
    case None => (Terminate(s, s.cur, Return(None)), ZERO_RV)
    case Some(x) =>
      if IsSelfTailCall(s.forgeName, x) then
        assert ReturnNestAll(x.args) <= ReturnNest(x);
        var (s1, ops) := LowerOperands(s, x.args);
        var s2 := Rebind(s1, s1.paramDefs, ops, 0);
        var s3 := AddEdge(s2, s2.cur, s2.header, Unconditional);
        (Terminate(s3, s3.cur, Goto(s3.header)), ZERO_RV)
      else
        var (s1, op) := LowerOperand(s, x);
        var s2 := if s1.checkContracts then LowerClauses(s1, s1.ensures_, x) else s1;
        (Terminate(s2, s2.cur, Return(Some(op))), ZERO_RV)
  }

  function LowerCall(s: State, e: Expr): (r: (State, Rvalue))
    requires e.CallExpr?
    ensures r.0.Size() >= s.Size()
    decreases ReturnNest(e), 1, e, 0
  {
    var CallExpr(callee, args, reqs, retTy) := e;
    var (s1, ops) := LowerOperands(s, args);
    var s2 := if s1.checkContracts then LowerAsserts(s1, reqs, PRECONDITION) else s1;
    if retTy == Prim(Void) then
      (Push(s2, Call(None, CalleeName(callee), ops)), FALSE_RV)
    else
      var l := |s2.body.locals|;
      (Push(NewLocal(s2, "call_tmp", retTy), Call(Some(l), CalleeName(callee), ops)), Use(Move(l)))
  }

  /** Ends the current block with a jump to `target`, unless it already ended. */
  function JoinTo(s: State, target: BlockId): (s': State)
    ensures s'.Size() == s.Size()
  {
    if s.Cur().term.Some? then s
    else Terminate(AddEdge(s, s.cur, target, Unconditional), s.cur, Goto(target))
  }

  /** Three new blocks, and a branch on `op` from the current block to the first two. */
  function OpenGiven(s: State, op: Operand): (s': State)
    ensures s'.Size() == s.Size() + 3
  {
    var t, e := s.Size(), s.Size() + 1;
    var s1 := AddBlock(AddBlock(AddBlock(s)));
    var s2 := AddEdge(AddEdge(s1, s.cur, t, Conditional(true)), s.cur, e, Conditional(false));
    MoveTo(Terminate(s2, s.cur, SwitchInt(op, [(1, t)], e)), t)
  }

  /** Three new blocks, and a jump from the current block to the first. */
  function OpenWhile(s: State): (s': State)
    ensures s'.Size() == s.Size() + 3
  {
    var c := s.Size();
    var s1 := AddBlock(AddBlock(AddBlock(s)));
    MoveTo(Terminate(AddEdge(s1, s.cur, c, Unconditional), s.cur, Goto(c)), c)
  }

  /** The branch is put at the loop's first block, wherever lowering the condition has moved to. */
  function BranchWhile(s: State, c: BlockId, op: Operand): (s': State)
    requires c + 2 < s.Size()
    ensures s'.Size() == s.Size()
  {
    var s1 := AddEdge(AddEdge(s, c, c + 1, Conditional(true)), c, c + 2, Conditional(false));
    MoveTo(Terminate(s1, c, SwitchInt(op, [(1, c + 1)], c + 2)), c + 1)
  }

  function LowerExpr(s: State, e: Expr): (r: (State, Rvalue))
    ensures r.0.Size() >= s.Size()
    decreases ReturnNest(e), 1, e, 1
  {
    match e
    case Lit(lit) => (s, Use(Const(LitConst(lit))))
    case Ident(_, v, _) =>
      var (s1, l) := ReadVariable(s, v);
      (s1, Use(Copy(l)))
    case Zone(z, b, _) =>
      var (s1, rv) := LowerBlock(Push(s, ZoneEnter(z)), b);
      (Push(s1, ZoneExit(z)), rv)
    case Bin(op, l, r, _) =>
      var (s1, lop) := LowerOperand(s, l);
      var (s2, rop) := LowerOperand(s1, r);
      (s2, Binary(MapBinOp(op), lop, rop))
    case Un(op, x, _) =>
      var (s1, xop) := LowerOperand(s, x);
      (s1, Unary(MapUnOp(op), xop))
    case CallExpr(_, _, _, _) => LowerCall(s, e)
    case ReturnExpr(_) => LowerReturn(s, e)
    case Given(cond, thenBlock, elseExpr, _) =>
      var (s1, op) := LowerOperand(s, cond);
      var els, join := s1.Size() + 1, s1.Size() + 2;
      var s2 := JoinTo(LowerBlock(OpenGiven(s1, op), thenBlock).0, join);
      var s3 := MoveTo(s2, els);
      var s4 := JoinTo(match elseExpr { case None => s3 case Some(x) => LowerExpr(s3, x).0 }, join);
      (MoveTo(s4, join), ZERO_RV)
    case While(cond, body) =>
      var c := s.Size();
      var (s1, op) := LowerOperand(OpenWhile(s), cond);
      var s2 := JoinTo(LowerBlock(BranchWhile(s1, c, op), body).0, c);
      (MoveTo(s2, c + 2), FALSE_RV)
  }

  function LowerBlock(s: State, b: HBlock): (r: (State, Rvalue))
    ensures r.0.Size() >= s.Size()
    decreases ReturnNestBlock(b), 1, b
  {
    var s1 := LowerStmts(s, b.stmts);
    match b.tail
    case None => (s1, FALSE_RV)
    case Some(e) => LowerExpr(s1, e)
  }

  function LowerStmts(s: State, ss: seq<Stmt>): (s': State)
    ensures s'.Size() >= s.Size()
    decreases ReturnNestStmts(ss), 1, ss
  {
    if ss == [] then s else LowerStmts(LowerStmt(s, ss[0]), ss[1..])
  }

  /** The slot a `let` writes: the variable's own if it has one, else a new one. */
  function LetLocal(s: State, name: string, v: DefId, ty: Type, init: Expr): (r: (State, Local))
    ensures r.0.Size() == s.Size()
  {
    if v in s.vars then (s, s.vars[v])
    else
      var l := |s.body.locals|;
      (WriteVariable(NewLocal(s, name, if ty == Error then ExprType(init) else ty), v, l), l)
  }

  function LowerStmt(s: State, st: Stmt): (s': State)
    ensures s'.Size() >= s.Size()
    decreases ReturnNestStmt(st), 1, st
  {
    match st
    case Let(name, v, ty, init) =>
      if init.None? then s
      else
        var (s1, rv) := LowerExpr(s, init.value);
        var (s2, l) := LetLocal(s1, name, v, ty, init.value);
        Push(s2, Assign(l, rv))
    case AssignStmt(v, e) =>
      var (s1, rv) := LowerExpr(s, e);
      var (s2, l) := ReadVariable(s1, v);
      Push(s2, Assign(l, rv))
    case ExprStmt(e) => LowerExpr(s, e).0
  }

  function BindParams(s: State, ps: seq<Param>): (s': State)
    ensures s'.Size() == s.Size() && s'.cur == s.cur && s'.header == s.header
    decreases ps
  {
    if ps == [] then s
    else
      var l := |s.body.locals|;
      BindParams(WriteVariable(NewLocal(s, ps[0].name, ps[0].ty), ps[0].def, l), ps[1..])
  }

  function ParamDefs(ps: seq<Param>): seq<DefId> {
    seq(|ps|, i requires 0 <= i < |ps| => ps[i].def)
  }

  /** Entry block 0 jumps to header block 1, where the body starts. */
  function StartForge(check: bool, f: Forge): (s: State)
    requires ReturnNestAll(f.ensures_) == 0
    ensures s.Size() == 2
  {
    var s0 := Lowering(MirBody([EMPTY_BLOCK, EMPTY_BLOCK], [], 0, [], |f.params|),
                       0, 1, f.name, ParamDefs(f.params), map[], check, f.ensures_);
    var s1 := AddEdge(BindParams(s0, f.params), 0, 1, Unconditional);
    MoveTo(Terminate(s1, 0, Goto(1)), 1)
  }

  function FinishForge(s: State): (s': State) {
    if s.Cur().term.None? then Terminate(s, s.cur, Return(None)) else s
  }

  function LowerBody(s: State, body: Option<HBlock>): State {
    match body
    case None => s
    case Some(b) => LowerBlock(s, b).0
  }

  /** `lower_forge`: it depends on nothing the lowerer did before. */
  function LowerForge(check: bool, f: Forge): MirBody
    requires ReturnNestAll(f.ensures_) == 0
  {
    FinishForge(LowerBody(StartForge(check, f), f.body)).body
  }
}
