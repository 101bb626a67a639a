/** The high-level IR: resolved, still structured. */
module Hir {
  import opened Common
  import opened Mir

  datatype BinaryOp =
    OpAdd | OpSub | OpMul | OpDiv | OpRem | OpEq | OpNe | OpLt | OpGt | OpLe | OpGe
    | OpAnd | OpOr | OpBitAnd | OpBitOr | OpBitXor | OpShl | OpShr | OpPipeline

  datatype UnaryOp = OpNeg | OpNot | OpBitNot | OpDeref | OpRef(isMut: bool)

  datatype Literal = IntLit(i: int) | FloatLit(f: real) | BoolLit(b: bool) | StrLit(s: string) | NilLit

  datatype Expr =
    | Lit(lit: Literal)
    | Ident(name: string, def: DefId, ty: Type)
    | Bin(op: BinaryOp, lhs: Expr, rhs: Expr, ty: Type)
    | Un(uop: UnaryOp, inner: Expr, ty: Type)
    | CallExpr(callee: Expr, args: seq<Expr>, reqs: seq<Expr>, retTy: Type)
    | Given(cond: Expr, thenBlock: HBlock, elseExpr: Option<Expr>, ty: Type)
    | While(cond: Expr, body: HBlock)
    | ReturnExpr(result: Option<Expr>)
    | Zone(zone: string, body: HBlock, ty: Type)

  datatype HBlock = HBlock(stmts: seq<Stmt>, tail: Option<Expr>)

  datatype Stmt =
    | Let(name: string, def: DefId, ty: Type, init: Option<Expr>)
    | AssignStmt(def: DefId, expr: Expr)
    | ExprStmt(expr: Expr)

  datatype Param = Param(name: string, def: DefId, ty: Type)

  datatype Forge = Forge(name: string, params: seq<Param>, body: Option<HBlock>, ensures_: seq<Expr>)

  function CalleeName(callee: Expr): string {
    if callee.Ident? then callee.name else "unknown"
  }

  // What a failed runtime check of a contract says.
  const PRECONDITION := "precondition violation"
  const POSTCONDITION := "postcondition violation"

  // ---- How deeply returns nest in one another: what lowering an `ensures` clause recurses on ----

  function ReturnNest(e: Expr): nat {
    match e
    case Lit(_) => 0
    case Ident(_, _, _) => 0
    case Bin(_, l, r, _) => Max(ReturnNest(l), ReturnNest(r))
    case Un(_, x, _) => ReturnNest(x)
    case CallExpr(c, args, reqs, _) => Max(ReturnNest(c), Max(ReturnNestAll(args), ReturnNestAll(reqs)))
    case Given(c, t, el, _) =>
      Max(ReturnNest(c), Max(ReturnNestBlock(t), match el { case None => 0 case Some(x) => ReturnNest(x) }))
    case While(c, b) => Max(ReturnNest(c), ReturnNestBlock(b))
    case ReturnExpr(r) => (match r case None => 1 case Some(x) => 1 + ReturnNest(x))
    case Zone(_, b, _) => ReturnNestBlock(b)
  }

  function ReturnNestAll(es: seq<Expr>): nat {
    if es == [] then 0 else Max(ReturnNest(es[0]), ReturnNestAll(es[1..]))
  }

  function ReturnNestBlock(b: HBlock): nat {
    Max(ReturnNestStmts(b.stmts), match b.tail { case None => 0 case Some(x) => ReturnNest(x) })
  }

  function ReturnNestStmts(ss: seq<Stmt>): nat {
    if ss == [] then 0 else Max(ReturnNestStmt(ss[0]), ReturnNestStmts(ss[1..]))
  }

  function ReturnNestStmt(s: Stmt): nat {
    match s
    case Let(_, _, _, init) => (match init case None => 0 case Some(x) => ReturnNest(x))
    case AssignStmt(_, e) => ReturnNest(e)
    case ExprStmt(e) => ReturnNest(e)
  }

  // The source recurses for ever on an `ensures` clause that itself returns, so clauses are return-free.
  type Clauses = es: seq<Expr> | ReturnNestAll(es) == 0 witness []

  lemma {:induction false} ReturnNestMember(es: seq<Expr>, i: nat)
    requires i < |es|
    ensures ReturnNest(es[i]) <= ReturnNestAll(es)
  {
    if i > 0 {
      ReturnNestMember(es[1..], i - 1);
    }
  }
}
